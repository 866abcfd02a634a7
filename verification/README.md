# LASO in Dafny

LASO runs workflows ("pipelines") durably: a run walks a validated graph of nodes, forks into branches
that may execute in other processes, keeps its state in PostgreSQL rows guarded by fenced leases, and
answers the turns of long-lived agent sessions. This project models that core and proves what it keeps
over every run, every schedule and every history of operations.

| files | what they model |
|---|---|
| `Digraph`, `Pipeline`, `Parser` | pipeline definitions and their validation |
| `TokenMachine`, `TokenTree`, `TokenSafety`, `TokenTermination`, `EdgeBudgets`, `Run` | the sequential walk: tokens, frames, joins, edge budgets |
| `Pairing`, `PairingExact`, `PairingFaults` | when forks and joins pair up, and what happens when they do not |
| `Leases`, `Holding`, `NodeWork`, `NodeWorkSafety`, `WorkRecords`, `RecordRaces` | leases with fencing tokens, distributed branch work, reconciliation |
| `Branches`, `Joins`, `JoinAgreement`, `BranchLimits`, `VisitCounts` | one branch on its own, the three ways of executing a fork, and when they agree |
| `Sessions`, `SessionSafety`, `SessionClaims`, `SessionViews`, `SessionStore`, `EventStream` | the session protocol, what a run sees of it, and its event stream |
| `Reducer` | the recent-turns context reducer |
| `WordBits`, `SecureHash`, `Fips180`, `ArtifactDigest` | the streaming SHA-256 of artifacts |
| `Registry` | pipeline registration |
| `Ingress` | event ingress |

## How the model is built

- A component that updates state in place is a class (`Run`, `LeaseTable`, `SessionRows`, `Hasher`,
  `EventIngress`) or a method with loops. Each is proved equal to a specification function on values, and
  the properties are proved about those functions over all sequences of steps.
- A database transaction is one step, except where the code lets steps of two transactions interleave:
  `Fencing` splits lock, check, write and unlock, `NodeWork` and `Registry` split the unlocked record check
  of a commit from its write, `Registry` also splits the lookup from the list that references are resolved
  against, `Ingress` splits every critical section.
- Clocks, identifiers, lease validity at a given moment, node behaviours and the parse of a subpipeline
  reference are parameters; the theorems hold for all their values.
- Integers are unbounded. Wrap-around is written out where the code relies on or could meet it: the bit
  counter of the digest and the pending counters of the ingress. The 32-bit words of the digest are numbers;
  their bits are read by halving, shifts are halvings or doublings modulo 2^32.
- The proofs about the walk are by a tree of positions: every token is a leaf, every open group a fork,
  every arrived branch a marked leaf. The run state is the flattening of such a tree.

## Findings

- `write_records` checks a node work record with a SELECT that takes no row lock, and then writes whatever is
  there. A terminal record stays as it is under every schedule exactly when the checked writes of it that are
  pending write the same record (`RecordRaces.TerminalStaysIff`), and a distributed fork that is ready stays
  ready exactly when no claim or requeue of one of its branches has passed its check
  (`RecordRaces.ReadyStaysIff`). Lease holders exclude each other through the lease row, so both hold for good
  as long as no cancellation has written (`RecordRaces.TerminalForever`, `RecordRaces.ReadyForever`). The
  cancellation of queued work is not fenced: a claim whose check ran before the cancellation wrote turns the
  cancelled work back to running and the ready fork unready (`RecordRaces.CancelledWorkRevived`). Provenance,
  the fixed place of a branch, reconciliation and the joined payload survive all of this.
- The same unlocked check guards the immutability of pipeline revisions. Two overlapping first registrations
  of one key with different sources both succeed, and the second replaces the first
  (`Registry.RevisionOverwritten`). A revision is immutable from some moment on exactly when no registration
  of its key has passed its check with another revision (`Registry.ImmutableIff`). The registry stays closed
  and acyclic even so, because whatever is written under a key depends only on keys that were first
  registered before it (`Registry.RegistrySound`).
- Validation does not pair forks with joins. A valid pipeline can fail on every input with "join outside
  group" (`PairingFaults.JoinOutsideGroupPossible`) or "graph not converged"
  (`PairingFaults.NotConvergedPossible`). Labelling the nodes with stacks of open joins, consistently along the
  edges that can be selected, excludes both in every run (`Pairing.LabelledWalks`). When every node always
  routes the same way, a run that no limit cuts off completes if and only if there is such a labelling
  (`PairingExact.CompletesIffLabelled`).
- A branch executed concurrently or by another process counts node visits from zero, while the walk counts
  all of them. A node that depends on its visit number and lies on two branches makes the joined payloads
  differ (`VisitCounts.JoinsDiffer`); where no such node is shared or visited before, they agree
  (`JoinAgreement.JoinsAgree`).
- A renewal sets the end of a lease to now plus the time to live it asks for, so it can also bring the end
  forward (`Holding.RenewalMayShorten`). A lease lasts for the time it was granted or renewed for unless its
  holder releases it or renews it to an earlier end (`Holding.HeldForItsTime`).
- The reducer's budget is the configured target minus the current input, so it varies from turn to turn.
  When it grows, a chain of reductions can differ from reducing the full history: an early dropped turn does
  not come back, whatever the turns (`Reducer.GrowingBudgetForgets`). `Reducer.ChainExact` gives the exact
  condition.
- A call that the ingress refuses for capacity leaves an entry with count zero for its source, because the
  lookup inserts. The counts stay right (`Ingress.AdmitCounts`).
- With the registry closed and acyclic, as it always is, and the candidate's key not yet listed, the recursive dependency visit refuses exactly the
  candidates that name themselves (`Registry.RefusedIffSelf`).

## Model

| member | source | states |
|---|---|---|
| `Digraph.AcyclicIffOrdered` | src/pipeline/parser.cpp:296-312 | a finite closed graph has no cycle exactly when it can be listed successors first; termination and the registry rest on it |
| `Pipeline.RoutingDetermined` | src/pipeline/parser.cpp:271-295 | under the fan-out rules every declared routing result selects at least one edge, and exactly one outside a fork |
| `Parser.CheckOneFanOut` | src/pipeline/parser.cpp:271-295 | the check with its set of seen conditions accepts exactly the allowed out-edges of a node kind |
| `Parser.IndexEdges` | src/pipeline/parser.cpp:258-270 | accepts exactly when every edge is well formed and no pair of ends repeats, and groups the edges by source |
| `Parser.CheckCycles` | src/pipeline/parser.cpp:296-312 | the colour search accepts exactly the graphs without a cycle that avoids every bounded edge |
| `Parser.Visit` | src/pipeline/parser.cpp:297-309 | one search call either finds such a cycle or extends the finished nodes, listed successors first, by the visited one |
| `Parser.CheckReachable` | src/pipeline/parser.cpp:313-322 | comparing sizes accepts exactly when every node is reachable from input |
| `Parser.ValidatePipeline` | src/pipeline/parser.cpp:214-323 | validation accepts exactly the valid pipelines, in both directions |
| `TokenSafety.PrepareJoinSafe` | src/runtime/graph.cpp:85-111 | at a nested state the join never finds its branch arrived twice nor its group short of branches without a token on the way, and keeps the nesting |
| `TokenSafety.AdvanceCases` | src/runtime/graph.cpp:112-144 | routing a validated node never lacks a matching edge nor is ambiguous; it completes only at output with nothing left over |
| `TokenSafety.StepSafe` | src/runtime/execution.cpp:719-968 | every pass of the loop keeps the nesting invariant or stops with a harmless fault |
| `TokenSafety.WalkNested` | src/runtime/graph.cpp:74-144 | every state of every run is the flattening of a well-formed tree of open groups |
| `TokenSafety.BranchAccounted` | src/runtime/graph.cpp:85-105 | in such a state each branch of an open group has arrived exactly once or is represented by exactly one live token or one open subgroup |
| `TokenSafety.WalkSafe` | src/runtime/graph.cpp:74-144 | no run of a validated pipeline meets "arrived twice", "missing branches", "no matching edge" or "ambiguous routing", and completion leaves no frame, token or table behind |
| `TokenSafety.JoinInIndexOrder` | src/runtime/graph.cpp:93-105 | a completed join is the array with branch i's payload at position i |
| `TokenTermination.EdgeKeyInjective` | src/runtime/graph.cpp:130-132 | two valid edges with the same iteration counter key have the same ends |
| `TokenTermination.StepSpends` | src/runtime/graph.cpp:112-144 | every continuing pass, forks and absorbed tokens included, lowers remaining budget times weight plus the potentials of the live tokens |
| `TokenTermination.WalkTerminates` | src/runtime/graph.cpp:112-144 | for each valid pipeline one bound limits the runs on every input and behaviour, without the step limit |
| `EdgeBudgets.EdgeLimitIff` | src/runtime/graph.cpp:128-138 | over every run, with the takings of an edge counted from the states, the next pass fails with "edge iteration limit" if and only if it selects an edge already taken as often as its budget says |
| `EdgeBudgets.WithinBudget` | src/runtime/graph.cpp:128-138 | no run takes a bounded edge more often than its budget says |
| `EdgeBudgets.ReadyLimitIff` | src/runtime/graph.cpp:139-140 | a pass fails with "ready branch limit" exactly when no budget stops it and its pushes bring the ready tokens above 256 |
| `EdgeBudgets.BranchLimitIff` | src/runtime/execution.cpp:290-301 | a branch on its own breaks off exactly when its answer does not select one edge or it has taken that edge as often as its budget says |
| `EdgeBudgets.AllowanceExact` | src/runtime/execution.cpp:167-184 | a branch ends at a join with a payload exactly when it gets there by at most the allowed executions |
| `Runs.Run.constructor` | src/runtime/graph.cpp:74-84 | a new run is the initial state |
| `Runs.Run.NextReady` | src/runtime/graph.cpp:74-84 | the in-place form equals the specification |
| `Runs.Run.PrepareJoin` | src/runtime/graph.cpp:85-111 | the in-place form equals the specification, faults included |
| `Runs.Run.PushTokens` | src/runtime/graph.cpp:126-140 | the in-place loop over the selected edges equals the specification, with the edge that exhausts its budget |
| `Runs.Run.Advance` | src/runtime/graph.cpp:112-144 | the in-place form equals the specification, all outcomes included |
| `Runs.Run.Step` | src/runtime/execution.cpp:719-968 | one pass in place equals the specification |
| `Runs.Run.Execute` | src/runtime/execution.cpp:581-1004 | the loop on a validated pipeline ends, in completion with nothing left over or in one of the harmless faults |
| `Pairing.PassCases` | src/runtime/graph.cpp:74-144 | a pass that goes on either leaves its token waiting in its group's table or executes the node and puts one token per selected edge behind the ready ones, in the fork's group or outside the closed one |
| `Pairing.UnpairedPass` | src/runtime/graph.cpp:85-123 | a pass fails with "join outside group" or "graph not converged" exactly at a join that is not the innermost frame's, or at output with frames, tokens or tables left |
| `Pairing.LabelledWalks` | src/runtime/graph.cpp:74-144 | a labelling of the nodes by stacks of open joins, consistent along every selectable edge, leaves completion and the two limits as the only ends of every run, for every input and behaviour |
| `PairingExact.OneStack` | src/runtime/graph.cpp:85-144 | in a completed run of nodes that always route the same way no node is reached with two different stacks of open joins |
| `PairingExact.CompletesIffLabelled` | src/runtime/graph.cpp:74-144 | for such nodes a run that no limit ends completes if and only if the pipeline has a labelling |
| `PairingFaults.JoinOutsideGroupPossible` | src/pipeline/parser.cpp:214-323 | a valid pipeline whose every run fails with "join outside group" |
| `PairingFaults.NotConvergedPossible` | src/pipeline/parser.cpp:214-323 | a valid pipeline whose every run fails with "graph not converged" |
| `Coordination.LeaseTable.Acquire` | src/storage/coordination.cpp:90-134 | in place, equal to the specification: a grant under the next token exactly for an active instance and a resource that is free or whose lease has expired, even for its last holder |
| `Coordination.LeaseTable.Renew` | src/storage/coordination.cpp:136-172 | in place, equal to the specification: extends and returns exactly a current lease of the caller, with the validation error apart from the lost lease |
| `Coordination.LeaseTable.Release` | src/storage/coordination.cpp:174-198 | in place, equal to the specification: expires exactly a current lease of the caller, with the validation error apart from the lost lease |
| `Holding.GrantedIff` | src/storage/coordination.cpp:90-134 | an acquisition is granted if and only if it is not waiting for the row, its arguments are valid, its instance is active and nobody holds the resource |
| `Holding.GrantHolds` | src/storage/coordination.cpp:104-124 | a grant gives the resource to its instance under the next token and changes no other holding |
| `Holding.RenewedIff` | src/storage/coordination.cpp:136-172 | a lease is renewed if and only if its holder asks under its token, and it is then still held |
| `Holding.ReleasedIff` | src/storage/coordination.cpp:174-198 | a lease is released if and only if its holder asks under its token, and then nobody holds it |
| `Holding.HeldForItsTime` | src/storage/coordination.cpp:90-172 | after a grant or renewal the instance holds the resource through every schedule shorter than the time to live in which it neither releases it nor renews it to an earlier end |
| `Holding.HeldExactly` | src/storage/coordination.cpp:90-172 | a lease left alone is held exactly while less than its time to live has passed |
| `Holding.RenewalMayShorten` | src/storage/coordination.cpp:136-172 | the renewal after which a lease ends before the time it was granted for |
| `Holding.UnheldUntilGranted` | src/storage/coordination.cpp:90-198 | a released or expired lease is held again only by a grant |
| `Holding.OpensIff` | src/storage/postgres.cpp:371-399 | an owned transaction opens exactly for the holder of the resource under its token |
| `Holding.WrittenByHolders` | src/storage/postgres.cpp:371-399 | in every schedule every accepted write was begun by the holder of its resource under its token |
| `Holding.EndsOnce` | src/storage/postgres.cpp:371-399 | a transaction ends with one write of its own or none and frees its row |
| `Fencing.RunKeeps` | src/storage/postgres.cpp:371-399 | in every schedule open owned transactions match their lease row and no accepted write outruns the row's token |
| `Fencing.WritesOrdered` | src/storage/postgres.cpp:371-399 | accepted writes of one resource have non-decreasing tokens in every schedule |
| `Fencing.NoStaleWriteAfterTakeover` | src/storage/postgres.cpp:371-399 | after a takeover no write under an older token is accepted |
| `Fencing.TokensNeverRepeat` | src/storage/coordination.cpp:90-134 | of two grants of a resource the later one has the larger token |
| `Fencing.DrainShrinks` | src/storage/coordination.cpp:90-198 | while an instance is not active, the set of leases it holds only shrinks |
| `Fencing.DrainStops` | src/storage/coordination.cpp:94-103 | once an instance has left ACTIVE, no acquisition of its is granted and its leases are among those it held, under every schedule that does not make it active again |
| `NodeWorkSafety.StepKeeps` | src/runtime/runtime.cpp:1100-1256 | claims, results, requeues, crashes, takeovers and cancellations, with check and write as separate steps, keep records, branches, claims and pending writes consistent |
| `NodeWorkSafety.RunKeeps` | src/runtime/runtime.cpp:1100-1256 | so does every schedule of them |
| `NodeWorkSafety.GroupFixed` | src/runtime/execution.cpp:493-523 | a record never changes its group, its index, its join or where its branch starts |
| `NodeWorkSafety.CompletionProvenance` | src/runtime/execution.cpp:388-422 | a completed record carries the attempt and the token of the claim whose execution produced its result, and the result is what its branch brings to its first join |
| `NodeWorkSafety.BranchesForever` | src/runtime/execution.cpp:493-523 | the records of a fork are exactly one per branch, with the branch's index and start, at every later moment |
| `WorkRecords.RowsExact` | src/runtime/runtime.cpp:1100-1256 | in every schedule records, pending writes and cancellations carry exactly the claim, result and error fields their state calls for |
| `WorkRecords.ClaimCheckIff` | src/runtime/runtime.cpp:1174-1185 | a claim gets past its check if and only if its process holds the lease and the record is not over; it then counts one more attempt under a new name |
| `WorkRecords.ResultCheckIff` | src/runtime/execution.cpp:388-422 | a result gets past its check if and only if its process holds the lease and the record is not over; the process is done if the very result is there, and unwinds otherwise |
| `WorkRecords.CloseCheckIff` | src/runtime/execution.cpp:423-461 | a requeue or cancellation by the holder gets past its check exactly while the record is not over, a failure exactly while it is running |
| `WorkRecords.ReadForClaimIff` | src/runtime/runtime.cpp:1149-1156 | a lease holder goes on to claim exactly a record that is not over |
| `WorkRecords.CancelIff` | src/runtime/runtime.cpp:1444-1464 | a cancellation takes up exactly queued work and gets past its check exactly while the record is not over |
| `WorkRecords.FreshAttempt` | src/runtime/runtime.cpp:1174-1185 | in every schedule a claim is named by an attempt id that no record and no pending write has |
| `Reconciliation.SortByIndex` | src/runtime/runtime.cpp:575-585 | the rows come out sorted by branch index, as a permutation |
| `Reconciliation.Reconcile` | src/runtime/runtime.cpp:564-618 | on every reachable table, in whatever order rows are listed, it joins exactly when all branches completed, with one payload per branch in index order, and never meets a provenance mismatch |
| `RecordRaces.TerminalStaysIff` | src/storage/postgres.cpp:119-137 | a terminal record never changes under any schedule if and only if every pending checked write of it, fenced or not, carries the same record |
| `RecordRaces.ReadyStaysIff` | src/runtime/runtime.cpp:549-563 | a ready fork stays ready under every schedule if and only if no claim or requeue of one of its branches has passed its check |
| `RecordRaces.TerminalForever` | src/storage/postgres.cpp:119-137 | in every schedule in which no cancellation writes, a terminal record never changes |
| `RecordRaces.ReadyForever` | src/runtime/runtime.cpp:549-563 | a fork that gets ready before any cancellation has written stays ready, whatever comes later |
| `RecordRaces.CancelledWorkRevived` | src/runtime/runtime.cpp:1444-1464 | the schedule in which a claim revives a cancelled work: the fork is ready, and then it is not |
| `Branches.DeliversOnce` | src/runtime/execution.cpp:139-347 | what a branch brings to its first join, and which join that is, is unique |
| `Branches.RunBranch` | src/runtime/execution.cpp:139-347 | the branch loop with its own counters that ends at a join ends at its first join with its delivery |
| `Joins.SequentialJoin` | src/runtime/graph.cpp:93-105 | over the whole walk of a top-level fork with plain, separated branches the joined payload is the array of the branches' deliveries |
| `ConcurrentBranches.RunKeeps` | src/runtime/execution.cpp:524-555 | under every interleaving of the branch coroutines each filled slot holds the delivery of the branch whose frame names it, and the count of ended branches is right |
| `ConcurrentBranches.ConcurrentJoin` | src/runtime/execution.cpp:524-555 | every interleaving that ends without failure fills every slot with its branch's delivery |
| `ConcurrentBranches.Collect` | src/runtime/execution.cpp:544-551 | packs the slots in order, with "output missing" exactly when one is empty |
| `BranchLimits.SucceedsIffFits` | src/runtime/execution.cpp:179-184 | with branches that reach a join after known numbers of executions, an interleaving in which all have ended succeeded if and only if their sum fits under the shared step limit, and has then counted it exactly |
| `BranchLimits.StopsAfterFailure` | src/runtime/execution.cpp:328-346 | once a branch has failed no branch executes another node |
| `JoinAgreement.DistributedJoin` | src/runtime/runtime.cpp:564-618 | under every schedule of claims, crashes, takeovers and cancellations the payloads of a fork whose branches all completed are the branches' deliveries in index order |
| `JoinAgreement.JoinsAgree` | src/runtime/execution.cpp:488-555 | from one fork state with plain, separated branches, the walk, every interleaving of coroutines and every schedule of distributed work that complete join the same array |
| `VisitCounts.JoinsDiffer` | src/runtime/execution.cpp:195-197 | a valid pipeline with a visit-counting node on both branches: the walk joins visits one and two, the branches on their own deliver two first visits |
| `VisitCounts.ConcurrentOnes` | src/runtime/execution.cpp:524-555 | there every interleaving of coroutines joins two first visits |
| `VisitCounts.DistributedOnes` | src/runtime/runtime.cpp:564-618 | and so does every schedule of distributed work |
| `SessionStore.SessionRows.constructor` | src/application/service.cpp:721-730 | a new session is open and empty |
| `SessionStore.SessionRows.AppendEvent` | src/storage/postgres.cpp:1006-1024 | an event takes the session's next sequence number |
| `SessionStore.SessionRows.Submit` | src/storage/postgres.cpp:469-537 | in place, equal to the specification: duplicate, conflict and acceptance |
| `SessionStore.SessionRows.ClaimNext` | src/storage/postgres.cpp:539-646 | in place, equal to the specification: reclaim of the active turn, or the first queued one |
| `SessionStore.SessionRows.BindRun` | src/storage/postgres.cpp:648-775 | in place, equal to the specification, with the snapshot of generation and continuations |
| `SessionStore.SessionRows.StageCandidates` | src/runtime/execution.cpp:940-955 | in place, equal to the specification |
| `SessionStore.SessionRows.CommitRun` | src/storage/postgres.cpp:867-986 | in place, equal to the specification: outcome, promotion on success only, closing of a closing session |
| `SessionStore.SessionRows.Close` | src/storage/postgres.cpp:988-1097 | in place, equal to the specification, with the loop over the waiting turns |
| `SessionStore.SessionRows.CreateGeneration` | src/storage/postgres.cpp:777-865 | in place, equal to the specification, with the loop over the history |
| `SessionSafety.SubmitKeeps` | src/storage/postgres.cpp:469-537 | submitting keeps the session invariant and takes nothing back |
| `SessionSafety.ClaimKeeps` | src/storage/postgres.cpp:539-646 | claiming keeps the session invariant and takes nothing back |
| `SessionSafety.ClaimTarget` | src/storage/postgres.cpp:566-610 | only the first unfinished turn is ever claimed |
| `SessionSafety.BindKeeps` | src/storage/postgres.cpp:648-775 | binding keeps the session invariant and takes nothing back |
| `SessionSafety.CommitKeeps` | src/storage/postgres.cpp:867-986 | ending a run keeps the session invariant and takes nothing back |
| `SessionSafety.CloseKeeps` | src/storage/postgres.cpp:988-1097 | closing keeps the session invariant and takes nothing back |
| `SessionSafety.GenerateKeeps` | src/storage/postgres.cpp:777-865 | adding a generation keeps the session invariant and takes nothing back |
| `SessionSafety.StepKeeps` | src/storage/postgres.cpp:469-1097 | hence every operation does |
| `SessionSafety.RunKeeps` | src/storage/postgres.cpp:469-1097 | in every reachable session: turns are numbered 1..n; states are terminal* active? queued* while open, terminal* running cancelled* while closing, all terminal when closed; each turn's events are exactly those its row calls for, in order; generations are chained over finished turns; continuations are those of succeeded turns |
| `SessionSafety.CommittedForever` | src/storage/postgres.cpp:469-1097 | terminal turns, bindings, snapshots, events and generations never change, and a session only moves from open over closing to closed |
| `SessionClaims.SubmitIff` | src/storage/postgres.cpp:469-537 | over every history an input is accepted exactly under a new id in an open session, unchanged exactly when it repeats the one accepted first, and otherwise a conflict without effect |
| `SessionClaims.ClaimIff` | src/storage/postgres.cpp:539-646 | over every history a claim returns a turn exactly when the caller is named, its lease current, the session open and the next unfinished turn queued, or claimed and free to take by the history's last claim |
| `SessionClaims.ClaimAgain` | src/storage/postgres.cpp:566-600 | repeating a claim changes nothing and returns the same turn |
| `SessionClaims.TakeoverFenced` | src/storage/postgres.cpp:566-600 | a lease takes over a claimed turn only with a larger fence than the claim it replaces |
| `SessionClaims.BindIff` | src/storage/postgres.cpp:648-775 | over every history a bind starts its run exactly when the session is open, the turn claimed, the last claim of it the caller's under the fence it presents, and the run new |
| `SessionClaims.BoundByItsClaimer` | src/storage/postgres.cpp:682-694 | a bind that took effect follows a claim by the same owner that returned the turn under the presented fence, with no claim of the turn in between |
| `SessionClaims.CommitIff` | src/storage/postgres.cpp:867-986 | over every history a terminal checkpoint takes effect exactly when its owner is current and its run is the one the turn runs under, and then ends turn, run and closing together |
| `SessionClaims.CloseIff` | src/storage/postgres.cpp:988-1097 | closing an open session leaves it closing exactly while a run is under way, closed otherwise, with every other turn over and the running one asked to stop |
| `SessionClaims.GenerateIff` | src/storage/postgres.cpp:777-865 | over every history a generation is added exactly when the caller has seen the latest, key and id are new and it covers finished turns only, no fewer than before |
| `SessionClaims.GenerateAgain` | src/storage/postgres.cpp:777-820 | a key in use is answered with its generation exactly for the same request, else with a conflict |
| `SessionClaims.ReasonsExact` | src/storage/postgres.cpp:867-1097 | over every history a row gives the reason its end calls for and names an owner only while claimed |
| `SessionViews.FirstInFirstOut` | src/storage/postgres.cpp:539-646 | a turn is started only when all earlier ones are over, and no two turns share a run |
| `SessionViews.TerminalEventLast` | src/storage/postgres.cpp:932-974 | no event of a turn follows its terminal event, and a turn starts at most once |
| `SessionViews.TerminalEventExact` | src/storage/postgres.cpp:932-974 | the last event of a turn is terminal exactly when the row is, and says the same outcome and run |
| `SessionViews.ClosedEventLast` | src/storage/postgres.cpp:1006-1085 | the log is numbered without gaps up to the next sequence, and session.closed is its last event exactly when the session is closed |
| `SessionViews.NeverAhead` | src/storage/postgres.cpp:719-739 | no generation reaches an unfinished turn, so "generation is ahead of this turn" is unreachable |
| `SessionViews.LoadContext` | src/runtime/execution.cpp:600-645 | a bound run gets the generation of its snapshot followed by turns b+1..k-1, or the capacity error exactly beyond 1000 of them; "incomplete" and "invalid" are unreachable |
| `SessionViews.ViewExact` | src/runtime/execution.cpp:600-645 | what that is: no generation only when bound to none, the error only beyond 1000 turns, else the bound generation and every finished turn after it and before its own |
| `SessionViews.AlwaysReadable` | src/runtime/execution.cpp:600-645 | what that relies on holds for every bound run of every reachable session |
| `SessionViews.ViewFixed` | src/runtime/execution.cpp:600-645 | the generation and tail cover only finished turns, so a run resumed at any later time sees the same |
| `SessionViews.EligibleTurns` | src/runtime/runtime.cpp:62-90 | the batched read for a reduction returns exactly the turns after the boundary |
| `SessionViews.ReductionStores` | src/runtime/runtime.cpp:132-152 | a reduction for a claimed turn can store its generation over everything before the turn |
| `SessionViews.AccumulatedLatest` | src/runtime/runtime.cpp:425-469 | what accumulates for a provider is the contribution of the latest turn that contributes, and nothing exactly when none does |
| `SessionViews.SnapshotIsLatest` | src/storage/postgres.cpp:740-755 | the continuation snapshotted for a turn is that of the latest earlier succeeded turn that staged the provider |
| `SessionViews.HandedOverIsStaged` | src/runtime/runtime.cpp:425-469 | what a run hands over is what its own checkpoints staged, and it hands over only by completing |
| `SessionViews.ReadsOwnElseLatest` | src/runtime/execution.cpp:671-687 | over every history a bound run that is not over is given what its own checkpoints staged last for the provider, else what the latest earlier turn to hand it over did, else nothing |
| `SessionViews.OthersUnseen` | src/runtime/execution.cpp:646-699 | no operation but its own checkpoints changes what a running run reads for a provider |
| `EventStream.ReadsHonest` | src/storage/postgres.cpp:1098-1126 | reads at successive moments of any history see growing parts of one log, and all of it once the session is closed |
| `EventStream.PageIsNext` | src/storage/postgres.cpp:1098-1126 | a page after a cursor is the next stretch of that log |
| `EventStream.Replay` | src/api/server.cpp:170-234 | a stream resumed at cursor c delivers c+1, c+2, ... without gap or repetition, and when it ends by closing it has delivered every later event |
| `Reducer.FitIsLongest` | src/context/reducer.cpp:40-49 | erasing from the front keeps the longest tail that fits, exactly when some non-empty tail fits |
| `Reducer.Reduce` | src/context/reducer.cpp:13-51 | a well-formed request gives that tail of previous and eligible turns or the capacity error, any other request another error |
| `Reducer.Collect` | src/context/reducer.cpp:29-38 | the append loop succeeds exactly when the sequence numbers increase |
| `Reducer.ChainExact` | src/runtime/runtime.cpp:49-135 | two stages equal reducing the full history exactly when the oldest dropped turn could not fit again |
| `Reducer.ChainShrinking` | src/runtime/runtime.cpp:49-135 | in particular whenever the budget does not grow |
| `Reducer.ChainIsOneShot` | src/runtime/runtime.cpp:49-135 | each generation of a chain with non-increasing budgets is the one-shot reduction of the history so far |
| `Reducer.GrowingBudgetForgets` | src/runtime/runtime.cpp:49-135 | for every three turns, a chain whose budget grows from one turn to all three keeps two, the one-shot reduction three |
| `Fips180.WordsAreStandard` | src/core/artifacts.cpp:66-119 | the functions and constants the digest is computed with are those of sections 4.1.2, 4.2.2 and 5.3.3 of FIPS 180-4, each by its definition |
| `Fips180.DefinitionsDecide` | src/core/artifacts.cpp:78-119 | those definitions decide: whatever meets them bit by bit on every input is the function the digest uses |
| `Fips180.RoundConstants` | src/core/artifacts.cpp:66-76 | constant t is the first 32 bits of the fractional part of the cube root of the t-th prime |
| `Fips180.InitialWords` | src/core/artifacts.cpp:25-26 | initial word t is the first 32 bits of the fractional part of the square root of the t-th prime |
| `Fips180.PrimesInOrder` | src/core/artifacts.cpp:66-76 | the primes these speak of are the primes from 2 on, with none left out |
| `Fips180.RoundsAreRecurrences` | src/core/artifacts.cpp:97-116 | the eight working variables are the last four values of two recurrences |
| `Fips180.HexRoundTrip` | src/core/artifacts.cpp:56-62 | the eight digits of a word, read back, are the word |
| `WordBits.RotRBit` | src/core/artifacts.cpp:78-80 | bit i of the rotated word is bit i + n around the end |
| `Sha256.Sha256Lawful` | src/core/artifacts.cpp:83-96 | the program's order of additions and its byte-wise words are those of section 6.2.2 of FIPS 180-4 |
| `SecureHash.HashAppend` | src/core/artifacts.cpp:28-40 | folding a concatenation of whole blocks is folding one part after the other |
| `ArtifactDigest.BuildSchedule` | src/core/artifacts.cpp:83-96 | the loops compute the message schedule |
| `ArtifactDigest.RunRounds` | src/core/artifacts.cpp:97-116 | the loop with its shifting variables computes the 64 rounds |
| `ArtifactDigest.Hasher.constructor` | src/core/artifacts.cpp:22-26 | a new hasher has been fed nothing |
| `ArtifactDigest.Hasher.Transform` | src/core/artifacts.cpp:82-119 | folds the buffer into the state |
| `ArtifactDigest.Hasher.Update` | src/core/artifacts.cpp:28-40 | extends the bytes fed by the argument, whatever is buffered |
| `ArtifactDigest.Hasher.Finish` | src/core/artifacts.cpp:42-62 | gives the digest of all bytes fed, padded per section 5.1.1 in one block or two |
| `ArtifactDigest.DigestOf` | src/core/artifacts.cpp:28-62 | however a message is cut into updates, the result is the one-shot digest |
| `DigestText.ToHex` | src/core/artifacts.cpp:57-62 | the digits of the words, most significant first |
| `DigestText.Checksum` | src/core/artifacts.cpp:22-62 | the checksum text is the hexadecimal SHA-256 of the concatenated pieces |
| `Registry.ResolveReference` | src/application/service.cpp:588-611 | resolves exactly the explicit registered references and the unambiguous names, counting the candidate beside the listed revisions, with the right error otherwise |
| `Registry.Visit` | src/application/service.cpp:616-655 | one call either finds a cycle behind the candidate or lists what it visited successors first |
| `Registry.CheckDependencies` | src/application/service.cpp:616-656 | the visit refuses exactly when a cycle can be reached, and misses a revision only in a registry that is not closed |
| `Registry.Prepare` | src/application/service.cpp:549-656 | decides a registration from its lookup and its later list as specified: existing, immutable, first unresolved reference, recursive or accepted |
| `Registry.RegistrySound` | src/application/service.cpp:569-690 | over every schedule of lookups, lists, checks and writes, overwritten revisions included, every revision depends only on keys first registered before its own, so the registry is closed and acyclic |
| `Registry.RunKeeps` | src/application/service.cpp:569-690 | every schedule only appends to the order of first registrations, and whatever may still be written respects it |
| `Registry.ImmutableIff` | src/storage/postgres.cpp:104-108 | a registered revision never changes under any schedule if and only if every registration of its key that has passed its check carries the same revision |
| `Registry.RevisionOverwritten` | src/storage/postgres.cpp:133-137 | the schedule in which the second of two overlapping registrations replaces the first |
| `Registry.SettledForever` | src/application/service.cpp:549-574 | a registered key of which no registration is under way is never registered again |
| `Registry.SameAgain` | src/storage/postgres.cpp:104-108 | a commit of the very revision that is there passes its check and changes nothing |
| `Registry.RefusedIffSelf` | src/application/service.cpp:616-656 | in a sound registry without the key exactly the candidates that refer to themselves are refused as recursive |
| `IngressCounters.EventIngress.constructor` | src/application/event_ingress.cpp:24-31 | starts accepting with no call in flight |
| `IngressCounters.EventIngress.Admit` | src/application/event_ingress.cpp:37-48 | in place, equal to the specification |
| `IngressCounters.EventIngress.Release` | src/application/event_ingress.cpp:49-60 | in place, equal to the specification, wrap-around included |
| `IngressCounters.EventIngress.BeginStop` | src/application/event_ingress.cpp:175-178 | stops admission at once and says whether there is anything to wait for |
| `Ingress.AdmitCounts` | src/application/event_ingress.cpp:37-48 | an admission adds one to the source's count and to the total within both limits, a refusal nothing |
| `Ingress.ReleaseErases` | src/application/event_ingress.cpp:49-60 | the last release of a source leaves no entry for it |
| `Ingress.AdmittedIff` | src/application/event_ingress.cpp:38-48 | under every interleaving a call enters if and only if no stop has begun and fewer calls than both limits are in flight |
| `Ingress.StopReturnsIff` | src/application/event_ingress.cpp:175-179 | a stop returns exactly once it has begun and no call is in flight |
| `Ingress.StoredIff` | src/application/event_ingress.cpp:124-147 | a submission stores its event exactly if it has no external id or its source has none stored under it, and is a duplicate otherwise |
| `Ingress.RunKeeps` | src/application/event_ingress.cpp:37-60 | under every interleaving pending is the number of admitted calls and the sum of the per-source counts, within both limits; after a stop returned nothing is in flight |
| `Ingress.StoppedForever` | src/application/event_ingress.cpp:175-179 | after a stop returned no call is admitted and no event stored |
| `Ingress.ClaimKeyInjective` | src/application/event_ingress.cpp:124-130 | distinct pairs of source and external id have distinct claim keys, whatever characters they hold |
| `Ingress.StoredOnce` | src/application/event_ingress.cpp:124-146 | at most one event is stored per source and external id |
| `Ingress.DuplicateOfOwn` | src/application/event_ingress.cpp:136-146 | a duplicate is answered with the event its own source stored under that id |

## Left out

- JoinAgreement.JoinsAgree: branches are plain (no nested fork, no join but the fork's own), because a concurrent branch ends at the first join it meets and does not follow a nested fork; separation is sufficient, and that it is needed is shown by one pipeline, not by an equivalence.
- PairingExact.CompletesIffLabelled: one routing per node; for nodes that route by visit or payload a labelling is sufficient (`Pairing.LabelledWalks`) but not necessary, because edges that are never selected or limits may hide a mismatch.
- TokenSafety.StepSafe: a pass has no step limit, policy check, approval or retry, and forks are not handed to concurrent branches.
- Runs.Run.Step: the same.
- Runs.Run.Execute: has no step limit, approvals, retries, timeouts or policy checks.
- IngressCounters.EventIngress.BeginStop: the wait for the drain is the step EndStop of `Ingress`, not part of the method.
- ArtifactDigest.Hasher.Transform: the eight state words, the schedule and the working variables are sequences that are reassigned; only the 64-byte buffer is an array.
- Registry.Prepare: records without resolved dependencies and records under a bare name, both written by older versions only, are not modelled; source text is parsed by the caller into key and references.
- SessionViews.EligibleTurns: the limit in bytes on the collected turns is not modelled.
- SessionViews.LoadContext: size limits in bytes are not modelled, nor runs bound before snapshots existed.
- SessionStore.SessionRows.CommitRun: the read of the staged continuations and the commit are one step, as under the run's lease.
- Limits on the size of JSON values, identifiers and inputs, and the exhaustion of 63-bit sequence numbers.
- Liveness and fairness of claiming, and launch guarantees of the scheduler after crashes.
- Cron expressions: a side model without bearing on the rest.
- Immutability of terminal run records across instances: some run writes are unfenced and unchecked.
- Ingress rejection counters: early returns do not count, so no conservation law holds.
- SQL, connection pools, JSON, HTTP, worker hosts, plugins, the CLI, remote artifact stores, garbage collection, metrics.
