/**
 * Distributed branch work: claims, executions, takeovers, cancellation and recovery as one state
 * machine over the work table and the lease table. A write of a work record first checks the row
 * without locking it and then writes it, so check and write are two steps. A lease holder's
 * transaction locks its lease row in between; the cancellation locks nothing.
 */
module NodeWork {
  import opened Options
  import opened Leases
  import opened Branches
  import P = Pipeline
  import M = TokenMachine

  datatype WorkState = Queued | Running | Completed | Failed | Cancelled

  /** The pipeline and the node behaviours that a run executes. */
  datatype Program = Program(pipeline: P.PipelineDefinition, behaviour: M.Behaviour)

  /** The program of the run that a group belongs to. */
  type Programs = string -> Program

  /** The claim whose execution produced an output. */
  datatype Provenance = Provenance(work: string, attemptId: nat, token: nat)

  /** A branch output; a staged workspace manifest exposes the producer. */
  datatype Output = Output(payload: M.Value, producer: Provenance, staged: bool)

  /**
   * One branch of a fork: where it starts and which join the fork waits for. attemptId and token
   * are 0 while no claim owns the work.
   */
  datatype Work = Work(
    group: string, index: nat, start: Place, join: string, state: WorkState, attempt: nat, attemptId: nat,
    owner: string, token: nat, result: Option<Output>, error: string)

  predicate Terminal(state: WorkState) {
    state.Completed? || state.Failed? || state.Cancelled?
  }

  predicate ValidTransition(from: WorkState, to: WorkState) {
    || from == to
    || (from.Queued? && (to.Running? || to.Cancelled?))
    || (from.Running? && (to.Queued? || Terminal(to)))
  }

  /** Equal in every compared field; the index is not compared. */
  predicate Equivalent(a: Work, b: Work) {
    a.(index := b.index) == b && Terminal(a.state)
  }

  datatype Verdict = Write | Same | Reject

  /** The check of a record write: a terminal record only accepts an equivalent copy, which is not written. */
  function Judge(stored: Work, record: Work): Verdict {
    if Terminal(stored.state) then (if Equivalent(stored, record) then Same else Reject)
    else if ValidTransition(stored.state, record.state) then Write else Reject
  }

  function Resource(id: string): string {
    "node:" + id
  }

  /**
   * What the holder of a work lease is doing. Unwinding means its execution is over and only a
   * failure, cancellation or recovery write may follow.
   */
  datatype Phase =
    | Leased
    | Claiming(seen: Work)
    | Executing(work: Work)
    | Finished(attemptId: nat, output: Output)
    | Completing(attemptId: nat, output: Output, seen: Work)
    | Unwinding
    | Closing(seen: Work)

  datatype Process = Process(owner: string, phase: Phase)

  /** A lease holder's checked write; it holds the lease row lock of its work. */
  datatype Open = Open(token: nat, record: Work)

  /** A cancellation that has read a queued work and, once checked, is about to write. */
  datatype Cancellation = Cancellation(id: string, record: Work, checked: bool)

  /** Processes are named by the work and the fencing token of the lease that started them. */
  datatype System = System(
    table: Table, works: map<string, Work>, processes: map<(string, nat), Process>,
    open: map<string, Open>, cancellations: map<nat, Cancellation>, lastAttempt: nat)

  datatype Decision = Requeue | Fail(error: string, stamped: bool) | Cancel(error: string, stamped: bool)

  datatype Event =
    | Tick(elapsed: nat)
    | SetInstance(instance: string, state: InstanceState)
    | CreateGroup(group: string, ids: seq<string>, join: string, starts: seq<Place>)
    | AcquireWork(id: string, instance: string, ttl: nat)
    | RenewWork(id: string, token: nat, ttl: nat)
    | ReleaseWork(id: string, token: nat)
    | ReadForClaim(id: string, token: nat)
    | CheckClaim(id: string, token: nat)
    | Produce(id: string, token: nat, allowance: nat, staged: bool)
    | ReadBack(id: string, token: nat)
    | CheckResult(id: string, token: nat)
    | Unwind(id: string, token: nat)
    | ReadForClose(id: string, token: nat)
    | CheckClose(id: string, token: nat, decision: Decision)
    | Commit(id: string)
    | Abort(id: string)
    | Crash(id: string, token: nat)
    | CancelRead(canceller: nat, id: string)
    | CancelCheck(canceller: nat)
    | CancelWrite(canceller: nat)

  /** There is no such process, or it is inside its open transaction. */
  predicate Idle(s: System, id: string, token: nat) {
    (id, token) !in s.processes || (id in s.open && s.open[id].token == token)
  }

  /** The process may touch its lease row: no transaction of the work is open. */
  predicate Free(s: System, id: string, token: nat) {
    (id, token) in s.processes && id !in s.open
  }

  function PhaseOf(s: System, id: string, token: nat): Phase
    requires (id, token) in s.processes
  {
    s.processes[(id, token)].phase
  }

  function SetPhase(s: System, id: string, token: nat, phase: Phase): System
    requires (id, token) in s.processes
  {
    s.(processes := s.processes[(id, token) := s.processes[(id, token)].(phase := phase)])
  }

  function Drop(s: System, id: string, token: nat): System {
    s.(processes := s.processes - {(id, token)})
  }

  function Claimed(seen: Work, owner: string, token: nat, attemptId: nat): Work {
    seen.(state := Running, attempt := seen.attempt + 1, attemptId := attemptId, owner := owner, token := token)
  }

  function WithResult(seen: Work, owner: string, token: nat, output: Output): Work {
    seen.(state := Completed, result := Some(output), owner := owner, token := token, error := "")
  }

  function Closed(seen: Work, owner: string, token: nat, decision: Decision): Work {
    match decision
    case Requeue => seen.(state := Queued, error := "Worker attempt reconciled for retry",
                          owner := "", attemptId := 0, token := 0)
    case Fail(error, stamped) =>
      var failed := seen.(state := Failed, error := error);
      if stamped then failed.(owner := owner, token := token) else failed
    case Cancel(error, stamped) =>
      var cancelled := seen.(state := Cancelled, error := error);
      if stamped then cancelled.(owner := owner, token := token) else cancelled
  }

  function CancelledBy(seen: Work): Work {
    seen.(state := Cancelled, error := "Parent run cancellation requested")
  }

  function NewWork(group: string, index: nat, join: string, start: Place): Work {
    Work(group, index, start, join, Queued, 0, 0, "", 0, None, "")
  }

  /** The records a fork commits: one queued work per branch. */
  function AddGroup(works: map<string, Work>, group: string, ids: seq<string>, join: string, starts: seq<Place>)
    : map<string, Work>
    requires |ids| == |starts|
  {
    if ids == [] then works else
    var n := |ids| - 1;
    AddGroup(works, group, ids[..n], join, starts[..n])[ids[n] := NewWork(group, n, join, starts[n])]
  }

  predicate GroupUnused(works: map<string, Work>, group: string) {
    forall id :: id in works ==> works[id].group != group
  }

  /** Group names are fresh, so the branch ids built from them are new and distinct. */
  predicate CanCreate(s: System, group: string, ids: seq<string>, starts: seq<Place>) {
    && |ids| == |starts|
    && GroupUnused(s.works, group)
    && (forall i :: 0 <= i < |ids| ==> ids[i] !in s.works)
    && (forall i, j :: 0 <= i < j < |ids| ==> ids[i] != ids[j])
  }

  /**
   * The check of a lease holder's write. Under its current lease an admissible record opens the
   * transaction; otherwise the system becomes `refused`, and `done` when the record is already there.
   */
  function Check(s: System, id: string, token: nat, record: Work, done: System, refused: System): System
    requires (id, token) in s.processes
  {
    if id !in s.works || !Current(s.table, Resource(id), s.processes[(id, token)].owner, token) then refused else
    match Judge(s.works[id], record)
    case Write => s.(open := s.open[id := Open(token, record)])
    case Same => done
    case Reject => refused
  }

  /** One step. An event whose guard does not hold, or whose lease row is locked, changes nothing. */
  function Apply(f: Programs, s: System, e: Event): System {
    match e
    case Tick(elapsed) => s.(table := s.table.(now := s.table.now + elapsed))
    case SetInstance(instance, state) =>
      s.(table := Register(s.table, instance, state))
    case CreateGroup(group, ids, join, starts) =>
      if CanCreate(s, group, ids, starts) then s.(works := AddGroup(s.works, group, ids, join, starts)) else s
    case CancelRead(c, id) =>
      if id in s.works && s.works[id].state.Queued? && c !in s.cancellations
      then s.(cancellations := s.cancellations[c := Cancellation(id, CancelledBy(s.works[id]), false)]) else s
    case CancelCheck(c) => ApplyCancelCheck(s, c)
    case CancelWrite(c) => ApplyCancelWrite(s, c)
    case AcquireWork(id, instance, ttl) => if id in s.open then s else ApplyAcquire(s, id, instance, ttl)
    case RenewWork(id, token, ttl) =>
      if !Free(s, id, token) then s else
      var owner := s.processes[(id, token)].owner;
      s.(table := Renew(s.table, owner, Resource(id), Lease(owner, token, 0), ttl).0)
    case ReleaseWork(id, token) =>
      if !Free(s, id, token) then s else
      var owner := s.processes[(id, token)].owner;
      s.(table := Release(s.table, owner, Resource(id), Lease(owner, token, 0)).0)
    case Crash(id, token) => ApplyCrash(s, id, token)
    case Commit(id) => if id in s.open then ApplyCommit(s, id) else s
    case Abort(id) => if id in s.open then ApplyCrash(s, id, s.open[id].token) else s
    case ReadForClaim(id, token) =>
      if Idle(s, id, token) || !PhaseOf(s, id, token).Leased? || id !in s.works then s else
      if Terminal(s.works[id].state) then Drop(s, id, token)
      else SetPhase(s, id, token, Claiming(s.works[id]))
    case CheckClaim(id, token) =>
      if !Free(s, id, token) || !PhaseOf(s, id, token).Claiming? then s else ApplyCheckClaim(s, id, token)
    case Produce(id, token, allowance, staged) =>
      if Idle(s, id, token) || !PhaseOf(s, id, token).Executing? then s
      else ApplyProduce(f, s, id, token, allowance, staged)
    case ReadBack(id, token) =>
      if Idle(s, id, token) || !PhaseOf(s, id, token).Finished? || id !in s.works then s else
      var phase := PhaseOf(s, id, token);
      SetPhase(s, id, token, Completing(phase.attemptId, phase.output, s.works[id]))
    case CheckResult(id, token) =>
      if !Free(s, id, token) || !PhaseOf(s, id, token).Completing? then s else ApplyCheckResult(s, id, token)
    case Unwind(id, token) =>
      if Idle(s, id, token) then s else SetPhase(s, id, token, Unwinding)
    case ReadForClose(id, token) =>
      if Idle(s, id, token) || id !in s.works then s else
      if PhaseOf(s, id, token).Leased? || PhaseOf(s, id, token).Unwinding?
      then SetPhase(s, id, token, Closing(s.works[id])) else s
    case CheckClose(id, token, decision) =>
      if !Free(s, id, token) || !PhaseOf(s, id, token).Closing? then s else ApplyCheckClose(s, id, token, decision)
  }

  /** The unfenced cancellation checks the record without any lock. */
  function ApplyCancelCheck(s: System, c: nat): System {
    if c !in s.cancellations || s.cancellations[c].checked || s.cancellations[c].id !in s.works then s else
    var k := s.cancellations[c];
    match Judge(s.works[k.id], k.record)
    case Write => s.(cancellations := s.cancellations[c := k.(checked := true)])
    case _ => s.(cancellations := s.cancellations - {c})
  }

  function ApplyCancelWrite(s: System, c: nat): System {
    if c !in s.cancellations || !s.cancellations[c].checked then s else
    var k := s.cancellations[c];
    s.(works := s.works[k.id := k.record], cancellations := s.cancellations - {c})
  }

  function ApplyAcquire(s: System, id: string, instance: string, ttl: nat): System {
    if id !in s.works then s else
    var (table, grant) := Acquire(s.table, instance, Resource(id), ttl);
    if !grant.Granted? then s else
    s.(table := table, processes := s.processes[(id, grant.lease.token) := Process(instance, Leased)])
  }

  /** The process is gone and its open transaction, if any, rolled back. */
  function ApplyCrash(s: System, id: string, token: nat): System {
    Drop(s, id, token).(open := if id in s.open && s.open[id].token == token then s.open - {id} else s.open)
  }

  /** The open write becomes visible. A claim goes on to execute; any other writer is done. */
  function ApplyCommit(s: System, id: string): System
    requires id in s.open
  {
    var o := s.open[id];
    var written := s.(works := s.works[id := o.record], open := s.open - {id});
    if (id, o.token) in s.processes && PhaseOf(s, id, o.token).Claiming?
    then SetPhase(written, id, o.token, Executing(o.record))
    else Drop(written, id, o.token)
  }

  function ApplyCheckClaim(s: System, id: string, token: nat): System
    requires (id, token) in s.processes && PhaseOf(s, id, token).Claiming?
  {
    var attemptId := s.lastAttempt + 1;
    var dropped := Drop(s, id, token).(lastAttempt := attemptId);
    Check(s.(lastAttempt := attemptId), id, token,
          Claimed(PhaseOf(s, id, token).seen, s.processes[(id, token)].owner, token, attemptId), dropped, dropped)
  }

  /** The branch runs from the claimed start to its first join, or fails on the way. */
  function ApplyProduce(f: Programs, s: System, id: string, token: nat, allowance: nat, staged: bool): System
    requires (id, token) in s.processes && PhaseOf(s, id, token).Executing?
  {
    var work := PhaseOf(s, id, token).work;
    var program := f(work.group);
    match RunToJoin(program.pipeline, program.behaviour, Fresh(work.start), allowance)
    case AtJoin(_, message) =>
      SetPhase(s, id, token,
               Finished(work.attemptId, Output(message, Provenance(id, work.attemptId, token), staged)))
    case Stopped => SetPhase(s, id, token, Unwinding)
  }

  function ApplyCheckResult(s: System, id: string, token: nat): System
    requires (id, token) in s.processes && PhaseOf(s, id, token).Completing?
  {
    var phase := PhaseOf(s, id, token);
    Check(s, id, token, WithResult(phase.seen, s.processes[(id, token)].owner, token, phase.output),
          Drop(s, id, token), SetPhase(s, id, token, Unwinding))
  }

  function ApplyCheckClose(s: System, id: string, token: nat, decision: Decision): System
    requires (id, token) in s.processes && PhaseOf(s, id, token).Closing?
  {
    Check(s, id, token, Closed(PhaseOf(s, id, token).seen, s.processes[(id, token)].owner, token, decision),
          Drop(s, id, token), Drop(s, id, token))
  }

  function Start(): System {
    System(Table(0, map[], map[]), map[], map[], map[], map[], 0)
  }

  /** The state after a schedule of events. */
  function Run(f: Programs, s: System, events: seq<Event>): System {
    if events == [] then s else Apply(f, Run(f, s, events[..|events| - 1]), events[|events| - 1])
  }
}
