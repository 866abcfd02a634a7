/** Concurrent branches in one process: their steps interleave over shared outputs and a shared step counter. */
module ConcurrentBranches {
  import opened Options
  import opened Pipeline
  import opened TokenMachine
  import opened TokenTree
  import opened Branches
  import opened Joins

  datatype Coroutine = Active(branch: Branch) | Ended

  datatype ParallelState = ParallelState(
    coroutines: seq<Coroutine>, outputs: seq<Option<Value>>, steps: nat, completed: nat, failed: bool)

  /** Go runs one turn of a branch's loop; Break is a failure from outside it (policy, deadline, node error). */
  datatype Turn = Go(branch: nat) | Break(branch: nat)

  function Begin(tokens: seq<Token>, steps: nat): ParallelState {
    ParallelState(seq(|tokens|, i requires 0 <= i < |tokens| =>
                        Active(Fresh(Place(tokens[i].node, tokens[i].message)))),
             seq(|tokens|, _ => None), steps, 0, false)
  }

  function Fail(s: ParallelState, j: nat): ParallelState
    requires j < |s.coroutines|
  {
    s.(coroutines := s.coroutines[j := Ended], completed := s.completed + 1, failed := true)
  }

  /** The output slot of a branch is the index in its innermost frame. */
  function SlotOf(t: Token): nat {
    if t.frames == [] then 0 else t.frames[|t.frames| - 1].index
  }

  function Arrive(s: ParallelState, t: Token, j: nat, message: Value): ParallelState
    requires j < |s.coroutines|
  {
    var slot := SlotOf(t);
    if slot >= |s.outputs| || s.outputs[slot].Some? then Fail(s, j) else
    s.(coroutines := s.coroutines[j := Ended], outputs := s.outputs[slot := Some(message)],
       completed := s.completed + 1)
  }

  function Step(p: PipelineDefinition, b: Behaviour, maxSteps: nat, tokens: seq<Token>, s: ParallelState, turn: Turn)
    : ParallelState
    requires |tokens| == |s.coroutines|
  {
    var j := turn.branch;
    if j >= |s.coroutines| || s.coroutines[j].Ended? then s else
    if turn.Break? then Fail(s, j) else
    var branch := s.coroutines[j].branch;
    match BranchPass(p, b, branch)
    case Arrived => Arrive(s, tokens[j], j, branch.walker.message)
    case Broken => Fail(s, j)
    case Onward(next) =>
      if s.steps >= maxSteps || s.failed then Fail(s, j)
      else s.(coroutines := s.coroutines[j := Active(next)], steps := s.steps + 1)
  }

  function Run(p: PipelineDefinition, b: Behaviour, maxSteps: nat, tokens: seq<Token>, steps: nat, turns: seq<Turn>)
    : (s: ParallelState)
    ensures |s.coroutines| == |tokens|
  {
    if turns == [] then Begin(tokens, steps) else
    Step(p, b, maxSteps, tokens, Run(p, b, maxSteps, tokens, steps, turns[..|turns| - 1]), turns[|turns| - 1])
  }

  // ---- What every interleaving keeps ----

  function EndedCount(cs: seq<Coroutine>): nat {
    if cs == [] then 0 else EndedCount(cs[..|cs| - 1]) + (if cs[|cs| - 1].Ended? then 1 else 0)
  }

  lemma {:induction false} CountEnds(cs: seq<Coroutine>, j: nat)
    requires j < |cs| && cs[j].Active?
    ensures EndedCount(cs[j := Ended]) == EndedCount(cs) + 1
  {
    var n := |cs| - 1;
    if j < n {
      CountEnds(cs[..n], j);
      assert cs[j := Ended][..n] == cs[..n][j := Ended];
    } else {
      assert cs[j := Ended][..n] == cs[..n];
    }
  }

  lemma {:induction false} CountMoves(cs: seq<Coroutine>, j: nat, next: Branch)
    requires j < |cs| && cs[j].Active?
    ensures EndedCount(cs[j := Active(next)]) == EndedCount(cs)
  {
    var n := |cs| - 1;
    if j < n {
      CountMoves(cs[..n], j, next);
      assert cs[j := Active(next)][..n] == cs[..n][j := Active(next)];
    } else {
      assert cs[j := Active(next)][..n] == cs[..n];
    }
  }

  lemma {:induction false} CountAll(cs: seq<Coroutine>)
    ensures EndedCount(cs) <= |cs|
    ensures EndedCount(cs) == |cs| ==> forall j :: 0 <= j < |cs| ==> cs[j].Ended?
  {
    if cs != [] {
      CountAll(cs[..|cs| - 1]);
    }
  }

  /** Branch i starts at starts[i] and its innermost frame has index i. */
  ghost predicate InOrder(tokens: seq<Token>, starts: seq<Place>) {
    |tokens| == |starts| && forall i :: 0 <= i < |tokens| ==>
      SlotOf(tokens[i]) == i && starts[i] == Place(tokens[i].node, tokens[i].message)
  }

  ghost predicate OnItsWay(p: PipelineDefinition, b: Behaviour, start: Place, branch: Branch) {
    exists k :: Travels(p, b, Starting(start), k, branch.walker)
  }

  ghost predicate SomeDelivery(p: PipelineDefinition, b: Behaviour, start: Place, m: Value) {
    exists at :: Delivered(p, b, start, at, m)
  }

  /** An active branch is on its way with an empty slot; a filled slot holds its branch's delivery. */
  ghost predicate BranchOk(p: PipelineDefinition, b: Behaviour, starts: seq<Place>, s: ParallelState, j: nat)
    requires j < |starts| == |s.coroutines| == |s.outputs|
  {
    match s.coroutines[j]
    case Active(branch) => OnItsWay(p, b, starts[j], branch) && s.outputs[j].None?
    case Ended => s.outputs[j].None? ==> s.failed
  }

  ghost predicate OutputOk(p: PipelineDefinition, b: Behaviour, starts: seq<Place>, s: ParallelState, j: nat)
    requires j < |starts| == |s.outputs|
  {
    s.outputs[j].Some? ==> SomeDelivery(p, b, starts[j], s.outputs[j].value)
  }

  ghost predicate Inv(p: PipelineDefinition, b: Behaviour, starts: seq<Place>, s: ParallelState) {
    && |starts| == |s.coroutines| == |s.outputs|
    && (forall j {:trigger BranchOk(p, b, starts, s, j)} :: 0 <= j < |starts| ==> BranchOk(p, b, starts, s, j))
    && (forall j {:trigger OutputOk(p, b, starts, s, j)} :: 0 <= j < |starts| ==> OutputOk(p, b, starts, s, j))
    && s.completed == EndedCount(s.coroutines)
  }

  lemma {:induction false} CountNone(cs: seq<Coroutine>)
    requires forall j :: 0 <= j < |cs| ==> cs[j].Active?
    ensures EndedCount(cs) == 0
  {
    if cs != [] {
      CountNone(cs[..|cs| - 1]);
    }
  }

  lemma BeginKeeps(p: PipelineDefinition, b: Behaviour, tokens: seq<Token>, starts: seq<Place>, steps: nat)
    requires InOrder(tokens, starts)
    ensures Inv(p, b, starts, Begin(tokens, steps))
  {
    var s := Begin(tokens, steps);
    forall j {:trigger BranchOk(p, b, starts, s, j)} | 0 <= j < |starts| ensures BranchOk(p, b, starts, s, j) {
      assert Travels(p, b, Starting(starts[j]), 0, Starting(starts[j]));
    }
    CountNone(s.coroutines);
  }

  lemma FailKeeps(p: PipelineDefinition, b: Behaviour, starts: seq<Place>, s: ParallelState, j: nat)
    requires Inv(p, b, starts, s) && j < |starts| && s.coroutines[j].Active?
    ensures Inv(p, b, starts, Fail(s, j))
  {
    var u := Fail(s, j);
    forall i {:trigger BranchOk(p, b, starts, u, i)} | 0 <= i < |starts| ensures BranchOk(p, b, starts, u, i) {
      assert BranchOk(p, b, starts, s, i);
    }
    forall i {:trigger OutputOk(p, b, starts, u, i)} | 0 <= i < |starts| ensures OutputOk(p, b, starts, u, i) {
      assert OutputOk(p, b, starts, s, i);
    }
    CountEnds(s.coroutines, j);
  }

  /** The slot of an arriving branch is its own and still empty, so no branch arrives twice. */
  lemma ArriveKeeps(p: PipelineDefinition, b: Behaviour, tokens: seq<Token>, starts: seq<Place>, s: ParallelState,
                    j: nat)
    requires Inv(p, b, starts, s) && InOrder(tokens, starts) && j < |starts| && s.coroutines[j].Active?
    requires BranchPass(p, b, s.coroutines[j].branch).Arrived?
    ensures var u := Arrive(s, tokens[j], j, s.coroutines[j].branch.walker.message);
            Inv(p, b, starts, u) && u.failed == s.failed
  {
    var w := s.coroutines[j].branch.walker;
    var u := Arrive(s, tokens[j], j, w.message);
    assert BranchOk(p, b, starts, s, j);
    var k :| Travels(p, b, Starting(starts[j]), k, w);
    assert w == Walker(w.node, w.message, w.visits);
    assert Delivers(p, b, starts[j], k, w.node, w.message);
    assert Delivered(p, b, starts[j], w.node, w.message);
    forall i {:trigger BranchOk(p, b, starts, u, i)} | 0 <= i < |starts| ensures BranchOk(p, b, starts, u, i) {
      assert BranchOk(p, b, starts, s, i);
    }
    forall i {:trigger OutputOk(p, b, starts, u, i)} | 0 <= i < |starts| ensures OutputOk(p, b, starts, u, i) {
      assert OutputOk(p, b, starts, s, i);
    }
    CountEnds(s.coroutines, j);
  }

  lemma MoveKeeps(p: PipelineDefinition, b: Behaviour, starts: seq<Place>, s: ParallelState, j: nat)
    requires Inv(p, b, starts, s) && j < |starts| && s.coroutines[j].Active?
    requires BranchPass(p, b, s.coroutines[j].branch).Onward?
    ensures var next := BranchPass(p, b, s.coroutines[j].branch).branch;
            Inv(p, b, starts, s.(coroutines := s.coroutines[j := Active(next)], steps := s.steps + 1))
  {
    var branch := s.coroutines[j].branch;
    var next := BranchPass(p, b, branch).branch;
    var u := s.(coroutines := s.coroutines[j := Active(next)], steps := s.steps + 1);
    assert BranchOk(p, b, starts, s, j);
    var k :| Travels(p, b, Starting(starts[j]), k, branch.walker);
    PassRoutes(p, b, branch);
    TravelsOn(p, b, Starting(starts[j]), k, branch.walker, next.walker);
    assert OnItsWay(p, b, starts[j], next);
    forall i {:trigger BranchOk(p, b, starts, u, i)} | 0 <= i < |starts| ensures BranchOk(p, b, starts, u, i) {
      assert BranchOk(p, b, starts, s, i);
    }
    forall i {:trigger OutputOk(p, b, starts, u, i)} | 0 <= i < |starts| ensures OutputOk(p, b, starts, u, i) {
      assert OutputOk(p, b, starts, s, i);
    }
    CountMoves(s.coroutines, j, next);
  }

  lemma StepKeeps(p: PipelineDefinition, b: Behaviour, maxSteps: nat, tokens: seq<Token>, starts: seq<Place>,
                  s: ParallelState, turn: Turn)
    requires Inv(p, b, starts, s) && InOrder(tokens, starts)
    ensures Inv(p, b, starts, Step(p, b, maxSteps, tokens, s, turn))
  {
    var j := turn.branch;
    if j < |starts| && s.coroutines[j].Active? {
      FailKeeps(p, b, starts, s, j);
      if turn.Go? {
        match BranchPass(p, b, s.coroutines[j].branch)
        case Arrived => ArriveKeeps(p, b, tokens, starts, s, j);
        case Broken =>
        case Onward(next) => MoveKeeps(p, b, starts, s, j);
      }
    }
  }

  lemma {:induction false} RunKeeps(p: PipelineDefinition, b: Behaviour, maxSteps: nat, tokens: seq<Token>,
                                    starts: seq<Place>, steps: nat, turns: seq<Turn>)
    requires InOrder(tokens, starts)
    ensures Inv(p, b, starts, Run(p, b, maxSteps, tokens, steps, turns))
  {
    if turns == [] {
      BeginKeeps(p, b, tokens, starts, steps);
    } else {
      var front := turns[..|turns| - 1];
      RunKeeps(p, b, maxSteps, tokens, starts, steps, front);
      StepKeeps(p, b, maxSteps, tokens, starts, Run(p, b, maxSteps, tokens, steps, front), turns[|turns| - 1]);
    }
  }

  /** All branches have ended, none in failure. */
  predicate Succeeded(s: ParallelState) {
    s.completed == |s.outputs| && !s.failed
  }

  /** Every slot holds a value, and the values are these. */
  ghost predicate Holds(s: ParallelState, xs: seq<Value>) {
    |xs| == |s.outputs| && forall i :: 0 <= i < |xs| ==> s.outputs[i] == Some(xs[i])
  }

  /** In every interleaving that ends without failure each slot holds its branch's delivery. */
  lemma {:induction false} ConcurrentJoin(p: PipelineDefinition, b: Behaviour, maxSteps: nat, tokens: seq<Token>,
                                          starts: seq<Place>, join: string, steps: nat, turns: seq<Turn>)
    returns (xs: seq<Value>)
    requires InOrder(tokens, starts) && PlainBranches(p, b, starts, join)
    requires Succeeded(Run(p, b, maxSteps, tokens, steps, turns))
    ensures Holds(Run(p, b, maxSteps, tokens, steps, turns), xs) && JoinedArray(p, b, starts, join, xs)
  {
    var s := Run(p, b, maxSteps, tokens, steps, turns);
    RunKeeps(p, b, maxSteps, tokens, starts, steps, turns);
    CountAll(s.coroutines);
    forall i | 0 <= i < |starts| ensures s.outputs[i].Some? {
      assert BranchOk(p, b, starts, s, i);
    }
    xs := seq(|starts|, i requires 0 <= i < |starts| => s.outputs[i].value);
    forall i | 0 <= i < |xs| ensures Delivered(p, b, starts[i], join, xs[i]) {
      assert OutputOk(p, b, starts, s, i);
      var at :| Delivered(p, b, starts[i], at, s.outputs[i].value);
      AtForksJoin(p, b, starts, join, i, at, s.outputs[i].value);
    }
  }

  datatype Collected = Missing | Payload(items: seq<Value>)

  /** Packs the outputs in slot order; "output missing" exactly when some slot is empty. */
  method Collect(outputs: seq<Option<Value>>) returns (r: Collected)
    ensures r.Missing? <==> exists i :: 0 <= i < |outputs| && outputs[i].None?
    ensures r.Payload? ==> |r.items| == |outputs| && forall i :: 0 <= i < |outputs| ==> outputs[i] == Some(r.items[i])
  {
    var items: seq<Value> := [];
    for i := 0 to |outputs|
      invariant |items| == i && forall j :: 0 <= j < i ==> outputs[j] == Some(items[j])
    {
      if outputs[i].None? {
        return Missing;
      }
      items := items + [outputs[i].value];
    }
    return Payload(items);
  }
}

/** The sequential, the concurrent and the distributed execution of a fork join the same payloads. */
module JoinAgreement {
  import opened Options
  import opened Pipeline
  import opened TokenMachine
  import opened TokenTree
  import opened TokenSafety
  import opened Branches
  import opened Joins
  import C = ConcurrentBranches
  import W = NodeWork
  import N = NodeWorkSafety
  import R = Reconciliation
  import T = RecordRaces

  // ---- Distributed branches ----

  /** The events of a schedule in which the fork's records are created between the two parts. */
  function Forked(before: seq<W.Event>, group: string, ids: seq<string>, join: string, starts: seq<Place>,
                  later: seq<W.Event>): seq<W.Event>
  {
    before + [W.CreateGroup(group, ids, join, starts)] + later
  }

  lemma {:induction false} ForkedBranches(f: W.Programs, before: seq<W.Event>, group: string, ids: seq<string>,
                                          join: string, starts: seq<Place>, later: seq<W.Event>)
    requires W.CanCreate(W.Run(f, W.Start(), before), group, ids, starts) && starts != []
    ensures var s := W.Run(f, W.Start(), Forked(before, group, ids, join, starts, later));
            N.Inv(f, s) && N.BranchesOf(s.works, group, join, starts)
  {
    var e := W.CreateGroup(group, ids, join, starts);
    var events := Forked(before, group, ids, join, starts, later);
    var s := W.Run(f, W.Start(), before);
    var u := W.Run(f, W.Start(), before + [e]);
    N.Reachable(f, before);
    N.Reachable(f, before + [e]);
    N.Reachable(f, events);
    T.RunNext(f, W.Start(), before, e);
    N.CreateBranches(s, group, ids, join, starts);
    N.BranchesForever(f, u, later, group, join, starts);
    T.RunSplit(f, W.Start(), events, |before| + 1);
    assert events[..|before| + 1] == before + [e] && events[|before| + 1..] == later;
  }

  /**
   * Whatever claims, crashes, takeovers and cancellations happen, the payloads of a fork whose
   * branches all completed are the branches' deliveries, each at its own position.
   */
  lemma {:induction false} DistributedJoin(f: W.Programs, p: PipelineDefinition, b: Behaviour, before: seq<W.Event>,
                                           group: string, ids: seq<string>, join: string, starts: seq<Place>,
                                           later: seq<W.Event>, payloads: seq<Value>)
    requires W.CanCreate(W.Run(f, W.Start(), before), group, ids, starts) && starts != []
    requires f(group) == W.Program(p, b) && PlainBranches(p, b, starts, join)
    requires var s := W.Run(f, W.Start(), Forked(before, group, ids, join, starts, later));
             R.AllCompleted(s.works, group) && R.Payloads(s.works, group, payloads)
    ensures JoinedArray(p, b, starts, join, payloads)
  {
    var s := W.Run(f, W.Start(), Forked(before, group, ids, join, starts, later));
    ForkedBranches(f, before, group, ids, join, starts, later);
    JoinedWorks(f, p, b, s, group, join, starts, payloads);
  }

  lemma JoinedWorks(f: W.Programs, p: PipelineDefinition, b: Behaviour, s: W.System, group: string, join: string,
                    starts: seq<Place>, payloads: seq<Value>)
    requires N.Inv(f, s) && N.BranchesOf(s.works, group, join, starts)
    requires f(group) == W.Program(p, b) && PlainBranches(p, b, starts, join)
    requires R.AllCompleted(s.works, group) && R.Payloads(s.works, group, payloads)
    ensures JoinedArray(p, b, starts, join, payloads)
  {
    assert !N.HasBranch(s.works, group, |payloads|) && !N.HasBranch(s.works, group, |starts|);
    forall i | 0 <= i < |payloads| ensures Delivered(p, b, starts[i], join, payloads[i]) {
      assert N.HasBranch(s.works, group, i);
      var id :| id in s.works && s.works[id].group == group && s.works[id].index == i;
      assert N.ResultOk(f, id, s.works[id]);
      var at :| Delivered(p, b, s.works[id].start, at, payloads[i]);
      AtForksJoin(p, b, starts, join, i, at, payloads[i]);
    }
  }

  // ---- The three together ----

  /** A top-level fork that advances: nothing else is under way. */
  ghost predicate Forks(p: PipelineDefinition, b: Behaviour, r: RunState) {
    && r.node in p.nodes && p.nodes[r.node].kind.Parallel?
    && r.frames == [] && r.ready == [] && r.joins == map[]
    && RunNode(p, b, r).1.Running?
  }

  /** The tokens of the fork, in the order of its edges. */
  function ForkedTokens(p: PipelineDefinition, b: Behaviour, r: RunState): seq<Token>
    requires r.node in p.nodes
  {
    AfterPush(p, Executed(b, r).0, Executed(b, r).1).ready
  }

  function BranchStarts(p: PipelineDefinition, b: Behaviour, r: RunState): seq<Place> {
    var (ran, result) := Executed(b, r);
    Starts(Matching(p.edges, r.node, result), ran.message)
  }

  lemma ForkFacts(p: PipelineDefinition, extensions: set<string>, referenceOk: string -> bool, b: Behaviour,
                  r: RunState)
    requires LocallyOk(p, extensions, referenceOk) && Behaves(p, b) && Forks(p, b, r)
    requires Separated(p, b, BranchStarts(p, b, r), Executed(b, r).0.nodeVisits)
    ensures BranchStarts(p, b, r) != [] && C.InOrder(ForkedTokens(p, b, r), BranchStarts(p, b, r))
    ensures Tracked(p, b, BranchStarts(p, b, r), r.nextGroup, p.nodes[r.node].join, RunNode(p, b, r).0)
  {
    var (ran, result) := Executed(b, r);
    var out := Matching(p.edges, r.node, result);
    NodeFacts(p, extensions, referenceOk, r.node);
    assert Declared(p.nodes[r.node].kind, b(r.node, Count(r.nodeVisits, r.node) + 1, r.message).1);
    AdvanceCases(p, ran, result);
    var after := AfterPush(p, ran, result);
    assert after.ready == Pushed(p, ran, out, 0);
    ForkPushes(p, ran, out);
    ForkTracked(p, b, ran, out, after);
  }

  /**
   * From a top-level fork whose branches are plain and separated, the walk, any interleaving of
   * concurrent branches and any schedule of distributed branch work that complete all join the
   * same payload array.
   */
  lemma {:induction false} JoinsAgree(
    p: PipelineDefinition, extensions: set<string>, referenceOk: string -> bool, b: Behaviour, r: RunState,
    s: seq<RunState>, k: nat,
    maxSteps: nat, steps: nat, turns: seq<C.Turn>, concurrent: seq<Value>,
    f: W.Programs, before: seq<W.Event>, group: string, ids: seq<string>, later: seq<W.Event>, distributed: seq<Value>)
    requires LocallyOk(p, extensions, referenceOk) && Behaves(p, b) && Forks(p, b, r)
    requires PlainBranches(p, b, BranchStarts(p, b, r), p.nodes[r.node].join)
    requires Separated(p, b, BranchStarts(p, b, r), Executed(b, r).0.nodeVisits)
    requires OpenUntil(p, b, s, k) && s[0] == RunNode(p, b, r).0 && Completes(p, s[k])
    requires var c := C.Run(p, b, maxSteps, ForkedTokens(p, b, r), steps, turns);
             C.Succeeded(c) && C.Holds(c, concurrent)
    requires f(group) == W.Program(p, b)
    requires W.CanCreate(W.Run(f, W.Start(), before), group, ids, BranchStarts(p, b, r))
    requires var d := W.Run(f, W.Start(),
                            Forked(before, group, ids, p.nodes[r.node].join, BranchStarts(p, b, r), later));
             R.AllCompleted(d.works, group) && R.Payloads(d.works, group, distributed)
    ensures PrepareJoin(p, s[k]).0.message == Array(concurrent) == Array(distributed)
  {
    var starts := BranchStarts(p, b, r);
    var join := p.nodes[r.node].join;
    ForkFacts(p, extensions, referenceOk, b, r);
    SequentialJoin(p, extensions, referenceOk, b, starts, r.nextGroup, join, Executed(b, r).0.nodeVisits, s, k);
    var sequential := PrepareJoin(p, s[k]).0.message.items;
    var xs := C.ConcurrentJoin(p, b, maxSteps, ForkedTokens(p, b, r), starts, join, steps, turns);
    assert xs == concurrent;
    DistributedJoin(f, p, b, before, group, ids, join, starts, later, distributed);
    JoinedOnce(p, b, starts, join, sequential, concurrent);
    JoinedOnce(p, b, starts, join, sequential, distributed);
  }
}
