/** Safety of the sequential walk over a validated pipeline. */
module TokenSafety {
  import opened Digraph
  import opened Pipeline
  import opened TokenMachine
  import opened TokenTree

  ghost function Tokens(r: RunState): seq<Token> {
    [Current(r)] + r.ready
  }

  lemma CurrentIsLive(p: PipelineDefinition, r: RunState, t: Tree)
    requires Inv(p, r, t)
    ensures r.frames in t && t[r.frames] == Live(r.node, r.message) && r.node in p.nodes
  {
    assert Tokens(r)[0] == Current(r);
    assert Current(r) in Tokens(r);
  }

  /** Picking the next ready token leaves exactly the ready tokens live. */
  lemma NextReadyTokens(r: RunState)
    requires r.ready != []
    ensures Tokens(NextReady(r)) == r.ready
  {
  }

  /** The join cannot find its own branch already arrived. */
  lemma NotArrivedTwice(p: PipelineDefinition, r: RunState, t: Tree)
    requires Inv(p, r, t) && r.frames != []
    ensures var frame := r.frames[|r.frames| - 1];
            var parent := r.frames[..|r.frames| - 1];
            && IsFork(t, parent) && TableOf(r.joins, t, parent) && frame.index < t[parent].width
            && r.frames == Child(parent, t[parent], frame.index)
            && frame == Frame(t[parent].group, t[parent].join, t[parent].width, frame.index)
            && frame.index !in ArrivedIn(r.joins, frame.group)
  {
    CurrentIsLive(p, r, t);
    var parent := r.frames[..|r.frames| - 1];
    assert UnderFork(t, r.frames);
    assert TableOf(r.joins, t, parent);
  }

  /** While a branch is missing, some other token is ready. */
  lemma MissingBranchIsReady(p: PipelineDefinition, r: RunState, t: Tree, parent: Position, other: nat)
    requires Inv(p, r, t) && IsFork(t, parent) && other < t[parent].width
    requires |r.frames| == |parent| + 1 && Child(parent, t[parent], other) != r.frames
    requires Child(parent, t[parent], other) in t && !t[Child(parent, t[parent], other)].Arrived?
    ensures r.ready != []
  {
    var live := LiveBelow(t, r.nextGroup, Child(parent, t[parent], other));
    assert HasToken(Tokens(r), live);
    var i :| 0 <= i < |Tokens(r)| && Tokens(r)[i].frames == live;
    assert live != r.frames;
  }

  /** What preparing a join does to the tree. */
  lemma PrepareJoinSafe(p: PipelineDefinition, r: RunState, t: Tree) returns (u: Tree)
    requires Inv(p, r, t) && r.node in p.nodes
    ensures PrepareJoin(p, r).1.Refused? ==> PrepareJoin(p, r).1.fault == JoinOutsideGroup
    ensures !PrepareJoin(p, r).1.Refused? ==> Inv(p, PrepareJoin(p, r).0, u)
  {
    CurrentIsLive(p, r, t);
    u := t;
    if p.nodes[r.node].kind.Join? && r.preparedJoin != r.node && r.frames != [] &&
       r.frames[|r.frames| - 1].join == r.node {
      NotArrivedTwice(p, r, t);
      var frame := r.frames[|r.frames| - 1];
      var parent := r.frames[..|r.frames| - 1];
      var all := ArrivedIn(r.joins, frame.group)[frame.index := r.message];
      FullTable(all, frame.width);
      if |all| == frame.width {
        u := CloseFork(t, parent, r.node, Array(Ascending(all)));
        CompleteJoinSafe(p, r, t, parent, all);
      } else {
        var other: nat :| other < frame.width && other !in all;
        u := t[r.frames := Arrived(r.message)];
        WaitAtJoinSafe(p, r, t, parent, other);
      }
    }
  }

  lemma CompleteJoinSafe(p: PipelineDefinition, r: RunState, t: Tree, parent: Position, all: map<nat, Value>)
    requires Inv(p, r, t) && r.frames != [] && parent == r.frames[..|r.frames| - 1]
    requires var frame := r.frames[|r.frames| - 1];
             && all == ArrivedIn(r.joins, frame.group)[frame.index := r.message]
             && forall i :: 0 <= i < frame.width ==> i in all
    ensures var frame := r.frames[|r.frames| - 1];
            var message := Array(Ascending(all));
            Inv(p, r.(message := message, frames := parent, joins := r.joins - {frame.group},
                      preparedJoin := r.node), CloseFork(t, parent, r.node, message))
  {
    CurrentIsLive(p, r, t);
    NotArrivedTwice(p, r, t);
    var message := Array(Ascending(all));
    forall i: nat | i < t[parent].width
      ensures !t[Child(parent, t[parent], i)].Fork?
      ensures Child(parent, t[parent], i) != r.frames ==> t[Child(parent, t[parent], i)].Arrived?
    {
      assert i in all;
    }
    CloseShape(t, r.nextGroup, parent, r.node, message);
    CloseJoins(t, r.nextGroup, r.joins, parent, r.node, message);
    CloseFaithful(t, r.nextGroup, Current(r), r.ready, r.node, message);
  }

  lemma WaitAtJoinSafe(p: PipelineDefinition, r: RunState, t: Tree, parent: Position, other: nat)
    requires Inv(p, r, t) && r.frames != [] && parent == r.frames[..|r.frames| - 1]
    requires var frame := r.frames[|r.frames| - 1];
             other < frame.width && other != frame.index && other !in ArrivedIn(r.joins, frame.group)
    ensures r.ready != []
    ensures var frame := r.frames[|r.frames| - 1];
            var waiting := r.(joins := r.joins[frame.group :=
                                ArrivedIn(r.joins, frame.group)[frame.index := r.message]]);
            Inv(p, NextReady(waiting), t[r.frames := Arrived(r.message)])
  {
    CurrentIsLive(p, r, t);
    NotArrivedTwice(p, r, t);
    var frame := r.frames[|r.frames| - 1];
    var u := t[r.frames := Arrived(r.message)];
    ChildrenDiffer(parent, t[parent], other, frame.index);
    assert Child(parent, t[parent], other) in t;
    MissingBranchIsReady(p, r, t, parent, other);
    AbsorbShape(t, r.nextGroup, r.frames, r.message, other);
    AbsorbJoins(t, r.nextGroup, r.joins, r.frames, r.message);
    DropFaithful(Current(r), r.ready, t, u);
    var waiting := r.(joins := r.joins[frame.group := ArrivedIn(r.joins, frame.group)[frame.index := r.message]]);
    NextReadyTokens(waiting);
  }

  // ---- Advancing ----

  function Targets(out: seq<EdgeDefinition>): seq<string> {
    seq(|out|, i requires 0 <= i < |out| => out[i].to)
  }

  /** The tokens pushed for the selected edges from position i on. */
  function Pushed(p: PipelineDefinition, r: RunState, out: seq<EdgeDefinition>, i: nat): seq<Token>
    requires r.node in p.nodes && i <= |out|
    decreases |out| - i
  {
    if i == |out| then [] else
    var n := p.nodes[r.node];
    var frames := if n.kind.Parallel? then r.frames + [Frame(r.nextGroup, n.join, |out|, i)] else r.frames;
    [Token(out[i].to, r.message, frames)] + Pushed(p, r, out, i + 1)
  }

  /** A push either exhausts an edge budget or appends exactly one token per edge. */
  lemma {:induction false} PushResult(p: PipelineDefinition, r: RunState, out: seq<EdgeDefinition>, i: nat)
    requires r.node in p.nodes && i <= |out|
    ensures var (pushed, o) := PushTokens(p, r, out, i);
            && (o.Running? || o == Failed(EdgeLimit))
            && (o.Running? ==>
                  pushed == r.(edgeVisits := pushed.edgeVisits, ready := r.ready + Pushed(p, r, out, i)))
    decreases |out| - i
  {
    if i < |out| {
      var e := out[i];
      var visits := if e.maxIterations == 0 then r.edgeVisits
                    else r.edgeVisits[EdgeKey(e) := Count(r.edgeVisits, EdgeKey(e)) + 1];
      var n := p.nodes[r.node];
      var frames := if n.kind.Parallel? then r.frames + [Frame(r.nextGroup, n.join, |out|, i)] else r.frames;
      var token := Token(e.to, r.message, frames);
      var next := r.(edgeVisits := visits, ready := r.ready + [token]);
      PushResult(p, next, out, i + 1);
      PushedSame(p, r, next, out, i + 1);
      assert r.ready + [token] + Pushed(p, r, out, i + 1) == r.ready + ([token] + Pushed(p, r, out, i + 1));
    }
  }

  lemma PushedSame(p: PipelineDefinition, r: RunState, s: RunState, out: seq<EdgeDefinition>, i: nat)
    requires r.node in p.nodes && i <= |out|
    requires s == r.(edgeVisits := s.edgeVisits, ready := s.ready)
    ensures Pushed(p, r, out, i) == Pushed(p, s, out, i)
    decreases |out| - i
  {
  }

  lemma {:induction false} PushedIsFork(p: PipelineDefinition, r: RunState, out: seq<EdgeDefinition>, i: nat)
    requires r.node in p.nodes && i <= |out| && p.nodes[r.node].kind.Parallel?
    ensures var fork := Fork(r.nextGroup, p.nodes[r.node].join, |out|);
            Pushed(p, r, out, i) == ForkTokens(r.frames, fork, Targets(out), r.message)[i..]
    decreases |out| - i
  {
    var fork := Fork(r.nextGroup, p.nodes[r.node].join, |out|);
    var all := ForkTokens(r.frames, fork, Targets(out), r.message);
    if i < |out| {
      PushedIsFork(p, r, out, i + 1);
      assert all[i..] == [all[i]] + all[i + 1..];
    }
  }

  /** The selected edges lead to nodes of the pipeline. */
  lemma TargetsKnown(p: PipelineDefinition, id: string, result: Label, i: nat)
    requires (forall e :: e in p.edges ==> EdgeOk(p, e)) && i < |Matching(p.edges, id, result)|
    ensures Matching(p.edges, id, result)[i].to in p.nodes
  {
    MatchingMembers(p.edges, id, result);
    assert Matching(p.edges, id, result)[i] in Matching(p.edges, id, result);
  }

  /** A token of an ordinary node moves along the one edge its result selects. */
  lemma MoveSafe(p: PipelineDefinition, r: RunState, t: Tree, ran: RunState, to: string, after: RunState)
    returns (u: Tree)
    requires Inv(p, r, t) && to in p.nodes
    requires ran.frames == r.frames && ran.ready == r.ready && ran.joins == r.joins
    requires after.ready == r.ready + [Token(to, ran.message, r.frames)]
    requires after.joins == r.joins && after.nextGroup == r.nextGroup + 1
    ensures Inv(p, NextReady(after), u)
  {
    CurrentIsLive(p, r, t);
    var next := Token(to, ran.message, r.frames);
    u := t[r.frames := Live(to, ran.message)];
    MoveToken(t, r.nextGroup, r.joins, r.frames, to, ran.message);
    MoveFaithful(Current(r), r.ready, t, next);
    NextReadyTokens(after);
    assert Shape(u, r.nextGroup + 1);
  }

  /** A parallel node's token becomes an open fork with one live branch per edge. */
  lemma ForkSafe(p: PipelineDefinition, r: RunState, t: Tree, message: Value, join: string,
                 targets: seq<string>, after: RunState) returns (u: Tree)
    requires Inv(p, r, t) && |targets| > 0 && forall i :: 0 <= i < |targets| ==> targets[i] in p.nodes
    requires after.ready == r.ready + ForkTokens(r.frames, Fork(r.nextGroup, join, |targets|), targets, message)
    requires after.joins == r.joins && after.nextGroup == r.nextGroup + 1
    ensures Inv(p, NextReady(after), u)
  {
    CurrentIsLive(p, r, t);
    var fork := Fork(r.nextGroup, join, |targets|);
    u := OpenFork(t, r.frames, fork, targets, message);
    ForkShape(t, r.nextGroup, r.frames, fork, targets, message);
    ForkJoins(t, r.nextGroup, r.joins, r.frames, fork, targets, message);
    ForkFaithful(t, r.nextGroup, Current(r), r.ready, fork, targets, message);
    OpenForkOccupants(t, r.nextGroup, r.frames, fork, targets, message);
    forall pos | pos in u && u[pos].Live? ensures u[pos].node in p.nodes {
      if pos !in t {
        assert pos in Branches(r.frames, fork);
      }
    }
    NextReadyTokens(after);
  }

  ghost predicate Harmless(f: Fault) {
    f.JoinOutsideGroup? || f.NotConverged? || f.EdgeLimit? || f.ReadyLimit?
  }

  /** The state an advancing run reaches by its pushes, before any token is taken. */
  function AfterPush(p: PipelineDefinition, ran: RunState, result: Label): RunState
    requires ran.node in p.nodes
  {
    PushTokens(p, ran, Matching(p.edges, ran.node, result), 0).0.(nextGroup := ran.nextGroup + 1)
  }

  /** Advancing from a validated node either ends the run, exhausts a limit, or pushes the selected edges. */
  lemma AdvanceCases(p: PipelineDefinition, ran: RunState, result: Label)
    requires ran.node in p.nodes
    requires p.nodes[ran.node].kind.Output? <==> ran.node == OUTPUT
    requires ran.node != OUTPUT ==> FanOutOk(p.nodes[ran.node].kind, Outgoing(p.edges, ran.node))
    requires Declared(p.nodes[ran.node].kind, result)
    ensures var (next, o) := Advance(p, ran, result);
            && (o.Failed? ==> Harmless(o.fault))
            && (o.Completed? ==> ran.node == OUTPUT && next == ran && ran.frames == [] && ran.ready == [] &&
                                 ran.joins == map[])
            && (o.Running? ==> Pushes(p, ran, result, next))
  {
    if !p.nodes[ran.node].kind.Output? {
      RoutedCases(p, ran, result);
    }
  }

  /** The selected edges were pushed, and outside a fork the next token was taken. */
  ghost predicate Pushes(p: PipelineDefinition, ran: RunState, result: Label, next: RunState)
    requires ran.node in p.nodes
  {
    var parallel := p.nodes[ran.node].kind.Parallel?;
    var out := Matching(p.edges, ran.node, result);
    var after := AfterPush(p, ran, result);
    && next == (if parallel then after else NextReady(after))
    && |out| > 0 && (!parallel ==> |out| == 1)
    && after == ran.(edgeVisits := after.edgeVisits, nextGroup := ran.nextGroup + 1,
                     ready := ran.ready + Pushed(p, ran, out, 0))
  }

  lemma RoutedCases(p: PipelineDefinition, ran: RunState, result: Label)
    requires ran.node in p.nodes && ran.node != OUTPUT && !p.nodes[ran.node].kind.Output?
    requires FanOutOk(p.nodes[ran.node].kind, Outgoing(p.edges, ran.node))
    requires Declared(p.nodes[ran.node].kind, result)
    ensures var (next, o) := Advance(p, ran, result);
            && !o.Completed?
            && (o.Failed? ==> Harmless(o.fault))
            && (o.Running? ==> Pushes(p, ran, result, next))
  {
    RoutingDetermined(p, ran.node, result);
    PushResult(p, ran, Matching(p.edges, ran.node, result), 0);
  }

  /** A push by a validated node keeps the nesting invariant once the next token is taken. */
  lemma PushSafe(p: PipelineDefinition, r: RunState, t: Tree, ran: RunState, result: Label, after: RunState)
    returns (u: Tree)
    requires (forall e :: e in p.edges ==> EdgeOk(p, e)) && Inv(p, r, t) && r.node in p.nodes
    requires ran == r.(message := ran.message, nodeVisits := ran.nodeVisits)
    requires var out := Matching(p.edges, r.node, result);
             && |out| > 0 && (!p.nodes[r.node].kind.Parallel? ==> |out| == 1)
             && after == ran.(edgeVisits := after.edgeVisits, nextGroup := ran.nextGroup + 1,
                              ready := ran.ready + Pushed(p, ran, out, 0))
    ensures Inv(p, NextReady(after), u)
  {
    var out := Matching(p.edges, r.node, result);
    forall i | 0 <= i < |out| ensures out[i].to in p.nodes {
      TargetsKnown(p, r.node, result, i);
    }
    if p.nodes[r.node].kind.Parallel? {
      PushedIsFork(p, ran, out, 0);
      u := ForkSafe(p, r, t, ran.message, p.nodes[r.node].join, Targets(out), after);
    } else {
      assert Pushed(p, ran, out, 0) == [Token(out[0].to, ran.message, r.frames)];
      u := MoveSafe(p, r, t, ran, out[0].to, after);
    }
  }

  lemma NodeFacts(p: PipelineDefinition, extensions: set<string>, referenceOk: string -> bool, id: string)
    requires LocallyOk(p, extensions, referenceOk) && id in p.nodes
    ensures p.nodes[id].kind.Output? <==> id == OUTPUT
    ensures id != OUTPUT ==> FanOutOk(p.nodes[id].kind, Outgoing(p.edges, id))
  {
    assert NodeOk(p, extensions, referenceOk, id);
  }

  /** Advancing an executed node, with the token taken after a fork. */
  lemma AdvanceSafe(p: PipelineDefinition, r: RunState, t: Tree, ran: RunState, result: Label) returns (u: Tree)
    requires (forall e :: e in p.edges ==> EdgeOk(p, e)) && Inv(p, r, t) && r.node in p.nodes
    requires ran == r.(message := ran.message, nodeVisits := ran.nodeVisits)
    requires p.nodes[ran.node].kind.Output? <==> ran.node == OUTPUT
    requires ran.node != OUTPUT ==> FanOutOk(p.nodes[ran.node].kind, Outgoing(p.edges, ran.node))
    requires Declared(p.nodes[ran.node].kind, result)
    ensures var (next, o) := Advance(p, ran, result);
            && (o.Failed? ==> Harmless(o.fault))
            && (o.Running? ==> Inv(p, if p.nodes[r.node].kind.Parallel? then NextReady(next) else next, u))
            && (o.Completed? ==> next.node == OUTPUT && next.frames == [] && next.ready == [] && next.joins == map[])
  {
    u := t;
    AdvanceCases(p, ran, result);
    if Advance(p, ran, result).1.Running? {
      u := PushSafe(p, r, t, ran, result, AfterPush(p, ran, result));
    }
  }

  lemma RunNodeSafe(p: PipelineDefinition, extensions: set<string>, referenceOk: string -> bool, b: Behaviour,
                    r: RunState, t: Tree) returns (u: Tree)
    requires LocallyOk(p, extensions, referenceOk) && Behaves(p, b) && Inv(p, r, t) && r.node in p.nodes
    ensures var (next, o) := RunNode(p, b, r);
            && (o.Failed? ==> Harmless(o.fault))
            && (o.Running? ==> Inv(p, next, u))
            && (o.Completed? ==> next.node == OUTPUT && next.frames == [] && next.ready == [] && next.joins == map[])
  {
    assert Declared(p.nodes[r.node].kind, b(r.node, Count(r.nodeVisits, r.node) + 1, r.message).1);
    NodeFacts(p, extensions, referenceOk, r.node);
    var (ran, result) := Executed(b, r);
    u := AdvanceSafe(p, r, t, ran, result);
  }

  /**
   * One pass of the walk keeps the nesting invariant. It never finds a branch arrived twice, a join
   * with missing branches, a node without a matching edge or an ambiguous route.
   */
  lemma StepSafe(p: PipelineDefinition, extensions: set<string>, referenceOk: string -> bool, b: Behaviour,
                 r: RunState, t: Tree) returns (u: Tree)
    requires LocallyOk(p, extensions, referenceOk) && Behaves(p, b) && Inv(p, r, t)
    ensures r.node in p.nodes
    ensures var (next, o) := Step(p, b, r);
            && (o.Failed? ==> Harmless(o.fault))
            && (o.Running? ==> Inv(p, next, u))
            && (o.Completed? ==> next.node == OUTPUT && next.frames == [] && next.ready == [] && next.joins == map[])
  {
    CurrentIsLive(p, r, t);
    u := PrepareJoinSafe(p, r, t);
    if PrepareJoin(p, r).1.Proceed? {
      u := RunNodeSafe(p, extensions, referenceOk, b, PrepareJoin(p, r).0, u);
    }
  }

  /** A finite run: the start state followed by passes that keep running. */
  ghost predicate Trace(p: PipelineDefinition, b: Behaviour, message: Value, s: seq<RunState>) {
    && |s| > 0 && s[0] == Initial(message)
    && forall i, j {:trigger Continues(p, b, s[i], s[j])} ::
         0 <= i && j == i + 1 && j < |s| ==> Continues(p, b, s[i], s[j])
  }

  ghost predicate Continues(p: PipelineDefinition, b: Behaviour, r: RunState, next: RunState) {
    r.node in p.nodes && Step(p, b, r) == (next, Running)
  }

  lemma InitialNested(p: PipelineDefinition, message: Value)
    requires INPUT in p.nodes
    ensures Inv(p, Initial(message), map[[] := Live(INPUT, message)])
  {
    var t: Tree := map[[] := Live(INPUT, message)];
    var tokens := Tokens(Initial(message));
    assert tokens == [Token(INPUT, message, [])];
    assert tokens[0].frames == [];
  }

  /** The state is the flattening of some well-formed tree. */
  ghost predicate Nested(p: PipelineDefinition, r: RunState) {
    exists t :: Inv(p, r, t)
  }

  lemma FirstNested(p: PipelineDefinition, message: Value)
    requires INPUT in p.nodes
    ensures Nested(p, Initial(message))
  {
    InitialNested(p, message);
  }

  lemma NextNested(p: PipelineDefinition, extensions: set<string>, referenceOk: string -> bool, b: Behaviour,
                   r: RunState, next: RunState)
    requires LocallyOk(p, extensions, referenceOk) && Behaves(p, b) && Nested(p, r)
    requires Continues(p, b, r, next)
    ensures Nested(p, next)
  {
    var t :| Inv(p, r, t);
    var u := StepSafe(p, extensions, referenceOk, b, r, t);
  }

  lemma {:induction false} TraceStep(p: PipelineDefinition, b: Behaviour, message: Value, s: seq<RunState>, k: nat)
    requires Trace(p, b, message, s) && 0 < k < |s|
    ensures Continues(p, b, s[k - 1], s[k])
  {
    assert Continues(p, b, s[k - 1], s[k]);
  }

  lemma {:induction false} TraceNested(p: PipelineDefinition, extensions: set<string>, referenceOk: string -> bool,
                                       b: Behaviour, message: Value, s: seq<RunState>, k: nat)
    requires LocallyOk(p, extensions, referenceOk) && Behaves(p, b) && Trace(p, b, message, s) && 0 < k < |s|
    requires Nested(p, s[k - 1])
    ensures Nested(p, s[k])
  {
    TraceStep(p, b, message, s, k);
    NextNested(p, extensions, referenceOk, b, s[k - 1], s[k]);
  }

  /** Every state of every run of a validated pipeline is well nested. */
  lemma {:induction false} WalkNested(p: PipelineDefinition, extensions: set<string>, referenceOk: string -> bool,
                                      b: Behaviour, message: Value, s: seq<RunState>, k: nat)
    requires LocallyOk(p, extensions, referenceOk) && Behaves(p, b) && Trace(p, b, message, s) && k < |s|
    ensures Nested(p, s[k])
  {
    if k == 0 {
      assert HeaderOk(p);
      FirstNested(p, message);
    } else {
      WalkNested(p, extensions, referenceOk, b, message, s, k - 1);
      TraceNested(p, extensions, referenceOk, b, message, s, k);
    }
  }

  /**
   * In a well nested state every branch of every open group is accounted for exactly once: it has
   * arrived, or one live token carries it, or it has forked into an open subgroup.
   */
  lemma BranchAccounted(p: PipelineDefinition, r: RunState, t: Tree, pos: Position, i: nat)
    requires Inv(p, r, t) && IsFork(t, pos) && i < t[pos].width
    ensures var here := Child(pos, t[pos], i);
            var arrived := i in ArrivedIn(r.joins, t[pos].group);
            var live := HasToken(Tokens(r), here);
            var forked := IsFork(t, here);
            && (arrived || live || forked)
            && !(arrived && live) && !(arrived && forked) && !(live && forked)
            && forall j, k :: 0 <= j < k < |Tokens(r)| ==>
                                !(Tokens(r)[j].frames == here && Tokens(r)[k].frames == here)
  {
    var here := Child(pos, t[pos], i);
    assert here in t && TableOf(r.joins, t, pos);
    if HasToken(Tokens(r), here) {
      var j :| 0 <= j < |Tokens(r)| && Tokens(r)[j].frames == here;
      assert Tokens(r)[j] in Tokens(r);
    }
  }

  lemma NestedStep(p: PipelineDefinition, extensions: set<string>, referenceOk: string -> bool, b: Behaviour,
                       r: RunState)
    requires LocallyOk(p, extensions, referenceOk) && Behaves(p, b) && Nested(p, r)
    ensures r.node in p.nodes
    ensures SafeOutcome(Step(p, b, r))
    ensures Step(p, b, r).1.Failed? ==> Harmless(Step(p, b, r).1.fault)
  {
    var t :| Inv(p, r, t);
    var u := StepSafe(p, extensions, referenceOk, b, r, t);
  }

  /** The pass hit none of the four structural faults, and completion leaves nothing behind. */
  ghost predicate SafeOutcome(after: (RunState, Outcome)) {
    && after.1 != Failed(ArrivedTwice) && after.1 != Failed(MissingBranches)
    && after.1 != Failed(NoMatchingEdge) && after.1 != Failed(AmbiguousRouting)
    && (after.1.Completed? ==>
          after.0.node == OUTPUT && after.0.frames == [] && after.0.ready == [] && after.0.joins == map[])
  }

  /**
   * Over every run of a validated pipeline whose nodes answer as declared, the next pass cannot fail
   * with "arrived twice", "missing branches", "no matching edge" or "ambiguous routing".
   */
  lemma WalkSafe(p: PipelineDefinition, extensions: set<string>, referenceOk: string -> bool, b: Behaviour,
                 message: Value, s: seq<RunState>)
    requires LocallyOk(p, extensions, referenceOk) && Behaves(p, b) && Trace(p, b, message, s)
    ensures s[|s| - 1].node in p.nodes
    ensures SafeOutcome(Step(p, b, s[|s| - 1]))
  {
    WalkNested(p, extensions, referenceOk, b, message, s, |s| - 1);
    NestedStep(p, extensions, referenceOk, b, s[|s| - 1]);
  }

  /** The table of a complete group, listed in ascending index order, is the branches in order. */
  lemma {:induction false} AscendingRange(m: map<nat, Value>, lo: nat, hi: nat)
    requires lo <= hi && forall i: nat :: i in m <==> lo <= i < hi
    ensures Ascending(m) == seq(hi - lo, i requires 0 <= i < hi - lo => m[lo + i])
    decreases hi - lo
  {
    if lo < hi {
      assert lo in m;
      assert Least(m.Keys) == lo;
      AscendingRange(m - {lo}, lo + 1, hi);
    } else {
      assert m == map[];
    }
  }

  lemma CompletedJoin(p: PipelineDefinition, r: RunState)
    requires r.node in p.nodes
    requires p.nodes[r.node].kind.Join? && r.preparedJoin != r.node && PrepareJoin(p, r).1.Proceed?
    ensures r.frames != []
    ensures var frame := r.frames[|r.frames| - 1];
            var all := ArrivedIn(r.joins, frame.group)[frame.index := r.message];
            |all| == frame.width && PrepareJoin(p, r).0.message == Array(Ascending(all))
  {
  }

  /** Completing a join puts branch i's payload at position i of the joined array. */
  lemma JoinInIndexOrder(p: PipelineDefinition, r: RunState, t: Tree)
    requires Inv(p, r, t) && r.node in p.nodes
    requires p.nodes[r.node].kind.Join? && r.preparedJoin != r.node && PrepareJoin(p, r).1.Proceed?
    ensures r.frames != []
    ensures var frame := r.frames[|r.frames| - 1];
            var branches := ArrivedIn(r.joins, frame.group)[frame.index := r.message];
            var joined := PrepareJoin(p, r).0.message;
            && joined.Array? && |joined.items| == frame.width
            && forall i: nat :: i < frame.width ==> i in branches && joined.items[i] == branches[i]
  {
    CompletedJoin(p, r);
    var frame := r.frames[|r.frames| - 1];
    NotArrivedTwice(p, r, t);
    var all := ArrivedIn(r.joins, frame.group)[frame.index := r.message];
    FullTable(all, frame.width);
    AscendingRange(all, 0, frame.width);
  }
}
