/**
 * The converse: when every node always routes the same way, a run that completes has a labelling.
 * Every token of such a run is executed, a waiting group is completed where it waits, and following
 * the selected edges to the output shows that a node is only ever reached with one stack of joins.
 */
module PairingExact {
  import opened Digraph
  import opened Pipeline
  import opened TokenMachine
  import opened TokenTree
  import opened TokenSafety
  import opened Pairing

  /** The routing result of each node, whatever its visit and its input. */
  type Routes = string -> Label

  ghost predicate RoutesBy(b: Behaviour, route: Routes) {
    forall n, visit, m :: b(n, visit, m).1 == route(n)
  }

  ghost predicate Passes(p: PipelineDefinition, route: Routes, r: RunState, next: RunState) {
    Waits(p, r, next) || Moved(p, r, next, route(r.node))
  }

  ghost predicate Moved(p: PipelineDefinition, r: RunState, next: RunState, result: Label) {
    exists pushed :: Moves(p, r, next, result, pushed)
  }

  ghost predicate Emptied(r: RunState) {
    r.node == OUTPUT && r.frames == [] && r.ready == [] && r.joins == map[]
  }

  ghost predicate AllNested(p: PipelineDefinition, s: seq<RunState>) {
    forall i {:trigger Nested(p, s[i])} :: 0 <= i < |s| ==> Nested(p, s[i])
  }

  ghost predicate AllPass(p: PipelineDefinition, route: Routes, s: seq<RunState>) {
    forall i, j {:trigger Passes(p, route, s[i], s[j])} ::
      0 <= i && j == i + 1 && j < |s| ==> Passes(p, route, s[i], s[j])
  }

  /** A run seen as passes between well nested states, from the input to a completed output. */
  ghost predicate Flow(p: PipelineDefinition, route: Routes, s: seq<RunState>) {
    && |s| > 0 && s[0].node == INPUT && s[0].frames == []
    && AllNested(p, s) && AllPass(p, route, s)
    && Emptied(s[|s| - 1]) && OUTPUT in p.nodes && p.nodes[OUTPUT].kind.Output?
  }

  function Stack(r: RunState): seq<string> {
    JoinsOf(r.frames)
  }

  /** What is behind the active token moves up by one place. */
  lemma QueueAdvances(p: PipelineDefinition, route: Routes, r: RunState, next: RunState)
    requires Passes(p, route, r, next)
    ensures r.ready <= Tokens(next)
  {
  }

  /** Every token of a completed run becomes the active one. */
  lemma {:induction false} Surfaces(p: PipelineDefinition, route: Routes, s: seq<RunState>, i: nat, q: nat)
    returns (j: nat)
    requires Flow(p, route, s) && i < |s| && q < |Tokens(s[i])|
    ensures i <= j < |s| && Current(s[j]) == Tokens(s[i])[q]
    decreases q
  {
    if q == 0 {
      j := i;
    } else {
      assert Passes(p, route, s[i], s[i + 1]);
      QueueAdvances(p, route, s[i], s[i + 1]);
      assert Tokens(s[i])[q] == s[i].ready[q - 1] == Tokens(s[i + 1])[q - 1];
      j := Surfaces(p, route, s, i + 1, q - 1);
    }
  }

  // ---- A group stays where it was opened ----

  /** Every frame of the group has the same place below it and the same join. */
  ghost predicate Home(tokens: seq<Token>, group: nat, parent: Position, join: string) {
    forall i, d {:trigger tokens[i].frames[d]} ::
      0 <= i < |tokens| && 0 <= d < |tokens[i].frames| && tokens[i].frames[d].group == group ==>
        AtHome(tokens[i].frames, d, parent, join)
  }

  ghost predicate AtHome(frames: seq<Frame>, d: nat, parent: Position, join: string)
    requires d < |frames|
  {
    frames[..d] == parent && frames[d].join == join
  }

  lemma FrameOfFork(t: Tree, n: nat, pos: Position, d: nat)
    requires Shape(t, n) && pos in t && d < |pos|
    ensures IsFork(t, pos[..d]) && t[pos[..d]].group == pos[d].group && t[pos[..d]].join == pos[d].join
  {
    PrefixIsFork(t, n, pos, d);
    var up := pos[..d + 1];
    assert up in t by {
      if d + 1 < |pos| {
        PrefixIsFork(t, n, pos, d + 1);
      } else {
        assert up == pos;
      }
    }
    assert UnderFork(t, up) && up[..d] == pos[..d] && up[d] == pos[d];
  }

  lemma HomeStarts(p: PipelineDefinition, r: RunState)
    requires Nested(p, r) && r.frames != []
    ensures var top := r.frames[|r.frames| - 1];
            top.group < r.nextGroup && Home(Tokens(r), top.group, r.frames[..|r.frames| - 1], top.join)
  {
    var t :| Inv(p, r, t);
    var last := |r.frames| - 1;
    var top := r.frames[last];
    CurrentIsLive(p, r, t);
    FrameOfFork(t, r.nextGroup, r.frames, last);
    var tokens := Tokens(r);
    forall i, d | 0 <= i < |tokens| && 0 <= d < |tokens[i].frames| && tokens[i].frames[d].group == top.group
      ensures AtHome(tokens[i].frames, d, r.frames[..last], top.join)
    {
      assert tokens[i] in tokens;
      FrameOfFork(t, r.nextGroup, tokens[i].frames, d);
      assert IsFork(t, r.frames[..last]);
    }
  }

  lemma LandsAtHome(p: PipelineDefinition, r: RunState, next: RunState, result: Label, pushed: seq<Token>, group: nat,
                    parent: Position, join: string, i: nat, d: nat)
    requires Moves(p, r, next, result, pushed) && group < r.nextGroup && Home(Tokens(r), group, parent, join)
    requires i < |pushed| && d < |pushed[i].frames| && pushed[i].frames[d].group == group
    ensures AtHome(pushed[i].frames, d, parent, join)
  {
    var out := Matching(p.edges, r.node, result);
    assert Landed(p, r.node, Left(p, r), r.nextGroup, out, pushed[i], i);
    assert Tokens(r)[0] == Current(r);
    assert pushed[i].frames[d] == r.frames[d] == Tokens(r)[0].frames[d];
    assert pushed[i].frames[..d] == r.frames[..d];
  }

  lemma HomeKept(p: PipelineDefinition, route: Routes, r: RunState, next: RunState, group: nat, parent: Position,
                 join: string)
    requires Passes(p, route, r, next) && group < r.nextGroup && Home(Tokens(r), group, parent, join)
    ensures group < next.nextGroup && Home(Tokens(next), group, parent, join)
  {
    QueueAdvances(p, route, r, next);
    var before, after := Tokens(r), Tokens(next);
    forall i, d | 0 <= i < |after| && 0 <= d < |after[i].frames| && after[i].frames[d].group == group
      ensures AtHome(after[i].frames, d, parent, join)
    {
      if i < |r.ready| {
        assert after[i] == r.ready[i] == before[i + 1];
        assert before[i + 1].frames[d].group == group;
      } else {
        var pushed :| Moves(p, r, next, route(r.node), pushed);
        LandsAtHome(p, r, next, route(r.node), pushed, group, parent, join, i - |r.ready|, d);
      }
    }
  }

  /** The pass that executes the join: the same node with the same stack. */
  ghost predicate ClosesAt(p: PipelineDefinition, route: Routes, s: seq<RunState>, l: nat, node: string,
                           stack: seq<string>)
  {
    && l + 1 < |s| && s[l].node == node && Stack(s[l]) == stack
    && Moved(p, s[l], s[l + 1], route(node))
  }

  lemma ClosingPass(p: PipelineDefinition, route: Routes, r: RunState, next: RunState, group: nat, parent: Position,
                    join: string)
    requires Passes(p, route, r, next) && Home(Tokens(r), group, parent, join)
    requires group in r.joins && group !in next.joins && (AtJoin(p, r.node) ==> r.frames != [])
    ensures r.node == join && Stack(r) == JoinsOf(parent) + [join]
    ensures Moved(p, r, next, route(r.node))
  {
    assert Tokens(r)[0] == Current(r);
    var last := |r.frames| - 1;
    assert r.frames != [] && r.frames[last].group == group && r.frames[last].join == r.node;
    assert Tokens(r)[0].frames[last].group == group;
    assert AtHome(r.frames, last, parent, join);
    assert r.frames == parent + [r.frames[last]];
  }

  /** While the group has arrivals it is not finished; at the end there are none. */
  lemma {:induction false} GroupCloses(p: PipelineDefinition, route: Routes, s: seq<RunState>, i: nat, group: nat,
                                       parent: Position, join: string) returns (l: nat)
    requires Flow(p, route, s) && i < |s| && group in s[i].joins && group < s[i].nextGroup
    requires Home(Tokens(s[i]), group, parent, join)
    ensures i <= l && ClosesAt(p, route, s, l, join, JoinsOf(parent) + [join])
    decreases |s| - i
  {
    assert Passes(p, route, s[i], s[i + 1]);
    if group in s[i + 1].joins {
      HomeKept(p, route, s[i], s[i + 1], group, parent, join);
      l := GroupCloses(p, route, s, i + 1, group, parent, join);
    } else {
      l := i;
      ClosingPass(p, route, s[i], s[i + 1], group, parent, join);
    }
  }

  /** Every pass but the last is followed by one that executes its node with the same stack. */
  lemma Executes(p: PipelineDefinition, route: Routes, s: seq<RunState>, k: nat) returns (l: nat)
    requires Flow(p, route, s) && k + 1 < |s|
    ensures k <= l && ClosesAt(p, route, s, l, s[k].node, Stack(s[k]))
  {
    assert Passes(p, route, s[k], s[k + 1]);
    if Waits(p, s[k], s[k + 1]) {
      var last := |s[k].frames| - 1;
      var top := s[k].frames[last];
      HomeStarts(p, s[k]);
      HomeKept(p, route, s[k], s[k + 1], top.group, s[k].frames[..last], top.join);
      l := GroupCloses(p, route, s, k + 1, top.group, s[k].frames[..last], top.join);
      assert s[k].frames == s[k].frames[..last] + [top];
      assert Stack(s[k]) == JoinsOf(s[k].frames[..last]) + [top.join];
    } else {
      l := k;
    }
  }

  // ---- One stack per node ----

  /** The i-th selected edge leads to a later pass with the stack the node leaves. */
  lemma Follow(p: PipelineDefinition, route: Routes, s: seq<RunState>, k: nat, i: nat) returns (j: nat)
    requires Flow(p, route, s) && k + 1 < |s| && s[k].node in p.nodes
    requires i < |Matching(p.edges, s[k].node, route(s[k].node))|
    ensures k < j < |s| && s[j].node == Matching(p.edges, s[k].node, route(s[k].node))[i].to
    ensures Stack(s[j]) == Leaving(p, s[k].node, Stack(s[k]))
  {
    var l := Executes(p, route, s, k);
    var pushed :| Moves(p, s[l], s[l + 1], route(s[k].node), pushed);
    var out := Matching(p.edges, s[k].node, route(s[k].node));
    assert Landed(p, s[l].node, Left(p, s[l]), s[l].nextGroup, out, pushed[i], i);
    LandedStack(p, s[l], out, pushed[i], i);
    assert Tokens(s[l + 1])[|s[l].ready| + i] == pushed[i];
    j := Surfaces(p, route, s, l + 1, |s[l].ready| + i);
  }

  lemma LandedStack(p: PipelineDefinition, r: RunState, out: seq<EdgeDefinition>, t: Token, i: nat)
    requires r.node in p.nodes && JoinFits(p, r) && i < |out|
    requires Landed(p, r.node, Left(p, r), r.nextGroup, out, t, i)
    ensures JoinsOf(t.frames) == Leaving(p, r.node, JoinsOf(r.frames))
  {
    LeftJoins(p, r);
  }

  /** A pass before the last is at a node that is not the output, fits its join and selects an edge. */
  lemma PassFacts(p: PipelineDefinition, route: Routes, s: seq<RunState>, k: nat)
    requires Flow(p, route, s) && k + 1 < |s|
    ensures s[k].node in p.nodes && !p.nodes[s[k].node].kind.Output? && JoinFits(p, s[k])
    ensures |Matching(p.edges, s[k].node, route(s[k].node))| > 0
  {
    assert Passes(p, route, s[k], s[k + 1]);
    var l := Executes(p, route, s, k);
  }

  lemma LeavingInjective(p: PipelineDefinition, n: string, a: seq<string>, b: seq<string>)
    requires n in p.nodes && Leaving(p, n, a) == Leaving(p, n, b)
    requires p.nodes[n].kind.Join? ==> a != [] && b != [] && a[|a| - 1] == n && b[|b| - 1] == n
    ensures a == b
  {
    if p.nodes[n].kind.Join? {
      assert a == a[..|a| - 1] + [n] && b == b[..|b| - 1] + [n];
    } else if p.nodes[n].kind.Parallel? {
      assert a == Leaving(p, n, a)[..|a|] && b == Leaving(p, n, b)[..|b|];
    }
  }

  /** In a completed run no node is reached with two different stacks. */
  lemma {:induction false} OneStack(p: PipelineDefinition, route: Routes, s: seq<RunState>, k: nat, l: nat)
    requires Flow(p, route, s) && k < |s| && l < |s| && s[k].node == s[l].node
    ensures Stack(s[k]) == Stack(s[l])
    decreases |s| - k
  {
    if k + 1 < |s| {
      PassFacts(p, route, s, k);
    }
    if l + 1 < |s| {
      PassFacts(p, route, s, l);
    }
    if k + 1 < |s| && l + 1 < |s| {
      var k' := Follow(p, route, s, k, 0);
      var l' := Follow(p, route, s, l, 0);
      OneStack(p, route, s, k', l');
      LeavingInjective(p, s[k].node, Stack(s[k]), Stack(s[l]));
    }
  }

  // ---- The labelling of a completed run ----

  ghost predicate VisitedAt(s: seq<RunState>, k: nat, n: string) {
    k < |s| && s[k].node == n
  }

  ghost function FirstVisit(s: seq<RunState>, n: string): (k: nat)
    requires exists k :: VisitedAt(s, k, n)
    ensures VisitedAt(s, k, n)
  {
    var k: nat :| VisitedAt(s, k, n);
    k
  }

  ghost predicate Visited(s: seq<RunState>, n: string) {
    exists k :: VisitedAt(s, k, n)
  }

  ghost function LabelsOf(p: PipelineDefinition, s: seq<RunState>): Labels {
    map n | n in p.nodes && Visited(s, n) :: Stack(s[FirstVisit(s, n)])
  }

  lemma LabelAt(p: PipelineDefinition, route: Routes, s: seq<RunState>, k: nat)
    requires Flow(p, route, s) && k < |s|
    ensures s[k].node in LabelsOf(p, s) && LabelsOf(p, s)[s[k].node] == Stack(s[k])
  {
    assert VisitedAt(s, k, s[k].node);
    assert Nested(p, s[k]);
    CurrentKnown(p, s[k]);
    OneStack(p, route, s, FirstVisit(s, s[k].node), k);
  }

  lemma EdgeOfRun(p: PipelineDefinition, b: Behaviour, route: Routes, s: seq<RunState>, e: EdgeDefinition)
    requires Flow(p, route, s) && RoutesBy(b, route) && Selectable(p, b, e)
    requires e.from in LabelsOf(p, s) && !p.nodes[e.from].kind.Output?
    ensures EdgeLabelled(p, LabelsOf(p, s), e)
  {
    var k := FirstVisit(s, e.from);
    var out := Matching(p.edges, e.from, route(e.from));
    assert e in out;
    var i :| 0 <= i < |out| && out[i] == e;
    var j := Follow(p, route, s, k, i);
    LabelAt(p, route, s, j);
    LabelAt(p, route, s, k);
  }

  lemma NodeOfRun(p: PipelineDefinition, route: Routes, s: seq<RunState>, n: string)
    requires Flow(p, route, s) && n in LabelsOf(p, s)
    ensures NodeLabelled(p, LabelsOf(p, s), n)
  {
    var k := FirstVisit(s, n);
    if k + 1 < |s| {
      PassFacts(p, route, s, k);
    }
  }

  lemma FlowLabelled(p: PipelineDefinition, b: Behaviour, route: Routes, s: seq<RunState>)
    requires Flow(p, route, s) && RoutesBy(b, route)
    ensures Labelled(p, b, LabelsOf(p, s))
  {
    LabelAt(p, route, s, 0);
    var labels := LabelsOf(p, s);
    forall n | n in labels ensures NodeLabelled(p, labels, n) {
      NodeOfRun(p, route, s, n);
    }
    forall e: EdgeDefinition | e.from in labels && !p.nodes[e.from].kind.Output? && Selectable(p, b, e)
      ensures EdgeLabelled(p, labels, e)
    {
      EdgeOfRun(p, b, route, s, e);
    }
  }

  // ---- Completed runs are flows ----

  lemma RoutedPass(p: PipelineDefinition, extensions: set<string>, referenceOk: string -> bool, b: Behaviour,
                   route: Routes, r: RunState, next: RunState)
    requires LocallyOk(p, extensions, referenceOk) && Behaves(p, b) && RoutesBy(b, route)
    requires Continues(p, b, r, next) && r.preparedJoin == ""
    ensures Passes(p, route, r, next) && next.preparedJoin == ""
  {
    var result, pushed := PassCases(p, extensions, referenceOk, b, r, next);
  }

  lemma {:induction false} RoutedWalk(p: PipelineDefinition, extensions: set<string>, referenceOk: string -> bool,
                                      b: Behaviour, route: Routes, message: Value, s: seq<RunState>, k: nat)
    requires LocallyOk(p, extensions, referenceOk) && Behaves(p, b) && RoutesBy(b, route)
    requires Trace(p, b, message, s) && k < |s|
    ensures s[k].preparedJoin == ""
    ensures k > 0 ==> Passes(p, route, s[k - 1], s[k])
  {
    if k > 0 {
      RoutedWalk(p, extensions, referenceOk, b, route, message, s, k - 1);
      TraceStep(p, b, message, s, k);
      RoutedPass(p, extensions, referenceOk, b, route, s[k - 1], s[k]);
    }
  }

  ghost predicate Ends(p: PipelineDefinition, b: Behaviour, r: RunState, o: Outcome) {
    r.node in p.nodes && Step(p, b, r).1 == o
  }

  lemma LastEmptied(p: PipelineDefinition, extensions: set<string>, referenceOk: string -> bool, b: Behaviour,
                    r: RunState)
    requires LocallyOk(p, extensions, referenceOk) && Behaves(p, b)
    requires r.preparedJoin == "" && Ends(p, b, r, Completed)
    ensures Emptied(r) && OUTPUT in p.nodes && p.nodes[OUTPUT].kind.Output?
  {
    LastPass(p, extensions, referenceOk, b, r);
  }

  lemma {:induction false} WalkAllNested(p: PipelineDefinition, extensions: set<string>, referenceOk: string -> bool,
                                         b: Behaviour, message: Value, s: seq<RunState>)
    requires LocallyOk(p, extensions, referenceOk) && Behaves(p, b) && Trace(p, b, message, s)
    ensures AllNested(p, s)
  {
    forall i | 0 <= i < |s| ensures Nested(p, s[i]) {
      WalkNested(p, extensions, referenceOk, b, message, s, i);
    }
  }

  lemma {:induction false} WalkAllPass(p: PipelineDefinition, extensions: set<string>, referenceOk: string -> bool,
                                       b: Behaviour, route: Routes, message: Value, s: seq<RunState>)
    requires LocallyOk(p, extensions, referenceOk) && Behaves(p, b) && RoutesBy(b, route)
    requires Trace(p, b, message, s)
    ensures AllPass(p, route, s)
  {
    forall i, j | 0 <= i && j == i + 1 && j < |s| ensures Passes(p, route, s[i], s[j]) {
      RoutedWalk(p, extensions, referenceOk, b, route, message, s, j);
    }
  }

  lemma {:induction false} CompletedFlow(p: PipelineDefinition, extensions: set<string>, referenceOk: string -> bool,
                                         b: Behaviour, route: Routes, message: Value, s: seq<RunState>)
    requires LocallyOk(p, extensions, referenceOk) && Behaves(p, b) && RoutesBy(b, route)
    requires Trace(p, b, message, s) && Ends(p, b, s[|s| - 1], Completed)
    ensures Flow(p, route, s)
  {
    WalkAllNested(p, extensions, referenceOk, b, message, s);
    WalkAllPass(p, extensions, referenceOk, b, route, message, s);
    RoutedWalk(p, extensions, referenceOk, b, route, message, s, |s| - 1);
    LastEmptied(p, extensions, referenceOk, b, s[|s| - 1]);
  }

  /** The run is over, and no limit ended it. */
  ghost predicate Decided(o: Outcome) {
    o.Completed? || (o.Failed? && !o.fault.EdgeLimit? && !o.fault.ReadyLimit?)
  }

  /**
   * When each node always routes the same way, a run of a validated pipeline that no limit cuts off
   * completes if and only if the pipeline has a labelling for that routing.
   */
  lemma CompletesIffLabelled(p: PipelineDefinition, extensions: set<string>, referenceOk: string -> bool,
                             b: Behaviour, route: Routes, message: Value, s: seq<RunState>, o: Outcome)
    requires LocallyOk(p, extensions, referenceOk) && Behaves(p, b) && RoutesBy(b, route)
    requires Trace(p, b, message, s) && Ends(p, b, s[|s| - 1], o) && Decided(o)
    ensures o.Completed? <==> exists labels :: Labelled(p, b, labels)
  {
    if o.Completed? {
      CompletedFlow(p, extensions, referenceOk, b, route, message, s);
      FlowLabelled(p, b, route, s);
    }
    if labels :| Labelled(p, b, labels) {
      LabelledWalks(p, extensions, referenceOk, b, labels, message, s);
    }
  }
}
