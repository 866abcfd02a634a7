/**
 * Iteration budgets of edges. How often an edge was taken is counted from the states of a run; a pass
 * exhausts a budget exactly when it selects an edge that was taken that often before.
 */
module EdgeBudgets {
  import opened Digraph
  import opened Pipeline
  import opened TokenMachine
  import opened TokenTree
  import opened TokenSafety
  import opened Branches
  import P = Pairing
  import T = TokenTermination

  // ---- Edges as the passes take them ----

  /** Between the two states a token for the edge's target was put behind the ready ones. */
  ghost predicate Took(r: RunState, next: RunState, e: EdgeDefinition) {
    e.from == r.node && exists i :: |r.ready| <= i < |Tokens(next)| && Tokens(next)[i].node == e.to
  }

  /** How often the run took the edge. */
  ghost function Taken(s: seq<RunState>, e: EdgeDefinition): nat {
    if |s| < 2 then 0 else
    Taken(s[..|s| - 1], e) + if Took(s[|s| - 2], s[|s| - 1], e) then 1 else 0
  }

  /** The pass executes its node, and the answer selects the edge. */
  ghost predicate Selects(p: PipelineDefinition, b: Behaviour, r: RunState, e: EdgeDefinition) {
    && r.node in p.nodes && !p.nodes[r.node].kind.Output? && PrepareJoin(p, r).1.Proceed?
    && e in Matching(p.edges, r.node, Executed(b, PrepareJoin(p, r).0).1)
  }

  predicate Full(visits: map<string, nat>, e: EdgeDefinition) {
    e.maxIterations != 0 && Count(visits, EdgeKey(e)) >= e.maxIterations
  }

  // ---- Pushing ----

  lemma {:induction false} MatchingDistinct(edges: seq<EdgeDefinition>, id: string, result: Label)
    requires T.DistinctKeys(edges)
    ensures T.DistinctKeys(Matching(edges, id, result))
  {
    if edges != [] {
      var n := |edges| - 1;
      var front := Matching(edges[..n], id, result);
      MatchingDistinct(edges[..n], id, result);
      MatchingMembers(edges[..n], id, result);
      forall i | 0 <= i < |front| ensures EdgeKey(front[i]) != EdgeKey(edges[n]) {
        assert front[i] in front && front[i] in edges[..n];
        var j :| 0 <= j < n && edges[..n][j] == front[i];
        assert edges[j] == front[i];
      }
    }
  }

  /** The state after the budget of the i-th edge was charged and its token pushed. */
  function Charged(p: PipelineDefinition, r: RunState, out: seq<EdgeDefinition>, i: nat): RunState
    requires r.node in p.nodes && i < |out|
  {
    var n := p.nodes[r.node];
    var frames := if n.kind.Parallel? then r.frames + [Frame(r.nextGroup, n.join, |out|, i)] else r.frames;
    r.(edgeVisits := T.Spent(out[i], r.edgeVisits), ready := r.ready + [Token(out[i].to, r.message, frames)])
  }

  /** Pushing stops at the first edge whose budget is used up, if there is one. */
  lemma {:induction false} PushLimit(p: PipelineDefinition, r: RunState, out: seq<EdgeDefinition>, i: nat)
    requires r.node in p.nodes && i <= |out| && T.DistinctKeys(out)
    ensures PushTokens(p, r, out, i).1 == Failed(EdgeLimit) <==>
            exists j :: i <= j < |out| && Full(r.edgeVisits, out[j])
    decreases |out| - i
  {
    if i < |out| && !Full(r.edgeVisits, out[i]) {
      var next := Charged(p, r, out, i);
      assert PushTokens(p, r, out, i) == PushTokens(p, next, out, i + 1);
      PushLimit(p, next, out, i + 1);
      forall j | i < j < |out| ensures Full(next.edgeVisits, out[j]) <==> Full(r.edgeVisits, out[j]) {
        assert EdgeKey(out[i]) != EdgeKey(out[j]);
      }
    }
  }

  /** A push that succeeds charges each selected bounded edge once and nothing else. */
  lemma {:induction false} PushCharges(p: PipelineDefinition, r: RunState, out: seq<EdgeDefinition>, i: nat,
                                       e: EdgeDefinition)
    requires r.node in p.nodes && i <= |out| && T.DistinctKeys(out) && PushTokens(p, r, out, i).1.Running?
    requires e.maxIterations != 0 && forall j :: 0 <= j < |out| && EdgeKey(out[j]) == EdgeKey(e) ==> out[j] == e
    ensures Count(PushTokens(p, r, out, i).0.edgeVisits, EdgeKey(e)) ==
            Count(r.edgeVisits, EdgeKey(e)) + if e in out[i..] then 1 else 0
    decreases |out| - i
  {
    if i < |out| {
      var next := Charged(p, r, out, i);
      assert PushTokens(p, r, out, i) == PushTokens(p, next, out, i + 1);
      PushCharges(p, next, out, i + 1, e);
      assert out[i..] == [out[i]] + out[i + 1..];
    }
  }

  // ---- One pass ----

  /** In a valid pipeline the counter key names the edge. */
  lemma KeyNamesEdge(p: PipelineDefinition, e: EdgeDefinition, f: EdgeDefinition)
    requires (forall e :: e in p.edges ==> EdgeOk(p, e)) && NoDuplicateEdges(p.edges)
    requires e in p.edges && f in p.edges && (EdgeKey(e) == EdgeKey(f) || (e.from == f.from && e.to == f.to))
    ensures e == f
  {
    if EdgeKey(e) == EdgeKey(f) {
      T.EdgeKeyInjective(e, f);
    }
    var i :| 0 <= i < |p.edges| && p.edges[i] == e;
    var j :| 0 <= j < |p.edges| && p.edges[j] == f;
    assert i == j;
  }

  ghost predicate Wired(p: PipelineDefinition) {
    (forall e :: e in p.edges ==> EdgeOk(p, e)) && NoDuplicateEdges(p.edges)
  }

  lemma OutDistinct(p: PipelineDefinition, id: string, result: Label, e: EdgeDefinition)
    requires Wired(p) && e in p.edges
    ensures var out := Matching(p.edges, id, result);
            && T.DistinctKeys(out)
            && (forall j :: 0 <= j < |out| && EdgeKey(out[j]) == EdgeKey(e) ==> out[j] == e)
            && (forall j :: 0 <= j < |out| && e.from == id && out[j].to == e.to ==> out[j] == e)
  {
    T.ValidKeysDistinct(p);
    MatchingDistinct(p.edges, id, result);
    MatchingMembers(p.edges, id, result);
    var out := Matching(p.edges, id, result);
    forall j | 0 <= j < |out| && (EdgeKey(out[j]) == EdgeKey(e) || (e.from == id && out[j].to == e.to))
      ensures out[j] == e
    {
      assert out[j] in out;
      KeyNamesEdge(p, out[j], e);
    }
  }

  /** A token for the target is behind the first n exactly when one of the pushed ones is. */
  lemma BehindReady(ready: seq<Token>, pushed: seq<Token>, tokens: seq<Token>, to: string)
    requires tokens == ready + pushed
    ensures (exists i :: |ready| <= i < |tokens| && tokens[i].node == to) <==>
            exists i :: 0 <= i < |pushed| && pushed[i].node == to
  {
    if i :| |ready| <= i < |tokens| && tokens[i].node == to {
      assert pushed[i - |ready|] == tokens[i];
    }
    if i :| 0 <= i < |pushed| && pushed[i].node == to {
      assert tokens[|ready| + i] == pushed[i];
    }
  }

  lemma MovedTargets(p: PipelineDefinition, r: RunState, next: RunState, result: Label, pushed: seq<Token>, i: nat)
    requires P.Moves(p, r, next, result, pushed) && i < |pushed|
    ensures i < |Matching(p.edges, r.node, result)| && pushed[i].node == Matching(p.edges, r.node, result)[i].to
  {
    assert P.Landed(p, r.node, P.Left(p, r), r.nextGroup, Matching(p.edges, r.node, result), pushed[i], i);
  }

  lemma TookIfSelected(p: PipelineDefinition, r: RunState, next: RunState, result: Label, pushed: seq<Token>,
                       e: EdgeDefinition)
    requires Wired(p) && e in p.edges && P.Moves(p, r, next, result, pushed)
    ensures Took(r, next, e) <==> e in Matching(p.edges, r.node, result)
  {
    var out := Matching(p.edges, r.node, result);
    assert |pushed| == |out| && Tokens(next) == r.ready + pushed;
    BehindReady(r.ready, pushed, Tokens(next), e.to);
    OutDistinct(p, r.node, result, e);
    forall i | 0 <= i < |pushed| ensures pushed[i].node == out[i].to {
      MovedTargets(p, r, next, result, pushed, i);
    }
    SelectedTargets(p, r.node, result, e, pushed);
  }

  lemma SelectedTargets(p: PipelineDefinition, id: string, result: Label, e: EdgeDefinition, pushed: seq<Token>)
    requires var out := Matching(p.edges, id, result);
             && |pushed| == |out| && (forall i :: 0 <= i < |pushed| ==> pushed[i].node == out[i].to)
             && (forall j :: 0 <= j < |out| && e.from == id && out[j].to == e.to ==> out[j] == e)
    ensures (e.from == id && exists i :: 0 <= i < |pushed| && pushed[i].node == e.to) <==>
            e in Matching(p.edges, id, result)
  {
    var out := Matching(p.edges, id, result);
    MatchingMembers(p.edges, id, result);
    if e in out {
      var i :| 0 <= i < |out| && out[i] == e;
      assert pushed[i].node == e.to;
    }
    if i :| 0 <= i < |pushed| && pushed[i].node == e.to {
      if e.from == id {
        assert out[i] == e && out[i] in out;
      }
    }
  }

  /** A pass that goes on charges exactly the bounded edges it takes. */
  lemma StepCharges(p: PipelineDefinition, extensions: set<string>, referenceOk: string -> bool, b: Behaviour,
                    r: RunState, next: RunState, e: EdgeDefinition)
    requires LocallyOk(p, extensions, referenceOk) && Behaves(p, b) && Continues(p, b, r, next)
    requires r.preparedJoin == "" && e in p.edges && e.maxIterations != 0
    ensures next.preparedJoin == ""
    ensures Count(next.edgeVisits, EdgeKey(e)) ==
            Count(r.edgeVisits, EdgeKey(e)) + if Took(r, next, e) then 1 else 0
  {
    NodeFacts(p, extensions, referenceOk, r.node);
    P.NodeNamed(p, extensions, referenceOk, r.node);
    var (prepared, j) := PrepareJoin(p, r);
    if j.Waiting? {
      P.WaitingPass(p, r);
      assert |Tokens(next)| == |r.ready|;
    } else {
      MovingCharges(p, b, r, prepared, e);
    }
  }

  lemma MovingCharges(p: PipelineDefinition, b: Behaviour, r: RunState, prepared: RunState, e: EdgeDefinition)
    requires Wired(p) && Behaves(p, b) && e in p.edges && e.maxIterations != 0
    requires r.node in p.nodes && r.node != "" && r.preparedJoin == ""
    requires PrepareJoin(p, r) == (prepared, Proceed) && RunNode(p, b, prepared).1.Running?
    requires p.nodes[r.node].kind.Output? <==> r.node == OUTPUT
    requires r.node != OUTPUT ==> FanOutOk(p.nodes[r.node].kind, Outgoing(p.edges, r.node))
    ensures var next := RunNode(p, b, prepared).0;
            && next.preparedJoin == ""
            && Count(next.edgeVisits, EdgeKey(e)) ==
               Count(r.edgeVisits, EdgeKey(e)) + if Took(r, next, e) then 1 else 0
  {
    var (ran, result) := Executed(b, prepared);
    assert Declared(p.nodes[r.node].kind, b(r.node, Count(prepared.nodeVisits, r.node) + 1, prepared.message).1);
    var next := RunNode(p, b, prepared).0;
    var pushed := P.MovingPass(p, b, r, prepared, result);
    TookIfSelected(p, r, next, result, pushed, e);
    AdvanceCases(p, ran, result);
    var out := Matching(p.edges, r.node, result);
    OutDistinct(p, r.node, result, e);
    PushResult(p, ran, out, 0);
    assert Advance(p, ran, result).1.Running?;
    PushCharges(p, ran, out, 0, e);
    assert out[0..] == out;
    assert next.edgeVisits == PushTokens(p, ran, out, 0).0.edgeVisits;
  }

  /** Which passes exhaust a budget, by the counters. */
  lemma StepLimit(p: PipelineDefinition, extensions: set<string>, referenceOk: string -> bool, b: Behaviour,
                  r: RunState)
    requires LocallyOk(p, extensions, referenceOk) && Behaves(p, b) && r.node in p.nodes
    ensures Step(p, b, r).1 == Failed(EdgeLimit) <==> exists e :: Selects(p, b, r, e) && Full(r.edgeVisits, e)
  {
    NodeFacts(p, extensions, referenceOk, r.node);
    if PrepareJoin(p, r).1.Proceed? && !p.nodes[r.node].kind.Output? {
      ExecutedLimit(p, b, r);
    } else {
      NotExecuted(p, b, r);
    }
  }

  lemma NotExecuted(p: PipelineDefinition, b: Behaviour, r: RunState)
    requires r.node in p.nodes && (PrepareJoin(p, r).1.Proceed? ==> p.nodes[r.node].kind.Output?)
    ensures Step(p, b, r).1 != Failed(EdgeLimit)
  {
  }

  lemma ExecutedLimit(p: PipelineDefinition, b: Behaviour, r: RunState)
    requires Wired(p) && Behaves(p, b) && r.node in p.nodes && r.node != OUTPUT && !p.nodes[r.node].kind.Output?
    requires FanOutOk(p.nodes[r.node].kind, Outgoing(p.edges, r.node)) && PrepareJoin(p, r).1.Proceed?
    ensures Step(p, b, r).1 == Failed(EdgeLimit) <==> exists e :: Selects(p, b, r, e) && Full(r.edgeVisits, e)
  {
    var prepared := PrepareJoin(p, r).0;
    RunLimit(p, b, prepared);
    assert prepared.edgeVisits == r.edgeVisits;
    SelectedFull(p, b, r, Matching(p.edges, r.node, Executed(b, prepared).1));
    assert Step(p, b, r) == RunNode(p, b, prepared);
  }

  lemma SelectedFull(p: PipelineDefinition, b: Behaviour, r: RunState, out: seq<EdgeDefinition>)
    requires r.node in p.nodes && !p.nodes[r.node].kind.Output? && PrepareJoin(p, r).1.Proceed?
    requires out == Matching(p.edges, r.node, Executed(b, PrepareJoin(p, r).0).1)
    ensures (exists i :: 0 <= i < |out| && Full(r.edgeVisits, out[i])) <==>
            exists e :: Selects(p, b, r, e) && Full(r.edgeVisits, e)
  {
    if i :| 0 <= i < |out| && Full(r.edgeVisits, out[i]) {
      assert Selects(p, b, r, out[i]);
    }
    if e :| Selects(p, b, r, e) && Full(r.edgeVisits, e) {
      var i :| 0 <= i < |out| && out[i] == e;
    }
  }

  lemma RunLimit(p: PipelineDefinition, b: Behaviour, r: RunState)
    requires Wired(p) && Behaves(p, b) && r.node in p.nodes && !p.nodes[r.node].kind.Output?
    requires r.node != OUTPUT ==> FanOutOk(p.nodes[r.node].kind, Outgoing(p.edges, r.node))
    requires r.node != OUTPUT
    ensures var out := Matching(p.edges, r.node, Executed(b, r).1);
            RunNode(p, b, r).1 == Failed(EdgeLimit) <==> exists i :: 0 <= i < |out| && Full(r.edgeVisits, out[i])
  {
    var (ran, result) := Executed(b, r);
    assert Declared(p.nodes[r.node].kind, b(r.node, Count(r.nodeVisits, r.node) + 1, r.message).1);
    RoutingDetermined(p, r.node, result);
    T.ValidKeysDistinct(p);
    MatchingDistinct(p.edges, r.node, result);
    var out := Matching(p.edges, r.node, result);
    PushLimit(p, ran, out, 0);
    PushResult(p, ran, out, 0);
  }

  /**
   * A pass exceeds the number of ready tokens exactly when it executes its node, no budget stops it,
   * and the tokens it pushes bring the ready ones above 256.
   */
  lemma ReadyLimitIff(p: PipelineDefinition, extensions: set<string>, referenceOk: string -> bool, b: Behaviour,
                      r: RunState)
    requires LocallyOk(p, extensions, referenceOk) && Behaves(p, b) && r.node in p.nodes
    ensures Step(p, b, r).1 == Failed(ReadyLimit) <==>
            && PrepareJoin(p, r).1.Proceed? && !p.nodes[r.node].kind.Output?
            && Step(p, b, r).1 != Failed(EdgeLimit)
            && |r.ready| + |Matching(p.edges, r.node, Executed(b, PrepareJoin(p, r).0).1)| > 256
  {
    NodeFacts(p, extensions, referenceOk, r.node);
    var (prepared, j) := PrepareJoin(p, r);
    if j.Proceed? && !p.nodes[r.node].kind.Output? {
      var (ran, result) := Executed(b, prepared);
      assert Declared(p.nodes[r.node].kind, b(r.node, Count(prepared.nodeVisits, r.node) + 1, prepared.message).1);
      var out := Matching(p.edges, r.node, result);
      RoutingDetermined(p, r.node, result);
      PushResult(p, ran, out, 0);
      P.PushedLand(p, ran, out, 0);
    }
  }

  // ---- Whole runs ----

  /** The counters of a run are the numbers of times its bounded edges were taken. */
  lemma {:induction false} CountersAreTaken(p: PipelineDefinition, extensions: set<string>, referenceOk: string -> bool,
                                            b: Behaviour, message: Value, s: seq<RunState>, k: nat, e: EdgeDefinition)
    requires LocallyOk(p, extensions, referenceOk) && Behaves(p, b) && Trace(p, b, message, s) && k < |s|
    requires e in p.edges && e.maxIterations != 0
    ensures s[k].preparedJoin == "" && Count(s[k].edgeVisits, EdgeKey(e)) == Taken(s[..k + 1], e)
  {
    if k > 0 {
      CountersAreTaken(p, extensions, referenceOk, b, message, s, k - 1, e);
      TraceStep(p, b, message, s, k);
      StepCharges(p, extensions, referenceOk, b, s[k - 1], s[k], e);
      assert s[..k + 1][..k] == s[..k];
    }
  }

  /** The edge was taken as often as its budget allows. */
  ghost predicate UsedUp(s: seq<RunState>, e: EdgeDefinition) {
    e.maxIterations != 0 && Taken(s, e) >= e.maxIterations
  }

  ghost predicate FailsAtLimit(p: PipelineDefinition, b: Behaviour, r: RunState) {
    r.node in p.nodes && Step(p, b, r).1 == Failed(EdgeLimit)
  }

  /**
   * Over every run of a validated pipeline, the next pass exhausts an edge budget if and only if it
   * selects an edge that the run has already taken as often as its budget says.
   */
  lemma {:induction false} EdgeLimitIff(p: PipelineDefinition, extensions: set<string>, referenceOk: string -> bool,
                                        b: Behaviour, message: Value, s: seq<RunState>)
    requires LocallyOk(p, extensions, referenceOk) && Behaves(p, b) && Trace(p, b, message, s)
    ensures FailsAtLimit(p, b, s[|s| - 1]) <==> exists e :: Selects(p, b, s[|s| - 1], e) && UsedUp(s, e)
  {
    var k := |s| - 1;
    WalkNested(p, extensions, referenceOk, b, message, s, k);
    P.CurrentKnown(p, s[k]);
    StepLimit(p, extensions, referenceOk, b, s[k]);
    forall e | Selects(p, b, s[k], e) ensures Full(s[k].edgeVisits, e) <==> UsedUp(s, e) {
      MatchingMembers(p.edges, s[k].node, Executed(b, PrepareJoin(p, s[k]).0).1);
      SelectedCount(p, extensions, referenceOk, b, message, s, e);
    }
  }

  lemma {:induction false} SelectedCount(p: PipelineDefinition, extensions: set<string>, referenceOk: string -> bool,
                                         b: Behaviour, message: Value, s: seq<RunState>, e: EdgeDefinition)
    requires LocallyOk(p, extensions, referenceOk) && Behaves(p, b) && Trace(p, b, message, s) && e in p.edges
    ensures Full(s[|s| - 1].edgeVisits, e) <==> UsedUp(s, e)
  {
    if e.maxIterations != 0 {
      CountersAreTaken(p, extensions, referenceOk, b, message, s, |s| - 1, e);
      assert s[..|s|] == s;
    }
  }

  lemma PassWithinBudget(p: PipelineDefinition, extensions: set<string>, referenceOk: string -> bool, b: Behaviour,
                         r: RunState, next: RunState, e: EdgeDefinition)
    requires LocallyOk(p, extensions, referenceOk) && Behaves(p, b) && Continues(p, b, r, next)
    requires r.preparedJoin == "" && e in p.edges && e.maxIterations != 0 && Took(r, next, e)
    ensures Count(r.edgeVisits, EdgeKey(e)) < e.maxIterations
  {
    StepLimit(p, extensions, referenceOk, b, r);
    var result, pushed := P.PassCases(p, extensions, referenceOk, b, r, next);
    var (prepared, j) := PrepareJoin(p, r);
    if j.Waiting? {
      P.WaitingPass(p, r);
    } else {
      NodeFacts(p, extensions, referenceOk, r.node);
      P.NodeNamed(p, extensions, referenceOk, r.node);
      var answer := Executed(b, prepared).1;
      assert Declared(p.nodes[r.node].kind, b(r.node, Count(prepared.nodeVisits, r.node) + 1, prepared.message).1);
      var put := P.MovingPass(p, b, r, prepared, answer);
      TookIfSelected(p, r, next, answer, put, e);
      assert Selects(p, b, r, e);
    }
  }

  /** No run takes a bounded edge more often than its budget says. */
  lemma {:induction false} WithinBudget(p: PipelineDefinition, extensions: set<string>, referenceOk: string -> bool,
                                        b: Behaviour, message: Value, s: seq<RunState>, k: nat, e: EdgeDefinition)
    requires LocallyOk(p, extensions, referenceOk) && Behaves(p, b) && Trace(p, b, message, s) && k < |s|
    requires e in p.edges && e.maxIterations != 0
    ensures Taken(s[..k + 1], e) <= e.maxIterations
  {
    if k > 0 {
      WithinBudget(p, extensions, referenceOk, b, message, s, k - 1, e);
      CountersAreTaken(p, extensions, referenceOk, b, message, s, k - 1, e);
      TraceStep(p, b, message, s, k);
      assert s[..k + 1][..k] == s[..k];
      if Took(s[k - 1], s[k], e) {
        PassWithinBudget(p, extensions, referenceOk, b, s[k - 1], s[k], e);
      }
    }
  }

  // ---- A branch on its own ----

  /** The turns of a branch loop from its start, each going on. */
  ghost predicate BranchTrace(p: PipelineDefinition, b: Behaviour, start: Place, s: seq<Branch>) {
    && |s| > 0 && s[0] == Fresh(start)
    && forall i, j {:trigger GoesOn(p, b, s[i], s[j])} :: 0 <= i && j == i + 1 && j < |s| ==> GoesOn(p, b, s[i], s[j])
  }

  ghost predicate GoesOn(p: PipelineDefinition, b: Behaviour, r: Branch, next: Branch) {
    BranchPass(p, b, r) == Onward(next)
  }

  ghost predicate BranchTook(r: Branch, next: Branch, e: EdgeDefinition) {
    r.walker.node == e.from && next.walker.node == e.to
  }

  ghost function BranchTaken(s: seq<Branch>, e: EdgeDefinition): nat {
    if |s| < 2 then 0 else
    BranchTaken(s[..|s| - 1], e) + if BranchTook(s[|s| - 2], s[|s| - 1], e) then 1 else 0
  }

  lemma TurnCharges(p: PipelineDefinition, b: Behaviour, r: Branch, next: Branch, e: EdgeDefinition)
    requires Wired(p) && GoesOn(p, b, r, next) && e in p.edges && e.maxIterations != 0
    ensures Count(next.edgeVisits, EdgeKey(e)) ==
            Count(r.edgeVisits, EdgeKey(e)) + if BranchTook(r, next, e) then 1 else 0
  {
    var c := r.walker;
    var result := b(c.node, Count(c.visits, c.node) + 1, c.message).1;
    var out := Matching(p.edges, c.node, result);
    MatchingMembers(p.edges, c.node, result);
    assert out[0] in out;
    if EdgeKey(out[0]) == EdgeKey(e) || BranchTook(r, next, e) {
      KeyNamesEdge(p, out[0], e);
    }
  }

  lemma {:induction false} BranchCounters(p: PipelineDefinition, b: Behaviour, start: Place, s: seq<Branch>, k: nat,
                                          e: EdgeDefinition)
    requires Wired(p) && BranchTrace(p, b, start, s) && k < |s| && e in p.edges && e.maxIterations != 0
    ensures Count(s[k].edgeVisits, EdgeKey(e)) == BranchTaken(s[..k + 1], e)
  {
    if k > 0 {
      BranchCounters(p, b, start, s, k - 1, e);
      assert GoesOn(p, b, s[k - 1], s[k]);
      TurnCharges(p, b, s[k - 1], s[k], e);
      assert s[..k + 1][..k] == s[..k];
    }
  }

  /** The edges the next turn of the branch selects. */
  function Selected(p: PipelineDefinition, b: Behaviour, c: Walker): seq<EdgeDefinition> {
    Matching(p.edges, c.node, b(c.node, Count(c.visits, c.node) + 1, c.message).1)
  }

  /**
   * A branch away from a join breaks off exactly when its answer does not select one edge, or when
   * the branch has already taken that edge as often as its budget says.
   */
  lemma {:induction false} BranchLimitIff(p: PipelineDefinition, b: Behaviour, start: Place, s: seq<Branch>)
    requires Wired(p) && BranchTrace(p, b, start, s)
    requires s[|s| - 1].walker.node in p.nodes && !IsJoin(p, s[|s| - 1].walker.node)
    ensures var out := Selected(p, b, s[|s| - 1].walker);
            BranchPass(p, b, s[|s| - 1]).Broken? <==>
            |out| != 1 || (out[0].maxIterations != 0 && BranchTaken(s, out[0]) >= out[0].maxIterations)
  {
    var r := s[|s| - 1];
    var out := Selected(p, b, r.walker);
    if |out| == 1 && out[0].maxIterations != 0 {
      var c := r.walker;
      MatchingMembers(p.edges, c.node, b(c.node, Count(c.visits, c.node) + 1, c.message).1);
      assert out[0] in out;
      BranchCounters(p, b, start, s, |s| - 1, out[0]);
      assert s[..|s|] == s;
    }
  }

  // ---- The step allowance of a branch ----

  /** The turns of a branch from a given moment, ending at a join. */
  ghost predicate Reaches(p: PipelineDefinition, b: Behaviour, r: Branch, turns: nat, end: Branch)
    decreases turns
  {
    if turns == 0 then r == end && BranchPass(p, b, end).Arrived?
    else BranchPass(p, b, r).Onward? && Reaches(p, b, BranchPass(p, b, r).branch, turns - 1, end)
  }

  /** The branch gets to the join with the payload in so many turns. */
  ghost predicate Arrives(p: PipelineDefinition, b: Behaviour, r: Branch, turns: nat, node: string, message: Value) {
    exists end :: Reaches(p, b, r, turns, end) && end.walker.node == node && end.walker.message == message
  }

  lemma ArrivesNext(p: PipelineDefinition, b: Behaviour, r: Branch, turns: nat, node: string, message: Value)
    requires BranchPass(p, b, r).Onward?
    ensures Arrives(p, b, r, turns, node, message) <==>
            turns > 0 && Arrives(p, b, BranchPass(p, b, r).branch, turns - 1, node, message)
  {
    var next := BranchPass(p, b, r).branch;
    if turns > 0 && Arrives(p, b, next, turns - 1, node, message) {
      var end :| Reaches(p, b, next, turns - 1, end) && end.walker.node == node && end.walker.message == message;
      assert Reaches(p, b, r, turns, end);
    }
  }

  /** A branch ends at a join with a payload exactly when it gets there by at most the allowed executions. */
  lemma {:induction false} AllowanceExact(p: PipelineDefinition, b: Behaviour, r: Branch, allowance: nat, node: string,
                                          message: Value)
    ensures RunToJoin(p, b, r, allowance) == AtJoin(node, message) <==>
            exists turns: nat :: turns <= allowance && Arrives(p, b, r, turns, node, message)
    decreases allowance
  {
    match BranchPass(p, b, r)
    case Arrived =>
      assert Reaches(p, b, r, 0, r);
      assert Arrives(p, b, r, 0, node, message) <==> r.walker.node == node && r.walker.message == message;
    case Broken =>
    case Onward(next) =>
      if allowance > 0 {
        AllowanceExact(p, b, next, allowance - 1, node, message);
        if turns: nat :| turns <= allowance - 1 && Arrives(p, b, next, turns, node, message) {
          ArrivesNext(p, b, r, turns + 1, node, message);
        }
      }
      if turns: nat :| turns <= allowance && Arrives(p, b, r, turns, node, message) {
        ArrivesNext(p, b, r, turns, node, message);
      }
  }
}
