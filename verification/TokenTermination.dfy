/**
 * The walk of a validated pipeline terminates on its own. Each node has a potential in the graph
 * of unbounded edges; the remaining edge budget, weighted above every potential, plus the
 * potentials of the live tokens falls at every pass.
 */
module TokenTermination {
  import opened Digraph
  import opened Pipeline
  import opened TokenMachine
  import opened TokenTree
  import opened TokenSafety

  // ---- Iteration counters ----

  /** Two valid edges with the same iteration counter key have the same ends. */
  lemma EdgeKeyInjective(a: EdgeDefinition, b: EdgeDefinition)
    requires IsIdentifier(a.from) && IsIdentifier(b.from) && EdgeKey(a) == EdgeKey(b)
    ensures a.from == b.from && a.to == b.to
  {
    var key := EdgeKey(a);
    assert key[|a.from| + 1] == '>' && key[|b.from| + 1] == '>';
    assert key[|a.from|] == '-' && key[|b.from|] == '-';
    assert |a.from| == |b.from|;
    assert key[..|a.from|] == a.from && key[..|b.from|] == b.from;
    assert key[|a.from| + 2..] == a.to && key[|b.from| + 2..] == b.to;
  }

  function Left(e: EdgeDefinition, visits: map<string, nat>): nat {
    if Count(visits, EdgeKey(e)) < e.maxIterations then e.maxIterations - Count(visits, EdgeKey(e)) else 0
  }

  /** The iterations all bounded edges still allow. */
  function Remaining(edges: seq<EdgeDefinition>, visits: map<string, nat>): nat {
    if edges == [] then 0 else
    Remaining(edges[..|edges| - 1], visits) + Left(edges[|edges| - 1], visits)
  }

  ghost predicate DistinctKeys(edges: seq<EdgeDefinition>) {
    forall i, j :: 0 <= i < j < |edges| ==> EdgeKey(edges[i]) != EdgeKey(edges[j])
  }

  lemma ValidKeysDistinct(p: PipelineDefinition)
    requires (forall e :: e in p.edges ==> EdgeOk(p, e)) && NoDuplicateEdges(p.edges)
    ensures DistinctKeys(p.edges)
  {
    forall i, j | 0 <= i < j < |p.edges| ensures EdgeKey(p.edges[i]) != EdgeKey(p.edges[j]) {
      assert p.edges[i] in p.edges && p.edges[j] in p.edges;
      if EdgeKey(p.edges[i]) == EdgeKey(p.edges[j]) {
        EdgeKeyInjective(p.edges[i], p.edges[j]);
      }
    }
  }

  lemma {:induction false} OtherKeysKeep(edges: seq<EdgeDefinition>, visits: map<string, nat>, key: string, n: nat)
    requires forall i :: 0 <= i < |edges| ==> EdgeKey(edges[i]) != key
    ensures Remaining(edges, visits[key := n]) == Remaining(edges, visits)
  {
    if edges != [] {
      OtherKeysKeep(edges[..|edges| - 1], visits, key, n);
    }
  }

  /** Taking a bounded edge within its budget spends exactly one iteration. */
  lemma {:induction false} SpendOne(edges: seq<EdgeDefinition>, visits: map<string, nat>, e: EdgeDefinition)
    requires DistinctKeys(edges) && e in edges && Count(visits, EdgeKey(e)) < e.maxIterations
    ensures Remaining(edges, visits[EdgeKey(e) := Count(visits, EdgeKey(e)) + 1]) == Remaining(edges, visits) - 1
  {
    var key := EdgeKey(e);
    var n := |edges| - 1;
    if edges[n] == e {
      OtherKeysKeep(edges[..n], visits, key, Count(visits, key) + 1);
    } else {
      assert e in edges[..n];
      SpendOne(edges[..n], visits, e);
      var i :| 0 <= i < n && edges[i] == e;
      assert EdgeKey(edges[n]) != key;
    }
  }

  // ---- Potentials ----

  /** The unbounded graph of p in topological order. */
  ghost predicate Ranked(p: PipelineDefinition, order: seq<string>) {
    && (forall e :: e in p.edges ==> EdgeOk(p, e))
    && TopologicalOrder(GraphOf(p, true), order)
  }

  /** One more than the potentials of the unbounded successors together. */
  ghost function Potential(p: PipelineDefinition, order: seq<string>, n: string): (v: nat)
    requires Ranked(p, order) && n in p.nodes
    ensures v >= 1
    decreases Rank(order, n), |p.edges| + 1
  {
    1 + SumUnbounded(p, order, n, |p.edges|)
  }

  ghost function SumUnbounded(p: PipelineDefinition, order: seq<string>, n: string, k: nat): nat
    requires Ranked(p, order) && n in p.nodes && k <= |p.edges|
    decreases Rank(order, n), k
  {
    if k == 0 then 0 else
    var e := p.edges[k - 1];
    SumUnbounded(p, order, n, k - 1) +
    if e.from == n && e.maxIterations == 0 then
      UnboundedDescends(p, order, e);
      Potential(p, order, e.to)
    else 0
  }

  lemma UnboundedDescends(p: PipelineDefinition, order: seq<string>, e: EdgeDefinition)
    requires Ranked(p, order) && e in p.edges && e.maxIterations == 0
    ensures e.to in p.nodes && e.from in p.nodes && Rank(order, e.to) < Rank(order, e.from)
  {
    assert EdgeOk(p, e);
    assert e.to in Successors(p, e.from, true);
    assert Edge(GraphOf(p, true), e.from, e.to);
    EdgeDescends(GraphOf(p, true), order, e.from, e.to);
  }

  /** The potential of a node, zero for anything that is not a node. */
  ghost function Worth(p: PipelineDefinition, order: seq<string>, n: string): nat
    requires Ranked(p, order)
  {
    if n in p.nodes then Potential(p, order, n) else 0
  }

  ghost function SumWorth(p: PipelineDefinition, order: seq<string>, s: seq<string>): nat
    requires Ranked(p, order)
  {
    if s == [] then 0 else SumWorth(p, order, s[..|s| - 1]) + Worth(p, order, s[|s| - 1])
  }

  lemma {:induction false} WorthBounded(p: PipelineDefinition, order: seq<string>, s: seq<string>, n: string)
    requires Ranked(p, order) && n in s
    ensures Worth(p, order, n) <= SumWorth(p, order, s)
  {
    if s[|s| - 1] != n {
      assert n in s[..|s| - 1];
      WorthBounded(p, order, s[..|s| - 1], n);
    }
  }

  /** A weight above every potential. */
  ghost function Weight(p: PipelineDefinition, order: seq<string>): (w: nat)
    requires Ranked(p, order)
    ensures w >= 1
  {
    1 + SumWorth(p, order, order)
  }

  lemma WeightAbove(p: PipelineDefinition, order: seq<string>, n: string)
    requires Ranked(p, order) && n in p.nodes
    ensures Worth(p, order, n) < Weight(p, order)
  {
    assert n in GraphOf(p, true);
    WorthBounded(p, order, order, n);
  }

  ghost function ReadyWorth(p: PipelineDefinition, order: seq<string>, ready: seq<Token>): nat
    requires Ranked(p, order)
  {
    if ready == [] then 0 else
    ReadyWorth(p, order, ready[..|ready| - 1]) + Worth(p, order, ready[|ready| - 1].node)
  }

  ghost function Measure(p: PipelineDefinition, order: seq<string>, r: RunState): nat
    requires Ranked(p, order)
  {
    Weight(p, order) * Remaining(p.edges, r.edgeVisits)
    + Worth(p, order, r.node) + ReadyWorth(p, order, r.ready)
  }

  lemma ReadyWorthAppend(p: PipelineDefinition, order: seq<string>, ready: seq<Token>, t: Token)
    requires Ranked(p, order)
    ensures ReadyWorth(p, order, ready + [t]) == ReadyWorth(p, order, ready) + Worth(p, order, t.node)
  {
    assert (ready + [t])[..|ready|] == ready;
  }

  lemma {:induction false} ReadyWorthFront(p: PipelineDefinition, order: seq<string>, ready: seq<Token>)
    requires Ranked(p, order) && ready != []
    ensures ReadyWorth(p, order, ready) == Worth(p, order, ready[0].node) + ReadyWorth(p, order, ready[1..])
  {
    var n := |ready| - 1;
    if n > 0 {
      ReadyWorthFront(p, order, ready[..n]);
      assert ready[..n][1..] == ready[1..][..n - 1];
      assert ready[1..][n - 1] == ready[n];
    } else {
      assert ready[..n] == [] && ready[1..] == [];
    }
  }

  // ---- One pass spends the measure ----

  /** The unbounded edges among the selected ones from position i on, weighed by their targets. */
  ghost function Gain(p: PipelineDefinition, order: seq<string>, out: seq<EdgeDefinition>, i: nat): nat
    requires Ranked(p, order) && i <= |out|
    decreases |out| - i
  {
    if i == |out| then 0 else
    (if out[i].maxIterations == 0 then Worth(p, order, out[i].to) else 0) + Gain(p, order, out, i + 1)
  }

  lemma {:induction false} GainAppend(p: PipelineDefinition, order: seq<string>, out: seq<EdgeDefinition>,
                                      e: EdgeDefinition, i: nat)
    requires Ranked(p, order) && i <= |out|
    ensures Gain(p, order, out + [e], i) ==
            Gain(p, order, out, i) + if e.maxIterations == 0 then Worth(p, order, e.to) else 0
    decreases |out| - i
  {
    if i < |out| {
      GainAppend(p, order, out, e, i + 1);
    } else {
      assert Gain(p, order, out + [e], i + 1) == 0;
    }
  }

  /** What one pass may gain along unbounded edges is less than the node it leaves. */
  lemma {:induction false} GainBelowNode(p: PipelineDefinition, order: seq<string>, n: string, result: Label, k: nat)
    requires Ranked(p, order) && n in p.nodes && k <= |p.edges|
    ensures Gain(p, order, Matching(p.edges[..k], n, result), 0) <= SumUnbounded(p, order, n, k)
  {
    if k > 0 {
      var prefix := p.edges[..k];
      assert prefix[..k - 1] == p.edges[..k - 1] && prefix[k - 1] == p.edges[k - 1];
      GainBelowNode(p, order, n, result, k - 1);
      var e := p.edges[k - 1];
      var before := Matching(p.edges[..k - 1], n, result);
      if e.from == n && (e.condition.Empty? || e.condition == result) {
        GainAppend(p, order, before, e, 0);
        if e.maxIterations == 0 {
          UnboundedDescends(p, order, e);
        }
      } else {
        assert Matching(prefix, n, result) == before + [];
        assert before + [] == before;
      }
    }
  }

  lemma WeightTimesLess(w: nat, a: nat)
    requires a >= 1
    ensures w * (a - 1) == w * a - w
  {
  }

  function Spent(e: EdgeDefinition, visits: map<string, nat>): map<string, nat> {
    if e.maxIterations == 0 then visits else visits[EdgeKey(e) := Count(visits, EdgeKey(e)) + 1]
  }

  /** Pushing along one edge gains its target's worth, and along a bounded edge gains nothing. */
  lemma PushOneSpends(p: PipelineDefinition, order: seq<string>, visits: map<string, nat>, ready: seq<Token>,
                      e: EdgeDefinition, token: Token)
    requires Ranked(p, order) && DistinctKeys(p.edges) && e in p.edges && token.node == e.to
    requires e.maxIterations != 0 ==> Count(visits, EdgeKey(e)) < e.maxIterations
    ensures Weight(p, order) * Remaining(p.edges, Spent(e, visits)) + ReadyWorth(p, order, ready + [token])
            <= Weight(p, order) * Remaining(p.edges, visits) + ReadyWorth(p, order, ready)
               + if e.maxIterations == 0 then Worth(p, order, e.to) else 0
  {
    ReadyWorthAppend(p, order, ready, token);
    if e.maxIterations != 0 {
      assert EdgeOk(p, e);
      SpendOne(p.edges, visits, e);
      WeightTimesLess(Weight(p, order), Remaining(p.edges, visits));
      WeightAbove(p, order, e.to);
    }
  }

  /** The first pushed edge, as one transition. */
  lemma PushUnfolds(p: PipelineDefinition, r: RunState, out: seq<EdgeDefinition>, i: nat)
    returns (next: RunState, token: Token)
    requires r.node in p.nodes && i < |out| && PushTokens(p, r, out, i).1.Running?
    ensures token.node == out[i].to
    ensures next == r.(edgeVisits := Spent(out[i], r.edgeVisits), ready := r.ready + [token])
    ensures PushTokens(p, next, out, i + 1) == PushTokens(p, r, out, i)
    ensures out[i].maxIterations != 0 ==> Count(r.edgeVisits, EdgeKey(out[i])) < out[i].maxIterations
  {
    var n := p.nodes[r.node];
    var frames := if n.kind.Parallel? then r.frames + [Frame(r.nextGroup, n.join, |out|, i)] else r.frames;
    token := Token(out[i].to, r.message, frames);
    next := r.(edgeVisits := Spent(out[i], r.edgeVisits), ready := r.ready + [token]);
  }

  /** Pushing the selected edges gains at most what their unbounded ones weigh. */
  lemma {:induction false} PushSpends(p: PipelineDefinition, order: seq<string>, r: RunState,
                                      out: seq<EdgeDefinition>, i: nat)
    requires Ranked(p, order) && DistinctKeys(p.edges) && r.node in p.nodes && i <= |out|
    requires forall e :: e in out ==> e in p.edges
    requires PushTokens(p, r, out, i).1.Running?
    ensures var after := PushTokens(p, r, out, i).0;
            Weight(p, order) * Remaining(p.edges, after.edgeVisits) + ReadyWorth(p, order, after.ready)
            <= Weight(p, order) * Remaining(p.edges, r.edgeVisits) + ReadyWorth(p, order, r.ready)
               + Gain(p, order, out, i)
    decreases |out| - i
  {
    if i < |out| {
      assert out[i] in out;
      var next, token := PushUnfolds(p, r, out, i);
      PushSpends(p, order, next, out, i + 1);
      PushOneSpends(p, order, r.edgeVisits, r.ready, out[i], token);
    }
  }

  lemma NextReadySpends(p: PipelineDefinition, order: seq<string>, r: RunState)
    requires Ranked(p, order) && r.ready != []
    ensures Measure(p, order, NextReady(r)) ==
            Weight(p, order) * Remaining(p.edges, r.edgeVisits) + ReadyWorth(p, order, r.ready)
  {
    ReadyWorthFront(p, order, r.ready);
  }

  /** A join pass either keeps the measure and lets the node run, or absorbs the token. */
  lemma PrepareJoinSpends(p: PipelineDefinition, order: seq<string>, r: RunState)
    requires Ranked(p, order) && r.node in p.nodes
    ensures var (after, j) := PrepareJoin(p, r);
            && (j.Proceed? ==> Measure(p, order, after) == Measure(p, order, r))
            && (j.Waiting? ==> Measure(p, order, after) < Measure(p, order, r))
  {
    var (after, j) := PrepareJoin(p, r);
    if j.Waiting? {
      var frame := r.frames[|r.frames| - 1];
      var arrived := if frame.group in r.joins then r.joins[frame.group] else map[];
      var waiting := r.(joins := r.joins[frame.group := arrived[frame.index := r.message]]);
      assert after == NextReady(waiting);
      NextReadySpends(p, order, waiting);
    }
  }

  lemma AfterPushSpends(p: PipelineDefinition, order: seq<string>, ran: RunState, result: Label)
    requires Ranked(p, order) && DistinctKeys(p.edges) && ran.node in p.nodes
    requires PushTokens(p, ran, Matching(p.edges, ran.node, result), 0).1.Running?
    requires AfterPush(p, ran, result).ready != []
    ensures Measure(p, order, NextReady(AfterPush(p, ran, result))) < Measure(p, order, ran)
  {
    var out := Matching(p.edges, ran.node, result);
    MatchingMembers(p.edges, ran.node, result);
    PushSpends(p, order, ran, out, 0);
    assert p.edges[..|p.edges|] == p.edges;
    GainBelowNode(p, order, ran.node, result, |p.edges|);
    NextReadySpends(p, order, AfterPush(p, ran, result));
  }

  /** Every pass that keeps running lowers the measure. */
  lemma StepSpends(p: PipelineDefinition, order: seq<string>, b: Behaviour, r: RunState, next: RunState)
    requires Ranked(p, order) && DistinctKeys(p.edges) && Continues(p, b, r, next)
    requires p.nodes[r.node].kind.Output? <==> r.node == OUTPUT
    requires r.node != OUTPUT ==> FanOutOk(p.nodes[r.node].kind, Outgoing(p.edges, r.node))
    requires Behaves(p, b)
    ensures Measure(p, order, next) < Measure(p, order, r)
  {
    PrepareJoinSpends(p, order, r);
    var (prepared, j) := PrepareJoin(p, r);
    if j.Proceed? {
      RunNodeSpends(p, order, b, prepared);
    }
  }

  lemma RunNodeSpends(p: PipelineDefinition, order: seq<string>, b: Behaviour, r: RunState)
    requires Ranked(p, order) && DistinctKeys(p.edges) && r.node in p.nodes && Behaves(p, b)
    requires p.nodes[r.node].kind.Output? <==> r.node == OUTPUT
    requires r.node != OUTPUT ==> FanOutOk(p.nodes[r.node].kind, Outgoing(p.edges, r.node))
    requires RunNode(p, b, r).1.Running?
    ensures Measure(p, order, RunNode(p, b, r).0) < Measure(p, order, r)
  {
    var (ran, result) := Executed(b, r);
    assert Declared(p.nodes[r.node].kind, b(r.node, Count(r.nodeVisits, r.node) + 1, r.message).1);
    AdvanceCases(p, ran, result);
    RunningAdvance(p, ran, result);
    AfterPushSpends(p, order, ran, result);
  }

  lemma RunningAdvance(p: PipelineDefinition, ran: RunState, result: Label)
    requires ran.node in p.nodes && Advance(p, ran, result).1.Running?
    ensures PushTokens(p, ran, Matching(p.edges, ran.node, result), 0).1.Running?
    ensures AfterPush(p, ran, result).ready != []
  {
    var out := Matching(p.edges, ran.node, result);
    PushResult(p, ran, out, 0);
  }

  /** The measure of the start state bounds the number of passes: no step limit is needed. */
  /** One continuing pass of a validated pipeline. */
  lemma ContinueSpends(p: PipelineDefinition, extensions: set<string>, referenceOk: string -> bool, order: seq<string>,
                       b: Behaviour, start: RunState, r: RunState, next: RunState, passes: nat)
    requires LocallyOk(p, extensions, referenceOk) && Ranked(p, order) && Behaves(p, b) && Continues(p, b, r, next)
    requires Spends(p, order, start, r, passes)
    ensures Spends(p, order, start, next, passes + 1)
  {
    ValidKeysDistinct(p);
    NodeFacts(p, extensions, referenceOk, r.node);
    StepSpends(p, order, b, r, next);
  }

  /** So many passes have lowered the measure by at least as much. */
  ghost predicate Spends(p: PipelineDefinition, order: seq<string>, start: RunState, r: RunState, passes: nat)
    requires Ranked(p, order)
  {
    Measure(p, order, r) + passes <= Measure(p, order, start)
  }

  lemma {:induction false} WalkSpends(p: PipelineDefinition, extensions: set<string>, referenceOk: string -> bool,
                                      order: seq<string>, b: Behaviour, message: Value, s: seq<RunState>, k: nat)
    requires LocallyOk(p, extensions, referenceOk) && Ranked(p, order) && Behaves(p, b)
    requires Trace(p, b, message, s) && k < |s|
    ensures Spends(p, order, s[0], s[k], k)
  {
    if k > 0 {
      WalkSpends(p, extensions, referenceOk, order, b, message, s, k - 1);
      TraceStep(p, b, message, s, k);
      ContinueSpends(p, extensions, referenceOk, order, b, s[0], s[k - 1], s[k], k - 1);
    }
  }

  /** A validated pipeline has a ranking, so the bound below exists for it. */
  lemma RankingExists(p: PipelineDefinition, extensions: set<string>, referenceOk: string -> bool)
    returns (order: seq<string>)
    requires LocallyOk(p, extensions, referenceOk) && !HasCycle(GraphOf(p, true))
    ensures Ranked(p, order)
  {
    GraphClosed(p, true);
    AcyclicIffOrdered(GraphOf(p, true));
    order :| TopologicalOrder(GraphOf(p, true), order);
  }

  lemma {:induction false} InitialMeasure(p: PipelineDefinition, order: seq<string>, message: Value)
    requires Ranked(p, order)
    ensures Measure(p, order, Initial(message)) == Weight(p, order) * Remaining(p.edges, map[]) + Worth(p, order, INPUT)
  {
  }

  /** All runs of a validated pipeline, on every input and every behaviour, are shorter than one bound. */
  lemma WalkTerminates(p: PipelineDefinition, extensions: set<string>, referenceOk: string -> bool)
    returns (bound: nat)
    requires LocallyOk(p, extensions, referenceOk) && !HasCycle(GraphOf(p, true))
    ensures forall b, message, s :: Behaves(p, b) && Trace(p, b, message, s) ==> |s| <= bound
  {
    var order := RankingExists(p, extensions, referenceOk);
    bound := Weight(p, order) * Remaining(p.edges, map[]) + Worth(p, order, INPUT) + 1;
    forall b, message, s | Behaves(p, b) && Trace(p, b, message, s) ensures |s| <= bound {
      WalkSpends(p, extensions, referenceOk, order, b, message, s, |s| - 1);
      InitialMeasure(p, order, message);
    }
  }
}
