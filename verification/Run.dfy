/** The run record updated in place by the execution loop. */
module Runs {
  import opened Digraph
  import opened Pipeline
  import M = TokenMachine
  import T = TokenTree
  import S = TokenSafety
  import B = TokenTermination

  class Run {
    var node: string
    var message: M.Value
    var frames: seq<M.Frame>
    var ready: seq<M.Token>
    var joins: map<nat, map<nat, M.Value>>
    var edgeVisits: map<string, nat>
    var nodeVisits: map<string, nat>
    var preparedJoin: string
    var nextGroup: nat

    constructor (input: M.Value)
      ensures State() == M.Initial(input)
    {
      node, message, frames, ready := INPUT, input, [], [];
      joins, edgeVisits, nodeVisits, preparedJoin, nextGroup := map[], map[], map[], "", 0;
    }

    function State(): M.RunState
      reads this
    {
      M.RunState(node, message, frames, ready, joins, edgeVisits, nodeVisits, preparedJoin, nextGroup)
    }

    /** Makes the first ready token the active one. */
    method NextReady() returns (took: bool)
      modifies this
      ensures took <==> old(ready) != []
      ensures State() == M.NextReady(old(State()))
    {
      if ready == [] {
        return false;
      }
      var token := ready[0];
      ready := ready[1..];
      node, message, frames := token.node, token.message, token.frames;
      preparedJoin := "";
      return true;
    }

    /** Registers an arrival at a join and completes the group when its last branch arrives. */
    method PrepareJoin(p: PipelineDefinition) returns (j: M.JoinResult)
      requires node in p.nodes
      modifies this
      ensures (State(), j) == M.PrepareJoin(p, old(State()))
    {
      if !p.nodes[node].kind.Join? {
        return M.Proceed;
      }
      if preparedJoin == node {
        return M.Proceed;
      }
      if frames == [] || frames[|frames| - 1].join != node {
        return M.Refused(M.JoinOutsideGroup);
      }
      var frame := frames[|frames| - 1];
      var arrived: map<nat, M.Value> := if frame.group in joins then joins[frame.group] else map[];
      if frame.index in arrived {
        return M.Refused(M.ArrivedTwice);
      }
      arrived := arrived[frame.index := message];
      if |arrived| == frame.width {
        var items := InOrder(arrived);
        message := M.Array(items);
        frames := frames[..|frames| - 1];
        joins := joins - {frame.group};
        preparedJoin := node;
        return M.Proceed;
      }
      joins := joins[frame.group := arrived];
      var took := NextReady();
      if !took {
        return M.Refused(M.MissingBranches);
      }
      return M.Waiting;
    }

    /** Appends one token per selected edge and spends the edges' budgets. */
    method PushTokens(p: PipelineDefinition, out: seq<EdgeDefinition>) returns (o: M.Outcome)
      requires node in p.nodes
      modifies this
      ensures (State(), o) == M.PushTokens(p, old(State()), out, 0)
    {
      var n := p.nodes[node];
      ghost var start := State();
      var i := 0;
      while i < |out|
        invariant 0 <= i <= |out| && node == old(node) && nextGroup == old(nextGroup)
        invariant M.PushTokens(p, State(), out, i) == M.PushTokens(p, start, out, 0)
      {
        var e := out[i];
        var key := M.EdgeKey(e);
        if e.maxIterations != 0 {
          edgeVisits := edgeVisits[key := M.Count(edgeVisits, key) + 1];
          if M.Count(edgeVisits, key) > e.maxIterations {
            return M.Failed(M.EdgeLimit);
          }
        }
        var branch := frames;
        if n.kind.Parallel? {
          branch := branch + [M.Frame(nextGroup, n.join, |out|, i)];
        }
        ready := ready + [M.Token(e.to, message, branch)];
        i := i + 1;
      }
      return M.Running;
    }

    /** Routes the active token along the edges its node's result selects. */
    method Advance(p: PipelineDefinition, result: Label) returns (o: M.Outcome)
      requires node in p.nodes
      modifies this
      ensures (State(), o) == M.Advance(p, old(State()), result)
    {
      var kind := p.nodes[node].kind;
      if kind.Output? {
        if frames != [] || ready != [] || joins != map[] {
          return M.Failed(M.NotConverged);
        }
        return M.Completed;
      }
      var out: seq<EdgeDefinition> := [];
      for i := 0 to |p.edges|
        invariant out == Matching(p.edges[..i], node, result) && State() == old(State())
      {
        var e := p.edges[i];
        assert p.edges[..i + 1][..i] == p.edges[..i];
        if e.from == node && (e.condition.Empty? || e.condition == result) {
          out := out + [e];
        } else {
          assert out + [] == out;
        }
      }
      assert p.edges[..|p.edges|] == p.edges;
      if out == [] {
        return M.Failed(M.NoMatchingEdge);
      }
      if !kind.Parallel? && |out| != 1 {
        return M.Failed(M.AmbiguousRouting);
      }
      var group := nextGroup;
      o := PushTokens(p, out);
      nextGroup := group + 1;
      if o.Failed? {
        return;
      }
      if |ready| > 256 {
        return M.Failed(M.ReadyLimit);
      }
      if !kind.Parallel? {
        var took := NextReady();
      }
      return M.Running;
    }

    /** One pass of the execution loop. */
    method Step(p: PipelineDefinition, b: M.Behaviour) returns (o: M.Outcome)
      requires node in p.nodes
      modifies this
      ensures (State(), o) == M.Step(p, b, old(State()))
    {
      var j := PrepareJoin(p);
      if !j.Proceed? {
        return if j.Waiting? then M.Running else M.Failed(j.fault);
      }
      var visit := M.Count(nodeVisits, node) + 1;
      var (output, result) := b(node, visit, message);
      nodeVisits := nodeVisits[node := visit];
      message := output;
      var parallel := p.nodes[node].kind.Parallel?;
      o := Advance(p, result);
      if o.Running? && parallel {
        var took := NextReady();
      }
    }

    /**
     * The execution loop without its step limit. It always ends, and it ends in completion or in one
     * of the four faults that depend on the graph's nesting and limits.
     */
    method Execute(p: PipelineDefinition, extensions: set<string>, referenceOk: string -> bool, b: M.Behaviour)
      returns (o: M.Outcome)
      requires LocallyOk(p, extensions, referenceOk) && !HasCycle(GraphOf(p, true)) && M.Behaves(p, b)
      requires exists m :: State() == M.Initial(m)
      modifies this
      ensures o.Completed? || (o.Failed? && S.Harmless(o.fault))
      ensures o.Completed? ==> node == OUTPUT && frames == [] && ready == [] && joins == map[]
    {
      ghost var order := B.RankingExists(p, extensions, referenceOk);
      B.ValidKeysDistinct(p);
      StartsNested(p, extensions, referenceOk, State());
      while true
        invariant S.Nested(p, State()) && B.Ranked(p, order) && B.DistinctKeys(p.edges)
        decreases B.Measure(p, order, State())
      {
        ghost var before := State();
        S.NestedStep(p, extensions, referenceOk, b, before);
        o := Step(p, b);
        if !o.Running? {
          return;
        }
        assert S.Continues(p, b, before, State());
        S.NextNested(p, extensions, referenceOk, b, before, State());
        S.NodeFacts(p, extensions, referenceOk, before.node);
        B.StepSpends(p, order, b, before, State());
      }
    }
  }

  lemma StartsNested(p: PipelineDefinition, extensions: set<string>, referenceOk: string -> bool, r: M.RunState)
    requires LocallyOk(p, extensions, referenceOk) && exists m :: r == M.Initial(m)
    ensures S.Nested(p, r)
  {
    assert HeaderOk(p);
    var m :| r == M.Initial(m);
    S.FirstNested(p, m);
  }

  /** The values of a join table in ascending index order. */
  method InOrder(arrived: map<nat, M.Value>) returns (items: seq<M.Value>)
    ensures items == M.Ascending(arrived)
  {
    items := [];
    var rest := arrived;
    while rest != map[]
      invariant items + M.Ascending(rest) == M.Ascending(arrived)
      decreases |rest.Keys|
    {
      var k := M.Least(rest.Keys);
      assert items + ([rest[k]] + M.Ascending(rest - {k})) == items + [rest[k]] + M.Ascending(rest - {k});
      assert (rest - {k}).Keys == rest.Keys - {k};
      items := items + [rest[k]];
      rest := rest - {k};
    }
    assert items + [] == items;
  }
}
