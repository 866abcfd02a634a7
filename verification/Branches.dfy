/**
 * One branch of a fork on its own, as a concurrent or a distributed execution runs it: from the
 * fork's edge to the first join, with visit counters and edge budgets of its own.
 */
module Branches {
  import opened Pipeline
  import opened TokenMachine

  /** Where a branch starts: a node and the payload it gets there. */
  datatype Place = Place(node: string, message: Value)

  /** A branch under way, with its own visit counters. */
  datatype Walker = Walker(node: string, message: Value, visits: map<string, nat>)

  datatype Routed = Stuck | To(walker: Walker)

  function Starting(start: Place): Walker {
    Walker(start.node, start.message, map[])
  }

  /** Runs the node at c and follows the one edge its answer selects. */
  function Route(p: PipelineDefinition, b: Behaviour, c: Walker): Routed {
    if c.node !in p.nodes then Stuck else
    var visit := Count(c.visits, c.node) + 1;
    var (message, result) := b(c.node, visit, c.message);
    var out := Matching(p.edges, c.node, result);
    if |out| != 1 then Stuck else To(Walker(out[0].to, message, c.visits[c.node := visit]))
  }

  predicate IsJoin(p: PipelineDefinition, node: string) {
    node in p.nodes && p.nodes[node].kind.Join?
  }

  /** From c, k routed nodes lead to d without passing a join. */
  ghost predicate Travels(p: PipelineDefinition, b: Behaviour, c: Walker, k: nat, d: Walker)
    decreases k
  {
    if k == 0 then c == d
    else !IsJoin(p, c.node) && Route(p, b, c).To? && Travels(p, b, Route(p, b, c).walker, k - 1, d)
  }

  /** The first join the branch reaches is `join`, after k nodes, carrying m. */
  ghost predicate Delivers(p: PipelineDefinition, b: Behaviour, start: Place, k: nat, join: string, m: Value) {
    IsJoin(p, join) && exists v :: Travels(p, b, Starting(start), k, Walker(join, m, v))
  }

  ghost predicate Delivered(p: PipelineDefinition, b: Behaviour, start: Place, join: string, m: Value) {
    exists k :: Delivers(p, b, start, k, join, m)
  }

  lemma {:induction false} ArrivesOnce(p: PipelineDefinition, b: Behaviour, c: Walker, k: nat, j: nat, d: Walker,
                                       e: Walker)
    requires Travels(p, b, c, k, d) && Travels(p, b, c, j, e) && IsJoin(p, d.node) && IsJoin(p, e.node)
    ensures k == j && d == e
    decreases k
  {
    if k > 0 && j > 0 {
      ArrivesOnce(p, b, Route(p, b, c).walker, k - 1, j - 1, d, e);
    }
  }

  /** What a branch delivers, and where, is unique. */
  lemma {:induction false} DeliversOnce(p: PipelineDefinition, b: Behaviour, start: Place,
                                        join: string, join': string, m: Value, m': Value)
    requires Delivered(p, b, start, join, m) && Delivered(p, b, start, join', m')
    ensures join == join' && m == m'
  {
    var k :| Delivers(p, b, start, k, join, m);
    var j :| Delivers(p, b, start, j, join', m');
    var v :| Travels(p, b, Starting(start), k, Walker(join, m, v));
    var w :| Travels(p, b, Starting(start), j, Walker(join', m', w));
    ArrivesOnce(p, b, Starting(start), k, j, Walker(join, m, v), Walker(join', m', w));
  }

  lemma {:induction false} TravelsOn(p: PipelineDefinition, b: Behaviour, c: Walker, k: nat, d: Walker, e: Walker)
    requires Travels(p, b, c, k, d) && !IsJoin(p, d.node) && Route(p, b, d) == To(e)
    ensures Travels(p, b, c, k + 1, e)
    decreases k
  {
    if k > 0 {
      TravelsOn(p, b, Route(p, b, c).walker, k - 1, d, e);
    } else {
      assert Travels(p, b, e, 0, e);
    }
  }

  // ---- The branch coroutine ----

  /** The coroutine's own run: its walker and its edge counters. */
  datatype Branch = Branch(walker: Walker, edgeVisits: map<string, nat>)

  datatype Pass = Arrived | Broken | Onward(branch: Branch)

  /** One turn of the branch loop, apart from the step limit: a join ends it, anything else is executed. */
  function BranchPass(p: PipelineDefinition, b: Behaviour, r: Branch): Pass {
    if r.walker.node !in p.nodes then Broken else
    if IsJoin(p, r.walker.node) then Arrived else
    var c := r.walker;
    var visit := Count(c.visits, c.node) + 1;
    var (message, result) := b(c.node, visit, c.message);
    var out := Matching(p.edges, c.node, result);
    if |out| != 1 then Broken else
    var e := out[0];
    var used := if e.maxIterations == 0 then r.edgeVisits
                else r.edgeVisits[EdgeKey(e) := Count(r.edgeVisits, EdgeKey(e)) + 1];
    if e.maxIterations != 0 && Count(used, EdgeKey(e)) > e.maxIterations then Broken
    else Onward(Branch(Walker(e.to, message, c.visits[c.node := visit]), used))
  }

  lemma PassRoutes(p: PipelineDefinition, b: Behaviour, r: Branch)
    requires BranchPass(p, b, r).Onward?
    ensures !IsJoin(p, r.walker.node) && Route(p, b, r.walker) == To(BranchPass(p, b, r).branch.walker)
  {
  }

  datatype BranchEnd = Stopped | AtJoin(node: string, message: Value)

  /** The branch loop with at most `allowance` executed nodes. */
  function RunToJoin(p: PipelineDefinition, b: Behaviour, r: Branch, allowance: nat): BranchEnd
    decreases allowance
  {
    match BranchPass(p, b, r)
    case Arrived => AtJoin(r.walker.node, r.walker.message)
    case Broken => Stopped
    case Onward(next) => if allowance == 0 then Stopped else RunToJoin(p, b, next, allowance - 1)
  }

  /** A branch that ends at a join ends at its first join, with its delivery. */
  lemma {:induction false} RunDelivers(p: PipelineDefinition, b: Behaviour, start: Place, r: Branch, k: nat,
                                       allowance: nat)
    requires Travels(p, b, Starting(start), k, r.walker)
    requires RunToJoin(p, b, r, allowance).AtJoin?
    ensures var end := RunToJoin(p, b, r, allowance); Delivered(p, b, start, end.node, end.message)
    decreases allowance
  {
    match BranchPass(p, b, r)
    case Arrived => assert Delivers(p, b, start, k, r.walker.node, r.walker.message);
    case Onward(next) =>
      PassRoutes(p, b, r);
      TravelsOn(p, b, Starting(start), k, r.walker, next.walker);
      RunDelivers(p, b, start, next, k + 1, allowance - 1);
  }

  function Fresh(start: Place): Branch {
    Branch(Starting(start), map[])
  }

  /** The loop in place: its own counters, and at most `allowance` executed nodes. */
  method RunBranch(p: PipelineDefinition, b: Behaviour, start: Place, allowance: nat) returns (r: BranchEnd)
    ensures r == RunToJoin(p, b, Fresh(start), allowance)
    ensures r.AtJoin? ==> Delivered(p, b, start, r.node, r.message)
  {
    var node, message := start.node, start.message;
    var edgeVisits: map<string, nat> := map[];
    var nodeVisits: map<string, nat> := map[];
    var steps := 0;
    ghost var k := 0;
    assert RunToJoin(p, b, Fresh(start), allowance).AtJoin? ==>
        (var end := RunToJoin(p, b, Fresh(start), allowance); Delivered(p, b, start, end.node, end.message))
    by {
      if RunToJoin(p, b, Fresh(start), allowance).AtJoin? {
        RunDelivers(p, b, start, Fresh(start), 0, allowance);
      }
    }
    while true
      invariant steps <= allowance
      invariant RunToJoin(p, b, Branch(Walker(node, message, nodeVisits), edgeVisits), allowance - steps) ==
                RunToJoin(p, b, Fresh(start), allowance)
      decreases allowance - steps
    {
      if node !in p.nodes {
        return Stopped;
      }
      if p.nodes[node].kind.Join? {
        return AtJoin(node, message);
      }
      if steps >= allowance {
        return Stopped;
      }
      steps := steps + 1;
      var visit := Count(nodeVisits, node) + 1;
      var (output, result) := b(node, visit, message);
      nodeVisits := nodeVisits[node := visit];
      var out := Matching(p.edges, node, result);
      if |out| != 1 {
        return Stopped;
      }
      var e := out[0];
      if e.maxIterations != 0 {
        edgeVisits := edgeVisits[EdgeKey(e) := Count(edgeVisits, EdgeKey(e)) + 1];
        if Count(edgeVisits, EdgeKey(e)) > e.maxIterations {
          return Stopped;
        }
      }
      node, message := e.to, output;
    }
  }
}
