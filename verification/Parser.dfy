/** Pipeline validation: the rule checks, the colour search for cycles and the reachability search. */
module Parser {
  import opened Digraph
  import opened Pipeline

  datatype Verdict = Ok | Invalid(message: string)

  type EdgeIndex = map<string, seq<EdgeDefinition>>

  function At(index: EdgeIndex, id: string): seq<EdgeDefinition> {
    if id in index then index[id] else []
  }

  /** The index holds each node's out-edges, and every edge passed its own rule. */
  ghost predicate Indexes(index: EdgeIndex, p: PipelineDefinition) {
    && (forall id {:trigger IndexedAt(index, p, id)} :: IndexedAt(index, p, id))
    && (forall e {:trigger EdgeOk(p, e)} :: e in p.edges ==> EdgeOk(p, e))
  }

  ghost predicate IndexedAt(index: EdgeIndex, p: PipelineDefinition, id: string) {
    At(index, id) == Outgoing(p.edges, id)
  }

  method CheckNodes(p: PipelineDefinition, extensions: set<string>, referenceOk: string -> bool)
    returns (ok: bool)
    ensures ok <==> forall id :: id in p.nodes ==> NodeOk(p, extensions, referenceOk, id)
  {
    var pending := p.nodes.Keys;
    while pending != {}
      invariant pending <= p.nodes.Keys
      invariant forall id :: id in p.nodes && id !in pending ==> NodeOk(p, extensions, referenceOk, id)
      decreases pending
    {
      var id :| id in pending;
      if !NodeOk(p, extensions, referenceOk, id) {
        return false;
      }
      pending := pending - {id};
    }
    return true;
  }

  lemma IndexGrows(index: EdgeIndex, edges: seq<EdgeDefinition>, e: EdgeDefinition)
    requires forall id :: At(index, id) == Outgoing(edges, id)
    ensures forall id :: At(index[e.from := At(index, e.from) + [e]], id) == Outgoing(edges + [e], id)
  {
    assert (edges + [e])[..|edges|] == edges;
    forall id ensures At(index[e.from := At(index, e.from) + [e]], id) == Outgoing(edges + [e], id) {
      if id != e.from {
        assert Outgoing(edges, id) + [] == Outgoing(edges, id);
      }
    }
  }

  /** The (from, to) pairs of the first n edges. */
  ghost predicate PathsOf(paths: set<(string, string)>, edges: seq<EdgeDefinition>, n: nat)
    requires n <= |edges|
  {
    && (forall k :: 0 <= k < n ==> Ends(edges[k]) in paths)
    && (forall path :: path in paths ==> exists k :: 0 <= k < n && Ends(edges[k]) == path)
  }

  function Ends(e: EdgeDefinition): (string, string) {
    (e.from, e.to)
  }

  /** The first n edges passed their own rule and repeat no pair of ends. */
  ghost predicate CheckedEdges(p: PipelineDefinition, n: nat)
    requires n <= |p.edges|
  {
    && (forall k :: 0 <= k < n ==> EdgeOk(p, p.edges[k]))
    && (forall j, k :: 0 <= j < k < n ==> Ends(p.edges[j]) != Ends(p.edges[k]))
  }

  lemma RejectedEdge(p: PipelineDefinition, i: nat)
    requires i < |p.edges|
    requires !EdgeOk(p, p.edges[i]) || exists k :: 0 <= k < i && Ends(p.edges[k]) == Ends(p.edges[i])
    ensures !((forall e :: e in p.edges ==> EdgeOk(p, e)) && NoDuplicateEdges(p.edges))
  {
    assert p.edges[i] in p.edges;
  }

  /** Checks each edge and duplicates, and groups the edges by their source. */
  method IndexEdges(p: PipelineDefinition) returns (ok: bool, index: EdgeIndex)
    ensures ok <==> (forall e :: e in p.edges ==> EdgeOk(p, e)) && NoDuplicateEdges(p.edges)
    ensures ok ==> Indexes(index, p)
  {
    index := map[];
    var paths: set<(string, string)> := {};
    for i := 0 to |p.edges|
      invariant PathsOf(paths, p.edges, i)
      invariant CheckedEdges(p, i)
      invariant forall id :: At(index, id) == Outgoing(p.edges[..i], id)
    {
      var e := p.edges[i];
      if !EdgeOk(p, e) {
        RejectedEdge(p, i);
        return false, index;
      }
      if (e.from, e.to) in paths {
        assert Ends(e) in paths;
        RejectedEdge(p, i);
        return false, index;
      }
      IndexGrows(index, p.edges[..i], e);
      assert p.edges[..i + 1] == p.edges[..i] + [e];
      index := index[e.from := At(index, e.from) + [e]];
      PathsGrow(p, paths, i);
      paths := paths + {(e.from, e.to)};
    }
    assert p.edges[..|p.edges|] == p.edges;
    return true, index;
  }

  lemma PathsGrow(p: PipelineDefinition, paths: set<(string, string)>, i: nat)
    requires i < |p.edges| && PathsOf(paths, p.edges, i) && CheckedEdges(p, i)
    requires EdgeOk(p, p.edges[i]) && Ends(p.edges[i]) !in paths
    ensures PathsOf(paths + {Ends(p.edges[i])}, p.edges, i + 1) && CheckedEdges(p, i + 1)
  {
    assert Ends(p.edges[i]) == Ends(p.edges[i]);
    forall path | path in paths ensures exists k :: 0 <= k < i + 1 && Ends(p.edges[k]) == path {
      var k :| 0 <= k < i && Ends(p.edges[k]) == path;
    }
  }

  /** The out-edge rule of one node, with the conditions collected into a set. */
  method CheckOneFanOut(kind: NodeKind, edges: seq<EdgeDefinition>) returns (ok: bool)
    ensures ok <==> FanOutOk(kind, edges)
  {
    if edges == [] {
      return false;
    }
    if kind.Parallel? {
      if |edges| < 2 || |edges| > 16 {
        return false;
      }
      for i := 0 to |edges|
        invariant forall k :: 0 <= k < i ==> edges[k].condition.Empty?
      {
        if !edges[i].condition.Empty? {
          return false;
        }
      }
      return true;
    }
    if kind.Router? || kind.Validator? || kind.Loop? {
      var conditions: set<Label> := {};
      for i := 0 to |edges|
        invariant forall c :: c in conditions <==> exists k :: 0 <= k < i && edges[k].condition == c
      {
        conditions := conditions + {edges[i].condition};
      }
      var yes, no := if kind.Loop? then Repeat else Accepted, if kind.Loop? then Done else Rejected;
      assert yes != no;
      if |edges| == 2 {
        assert edges[0].condition in conditions && edges[1].condition in conditions;
        assert conditions == {edges[0].condition, edges[1].condition};
        assert conditions == {yes, no} ==> yes in conditions && no in conditions;
      }
      return conditions == {yes, no} && |edges| == 2;
    }
    return |edges| == 1 && edges[0].condition.Empty?;
  }

  method CheckFanOut(p: PipelineDefinition, index: EdgeIndex) returns (ok: bool)
    requires Indexes(index, p)
    ensures ok <==> forall id :: id in p.nodes && id != OUTPUT ==>
                                   FanOutOk(p.nodes[id].kind, Outgoing(p.edges, id))
  {
    var pending := p.nodes.Keys - {OUTPUT};
    while pending != {}
      invariant pending <= p.nodes.Keys - {OUTPUT}
      invariant forall id :: id in p.nodes && id != OUTPUT && id !in pending ==>
                               FanOutOk(p.nodes[id].kind, Outgoing(p.edges, id))
      decreases pending
    {
      var id :| id in pending;
      assert IndexedAt(index, p, id);
      var edges := At(index, id);
      var good := CheckOneFanOut(p.nodes[id].kind, edges);
      if !good {
        return false;
      }
      pending := pending - {id};
    }
    return true;
  }

  function Color(colors: map<string, int>, id: string): int {
    if id in colors then colors[id] else 0
  }

  /**
   * What the colours mean: 1 marks the nodes on the current search path, 2 marks the finished
   * nodes, which listed by finishing time put every successor first.
   */
  ghost predicate SearchState(g: Graph<string>, colors: map<string, int>, path: seq<string>, done: seq<string>) {
    && (forall id :: 0 <= Color(colors, id) <= 2)
    && (forall id :: Color(colors, id) == 1 <==> id in path)
    && (forall id :: Color(colors, id) == 2 <==> id in done)
    && SuccessorsFirst(g, done)
    && (path != [] ==> IsPath(g, path))
  }

  ghost function White(p: PipelineDefinition, colors: map<string, int>): set<string> {
    set id | id in p.nodes && Color(colors, id) == 0
  }

  /** One call of the recursive colour search; false means the "cycle has no bounded edge" error. */
  method Visit(p: PipelineDefinition, index: EdgeIndex, id: string, colors: map<string, int>,
               ghost path: seq<string>, ghost done: seq<string>)
    returns (ok: bool, after: map<string, int>, ghost finished: seq<string>)
    requires Indexes(index, p) && id in p.nodes
    requires SearchState(GraphOf(p, true), colors, path, done)
    requires path != [] ==> Edge(GraphOf(p, true), path[|path| - 1], id)
    ensures ok ==> SearchState(GraphOf(p, true), after, path, finished) && done <= finished && id in finished
    ensures !ok ==> HasCycle(GraphOf(p, true))
    decreases White(p, colors), 0
  {
    ghost var g := GraphOf(p, true);
    after, finished := colors, done;
    if Color(colors, id) == 1 {
      ghost var i :| 0 <= i < |path| && path[i] == id;
      PathReturning(g, path, i, id);
      return false, after, finished;
    }
    if Color(colors, id) == 2 {
      return true, after, finished;
    }
    EnterNode(p, g, id, colors, path, done);
    after := after[id := 1];
    ghost var deeper := path + [id];
    var edges := At(index, id);
    for i := 0 to |edges|
      invariant SearchState(g, after, deeper, finished) && done <= finished
      invariant forall k :: 0 <= k < i && edges[k].maxIterations == 0 ==> edges[k].to in finished
      invariant White(p, after) <= White(p, colors) - {id}
    {
      ok, after, finished := VisitEdge(p, index, id, i, after, path, finished);
      if !ok {
        return;
      }
    }
    ghost var listed := finished;
    FinishNode(p, g, id, index, after, path, listed);
    after := after[id := 2];
    finished := finished + [id];
    return true, after, finished;
  }

  /** Follows one out-edge of the node being visited; bounded edges are not followed. */
  method VisitEdge(p: PipelineDefinition, index: EdgeIndex, id: string, i: nat, colors: map<string, int>,
                   ghost path: seq<string>, ghost done: seq<string>)
    returns (ok: bool, after: map<string, int>, ghost finished: seq<string>)
    requires Indexes(index, p) && id in p.nodes && i < |At(index, id)|
    requires SearchState(GraphOf(p, true), colors, path + [id], done)
    ensures ok ==> SearchState(GraphOf(p, true), after, path + [id], finished) && done <= finished
    ensures ok && At(index, id)[i].maxIterations == 0 ==> At(index, id)[i].to in finished
    ensures ok ==> White(p, after) <= White(p, colors)
    ensures !ok ==> HasCycle(GraphOf(p, true))
    decreases White(p, colors), 1
  {
    ok, after, finished := true, colors, done;
    var e := At(index, id)[i];
    if e.maxIterations == 0 {
      IndexedEdge(p, index, id, i);
      ok, after, finished := Visit(p, index, e.to, colors, path + [id], done);
      if ok {
        WhiteShrinks(p, GraphOf(p, true), colors, after, path + [id], done, finished);
      }
    }
  }

  /** An indexed edge is an edge of the pipeline between known nodes. */
  lemma IndexedEdge(p: PipelineDefinition, index: EdgeIndex, id: string, i: nat)
    requires Indexes(index, p) && id in p.nodes && i < |At(index, id)|
    ensures var e := At(index, id)[i];
            && e in p.edges && e.from == id && e.to in p.nodes
            && Edge(GraphOf(p, false), id, e.to)
            && (e.maxIterations == 0 ==> Edge(GraphOf(p, true), id, e.to))
  {
    OutgoingMembers(p.edges, id);
    assert IndexedAt(index, p, id);
    var e := At(index, id)[i];
    assert e in Outgoing(p.edges, id);
    assert EdgeOk(p, e);
    assert e.to in Successors(p, id, false);
    assert e.maxIterations == 0 ==> e.to in Successors(p, id, true);
  }

  /** Colouring an unvisited node 1 puts it at the end of the search path. */
  lemma EnterNode(p: PipelineDefinition, g: Graph<string>, id: string, colors: map<string, int>,
                  path: seq<string>, done: seq<string>)
    requires SearchState(g, colors, path, done) && id in g && id in p.nodes && Color(colors, id) == 0
    requires path != [] ==> Edge(g, path[|path| - 1], id)
    ensures SearchState(g, colors[id := 1], path + [id], done)
    ensures id in White(p, colors) && White(p, colors[id := 1]) <= White(p, colors) - {id}
  {
    if path != [] {
      PathSuffix(g, path, id);
    }
    var c := colors[id := 1];
    assert forall n {:trigger Color(c, n)} :: n != id ==> Color(c, n) == Color(colors, n);
    assert forall n :: n in path + [id] <==> n in path || n == id;
  }

  lemma WhiteShrinks(p: PipelineDefinition, g: Graph<string>, before: map<string, int>, after: map<string, int>,
                     path: seq<string>, done: seq<string>, finished: seq<string>)
    requires SearchState(g, before, path, done) && SearchState(g, after, path, finished) && done <= finished
    ensures White(p, after) <= White(p, before)
  {
    forall id | id in White(p, after) ensures id in White(p, before) {
      if Color(before, id) == 2 {
        assert id in done;
        assert id in finished;
      }
    }
  }

  /** Colouring a node 2 after all its unbounded successors keeps the meaning of the colours. */
  lemma FinishNode(p: PipelineDefinition, g: Graph<string>, id: string, index: EdgeIndex,
                   colors: map<string, int>, path: seq<string>, done: seq<string>)
    requires g == GraphOf(p, true) && id in p.nodes && Indexes(index, p)
    requires SearchState(g, colors, path + [id], done) && id !in path
    requires forall k :: 0 <= k < |At(index, id)| && At(index, id)[k].maxIterations == 0 ==> At(index, id)[k].to in done
    ensures SearchState(g, colors[id := 2], path, done + [id])
  {
    OutgoingMembers(p.edges, id);
    assert IndexedAt(index, p, id);
    assert id in path + [id];
    assert Color(colors, id) == 1;
    forall m | m in g[id] ensures m in done {
      var e :| e in p.edges && e.from == id && e.maxIterations == 0 && e.to == m;
      assert e in At(index, id);
      var k :| 0 <= k < |At(index, id)| && At(index, id)[k] == e;
    }
    AppendToOrder(g, done, id);
    if path != [] {
      PathPrefix(g, path, id);
    }
    Recolor(colors, id, path, done, colors[id := 2]);
  }

  lemma Recolor(colors: map<string, int>, id: string, path: seq<string>, done: seq<string>, after: map<string, int>)
    requires id !in path && after == colors[id := 2]
    requires forall n :: 0 <= Color(colors, n) <= 2
    requires forall n :: Color(colors, n) == 1 <==> n in path + [id]
    requires forall n :: Color(colors, n) == 2 <==> n in done
    ensures forall n :: 0 <= Color(after, n) <= 2
    ensures forall n :: Color(after, n) == 1 <==> n in path
    ensures forall n :: Color(after, n) == 2 <==> n in done + [id]
  {
    assert forall n {:trigger Color(after, n)} :: n != id ==> Color(after, n) == Color(colors, n);
    assert forall n :: n in path + [id] <==> n in path || n == id;
    assert forall n :: n in done + [id] <==> n in done || n == id;
  }

  /** The colour search over all nodes accepts exactly when no cycle avoids every bounded edge. */
  method CheckCycles(p: PipelineDefinition, index: EdgeIndex) returns (ok: bool)
    requires Indexes(index, p)
    ensures ok <==> !HasCycle(GraphOf(p, true))
  {
    var colors: map<string, int> := map[];
    ghost var done: seq<string> := [];
    ghost var g := GraphOf(p, true);
    var pending := p.nodes.Keys;
    while pending != {}
      invariant pending <= p.nodes.Keys
      invariant SearchState(g, colors, [], done)
      invariant forall id :: id in p.nodes && id !in pending ==> id in done
      decreases pending
    {
      var id :| id in pending;
      var fine: bool;
      fine, colors, done := Visit(p, index, id, colors, [], done);
      if !fine {
        return false;
      }
      pending := pending - {id};
    }
    OrderExcludesCycles(g, done);
    return true;
  }

  /** Every node of the set is reachable, and so are the successors of those not still open. */
  ghost predicate Explored(p: PipelineDefinition, r: set<string>, open: set<string>) {
    && r <= p.nodes.Keys
    && (forall n {:trigger n in r} :: n in r ==> Reaches(GraphOf(p, false), INPUT, n))
    && (forall n {:trigger Successors(p, n, false)} :: n in r && n !in open ==> Successors(p, n, false) <= r)
  }

  lemma OpenNode(p: PipelineDefinition, r: set<string>, open: set<string>, id: string)
    requires Explored(p, r, open) && id in p.nodes && Reaches(GraphOf(p, false), INPUT, id)
    ensures Explored(p, r + {id}, open + {id})
  {
    var next := r + {id};
    forall n | n in next && n !in open + {id} ensures Successors(p, n, false) <= next {
      assert n in r;
    }
  }

  lemma CloseNode(p: PipelineDefinition, r: set<string>, open: set<string>, id: string)
    requires Explored(p, r, open + {id}) && Successors(p, id, false) <= r
    ensures Explored(p, r, open)
  {
    forall n | n in r && n !in open ensures Successors(p, n, false) <= r {
      assert n == id || n !in open + {id};
    }
  }

  /** One call of the recursive reachability search; `open` are the calls still in progress. */
  method Reach(p: PipelineDefinition, index: EdgeIndex, id: string, reachable: set<string>, ghost open: set<string>)
    returns (after: set<string>)
    requires Indexes(index, p) && id in p.nodes && Reaches(GraphOf(p, false), INPUT, id)
    requires Explored(p, reachable, open)
    ensures reachable + {id} <= after && Explored(p, after, open)
    decreases p.nodes.Keys - reachable
  {
    if id in reachable {
      return reachable;
    }
    after := reachable + {id};
    OpenNode(p, reachable, open, id);
    var edges := At(index, id);
    for i := 0 to |edges|
      invariant reachable + {id} <= after && Explored(p, after, open + {id})
      invariant forall k :: 0 <= k < i ==> edges[k].to in after
    {
      IndexedEdge(p, index, id, i);
      ReachesNext(p, id, edges[i]);
      after := Reach(p, index, edges[i].to, after, open + {id});
    }
    AllIndexed(p, index, id, after);
    CloseNode(p, after, open, id);
  }

  lemma AllIndexed(p: PipelineDefinition, index: EdgeIndex, id: string, r: set<string>)
    requires Indexes(index, p) && id in p.nodes
    requires forall k :: 0 <= k < |At(index, id)| ==> At(index, id)[k].to in r
    ensures Successors(p, id, false) <= r
  {
    OutgoingMembers(p.edges, id);
    assert IndexedAt(index, p, id);
    forall m | m in Successors(p, id, false) ensures m in r {
      var e :| e in p.edges && e.from == id && e.to == m;
      assert e in At(index, id);
      var k :| 0 <= k < |At(index, id)| && At(index, id)[k] == e;
    }
  }

  lemma ReachesNext(p: PipelineDefinition, id: string, e: EdgeDefinition)
    requires e in p.edges && e.from == id && id in p.nodes && e.to in p.nodes
    requires Reaches(GraphOf(p, false), INPUT, id)
    ensures Reaches(GraphOf(p, false), INPUT, e.to)
  {
    var g := GraphOf(p, false);
    var s :| PathBetween(g, s, INPUT, id);
    assert e.to in Successors(p, id, false);
    PathSuffix(g, s, e.to);
    assert PathBetween(g, s + [e.to], INPUT, e.to);
  }

  /** A set containing the start and closed under successors holds everything on a path from it. */
  lemma {:induction false} ClosedSetHoldsPath(p: PipelineDefinition, r: set<string>, s: seq<string>, k: nat)
    requires IsPath(GraphOf(p, false), s) && s[0] in r && k < |s|
    requires forall n :: n in r ==> n in p.nodes && Successors(p, n, false) <= r
    ensures s[k] in r
  {
    if k > 0 {
      ClosedSetHoldsPath(p, r, s, k - 1);
      assert Edge(GraphOf(p, false), s[k - 1], s[k - 1 + 1]);
    }
  }

  /** The reachability pass compares sizes; it accepts exactly when every node is reachable. */
  method CheckReachable(p: PipelineDefinition, index: EdgeIndex) returns (ok: bool)
    requires Indexes(index, p) && INPUT in p.nodes
    ensures ok <==> forall id :: id in p.nodes ==> Reaches(GraphOf(p, false), INPUT, id)
  {
    ghost var g := GraphOf(p, false);
    assert PathBetween(g, [INPUT], INPUT, INPUT);
    var reachable := Reach(p, index, INPUT, {}, {});
    ok := |reachable| == |p.nodes|;
    assert |p.nodes| == |p.nodes.Keys|;
    if ok {
      if reachable != p.nodes.Keys {
        CardinalityDrops(reachable, p.nodes.Keys);
      }
    } else {
      assert reachable != p.nodes.Keys;
      ghost var missing :| missing in p.nodes.Keys && missing !in reachable;
      if Reaches(g, INPUT, missing) {
        ghost var s :| PathBetween(g, s, INPUT, missing);
        ClosedSetHoldsPath(p, reachable, s, |s| - 1);
      }
    }
  }

  /** The rules about single nodes and edges, and the index of the edges. */
  method CheckLocally(p: PipelineDefinition, extensions: set<string>, referenceOk: string -> bool)
    returns (v: Verdict, index: EdgeIndex)
    ensures v.Ok? <==> LocallyOk(p, extensions, referenceOk)
    ensures v.Ok? ==> Indexes(index, p) && INPUT in p.nodes
  {
    index := map[];
    if !HeaderOk(p) {
      return Invalid("Invalid pipeline name, graph size or boundary nodes"), index;
    }
    var nodesOk := CheckNodes(p, extensions, referenceOk);
    if !nodesOk {
      return Invalid("Invalid node"), index;
    }
    if !FullSystemOk(p) {
      return Invalid("Full-system acceptance requires agent_three browser status evidence"), index;
    }
    var edgesOk;
    edgesOk, index := IndexEdges(p);
    if !edgesOk {
      return Invalid("Invalid or duplicate edge"), index;
    }
    var fanOutOk := CheckFanOut(p, index);
    if !fanOutOk {
      return Invalid("Ambiguous outgoing edges"), index;
    }
    return Ok, index;
  }

  /** Validation accepts exactly the valid pipelines. */
  method ValidatePipeline(p: PipelineDefinition, extensions: set<string>, referenceOk: string -> bool)
    returns (v: Verdict)
    ensures v.Ok? <==> Valid(p, extensions, referenceOk)
  {
    var index;
    v, index := CheckLocally(p, extensions, referenceOk);
    if v == Ok {
      var acyclic := CheckCycles(p, index);
      if !acyclic {
        return Invalid("Cycle has no bounded edge");
      }
      var connected := CheckReachable(p, index);
      if !connected {
        return Invalid("Unreachable node");
      }
    }
  }
}
