/** Two valid pipelines whose every run fails because a fork and a join do not pair up. */
module PairingFaults {
  import opened Digraph
  import opened Pipeline
  import opened TokenMachine
  import opened TokenTree
  import opened TokenSafety
  import opened Pairing
  import opened PairingExact

  function Plain(kind: NodeKind, join: string): NodeDefinition {
    NodeDefinition(kind, "", join, "", "", "", "", 0)
  }

  function Unbounded(from: string, to: string): EdgeDefinition {
    EdgeDefinition(from, to, Empty, 0)
  }

  function From(e: EdgeDefinition, id: string): seq<EdgeDefinition> {
    if e.from == id then [e] else []
  }

  lemma {:induction false} LastEdge(edges: seq<EdgeDefinition>, e: EdgeDefinition, id: string, result: Label)
    requires e.condition.Empty?
    ensures Outgoing(edges + [e], id) == Outgoing(edges, id) + From(e, id)
    ensures Matching(edges + [e], id, result) == Matching(edges, id, result) + From(e, id)
  {
    assert (edges + [e])[..|edges|] == edges;
  }

  /** Every node has a place in the order, every edge goes down, and something leads to all but the input. */
  ghost predicate Layered(p: PipelineDefinition, order: seq<string>) {
    && Distinct(order) && (forall n :: n in p.nodes <==> n in order)
    && |order| > 0 && order[|order| - 1] == INPUT
    && (forall e :: e in p.edges ==> Down(order, e))
    && (forall i :: 0 <= i < |order| - 1 ==> Entered(p, order, i))
  }

  ghost predicate Down(order: seq<string>, e: EdgeDefinition) {
    exists i, j :: 0 <= i < j < |order| && order[i] == e.to && order[j] == e.from
  }

  ghost predicate Entered(p: PipelineDefinition, order: seq<string>, i: nat)
    requires i < |order|
  {
    exists j :: i < j < |order| && Joined(p, order[j], order[i])
  }

  ghost predicate Joined(p: PipelineDefinition, a: string, b: string) {
    exists e :: e in p.edges && e.from == a && e.to == b
  }

  lemma LayersDescend(p: PipelineDefinition, order: seq<string>)
    requires Layered(p, order)
    ensures !HasCycle(GraphOf(p, true))
  {
    var g := GraphOf(p, true);
    forall i, m | 0 <= i < |order| && m in g[order[i]] ensures m in order[..i] {
      var e :| e in p.edges && e.from == order[i] && e.to == m;
      assert Down(order, e);
      var k, j :| 0 <= k < j < |order| && order[k] == e.to && order[j] == e.from;
      assert j == i && order[..i][k] == m;
    }
    OrderExcludesCycles(g, order);
  }

  lemma {:induction false} LayersReached(p: PipelineDefinition, order: seq<string>, i: nat)
    requires Layered(p, order) && i < |order|
    ensures Reaches(GraphOf(p, false), INPUT, order[i])
    decreases |order| - i
  {
    var g := GraphOf(p, false);
    if i == |order| - 1 {
      assert PathBetween(g, [INPUT], INPUT, INPUT);
    } else {
      assert Entered(p, order, i);
      var j :| i < j < |order| && Joined(p, order[j], order[i]);
      LayersReached(p, order, j);
      var path :| PathBetween(g, path, INPUT, order[j]);
      var e :| e in p.edges && e.from == order[j] && e.to == order[i];
      assert Edge(g, order[j], order[i]);
      PathSuffix(g, path, order[i]);
      assert PathBetween(g, path + [order[i]], INPUT, order[i]);
    }
  }

  lemma LayeredValid(p: PipelineDefinition, extensions: set<string>, referenceOk: string -> bool, order: seq<string>)
    requires LocallyOk(p, extensions, referenceOk) && Layered(p, order)
    ensures Valid(p, extensions, referenceOk)
  {
    LayersDescend(p, order);
    forall id | id in p.nodes ensures Reaches(GraphOf(p, false), INPUT, id) {
      var i :| 0 <= i < |order| && order[i] == id;
      LayersReached(p, order, i);
    }
  }

  lemma {:induction false} SmallGraph(p: PipelineDefinition, order: seq<string>)
    requires forall n :: n in p.nodes ==> n in order
    ensures |p.nodes| <= |order|
    decreases |order|
  {
    if order != [] {
      var rest := p.(nodes := p.nodes - {order[0]});
      assert rest.nodes.Keys == p.nodes.Keys - {order[0]};
      forall n | n in rest.nodes ensures n in order[1..] {
      }
      SmallGraph(rest, order[1..]);
    } else {
      assert p.nodes == map[];
    }
  }

  lemma {:induction false} FreePush(p: PipelineDefinition, r: RunState, out: seq<EdgeDefinition>, i: nat)
    requires r.node in p.nodes && i <= |out| && forall e :: e in out ==> e.maxIterations == 0
    ensures PushTokens(p, r, out, i).1.Running?
    decreases |out| - i
  {
    if i < |out| {
      var n := p.nodes[r.node];
      var frames := if n.kind.Parallel? then r.frames + [Frame(r.nextGroup, n.join, |out|, i)] else r.frames;
      FreePush(p, r.(ready := r.ready + [Token(out[i].to, r.message, frames)]), out, i + 1);
    }
  }

  lemma FreeRun(p: PipelineDefinition, b: Behaviour, r: RunState, result: Label)
    requires r.node in p.nodes && r.ready == [] && !p.nodes[r.node].kind.Output? && result == Executed(b, r).1
    requires var out := Matching(p.edges, r.node, result);
             && 0 < |out| <= 16 && (!p.nodes[r.node].kind.Parallel? ==> |out| == 1)
             && forall e :: e in out ==> e.maxIterations == 0
    ensures RunNode(p, b, r).1.Running?
  {
    var ran := Executed(b, r).0;
    var out := Matching(p.edges, r.node, result);
    FreePush(p, ran, out, 0);
    PushResult(p, ran, out, 0);
    PushedLand(p, ran, out, 0);
  }

  /** Without edge limits the input or a fork always moves on. */
  lemma FreePass(p: PipelineDefinition, extensions: set<string>, referenceOk: string -> bool, b: Behaviour, r: RunState)
    returns (result: Label, pushed: seq<Token>)
    requires LocallyOk(p, extensions, referenceOk) && r.node in p.nodes && r.preparedJoin == "" && r.ready == []
    requires p.nodes[r.node].kind.Input? || p.nodes[r.node].kind.Parallel?
    requires forall e :: e in p.edges ==> e.maxIterations == 0
    ensures Step(p, b, r).1.Running? && Step(p, b, r).0.preparedJoin == ""
    ensures Moves(p, r, Step(p, b, r).0, result, pushed)
  {
    NodeFacts(p, extensions, referenceOk, r.node);
    NodeNamed(p, extensions, referenceOk, r.node);
    result := Executed(b, r).1;
    RoutingDetermined(p, r.node, result);
    MatchingMembers(p.edges, r.node, result);
    FreeRun(p, b, r, result);
    pushed := MovingPass(p, b, r, r, result);
  }

  /** The first pass hands the message to the input's successor. */
  lemma InputPass(p: PipelineDefinition, extensions: set<string>, referenceOk: string -> bool, b: Behaviour,
                  message: Value, e: EdgeDefinition) returns (next: RunState)
    requires LocallyOk(p, extensions, referenceOk) && forall e :: e in p.edges ==> e.maxIterations == 0
    requires forall result :: Matching(p.edges, INPUT, result) == [e]
    ensures Continues(p, b, Initial(message), next) && next.preparedJoin == ""
    ensures next.node == e.to && next.frames == [] && next.ready == [] && next.joins == map[]
  {
    var first := Initial(message);
    assert HeaderOk(p);
    var result, pushed := FreePass(p, extensions, referenceOk, b, first);
    next := Step(p, b, first).0;
    assert Landed(p, INPUT, Left(p, first), 0, Matching(p.edges, INPUT, result), pushed[0], 0);
    assert Tokens(next) == [pushed[0]] && Tokens(next)[0] == pushed[0];
  }

  /** A fork of two outside any group puts one branch in each of its two places. */
  lemma ForkPass(p: PipelineDefinition, extensions: set<string>, referenceOk: string -> bool, b: Behaviour, r: RunState,
                 e: EdgeDefinition, f: EdgeDefinition) returns (next: RunState)
    requires LocallyOk(p, extensions, referenceOk) && forall e :: e in p.edges ==> e.maxIterations == 0
    requires r.node in p.nodes && p.nodes[r.node].kind.Parallel?
    requires forall result :: Matching(p.edges, r.node, result) == [e, f]
    requires r.preparedJoin == "" && r.frames == [] && r.ready == [] && r.joins == map[]
    ensures Continues(p, b, r, next) && next.preparedJoin == "" && next.joins == map[]
    ensures next.node == e.to && next.frames == [Frame(r.nextGroup, p.nodes[r.node].join, 2, 0)]
    ensures |next.ready| == 1 && next.ready[0].node == f.to && next.ready[0].frames != []
  {
    var result, pushed := FreePass(p, extensions, referenceOk, b, r);
    next := Step(p, b, r).0;
    var out := Matching(p.edges, r.node, result);
    assert Landed(p, r.node, Left(p, r), r.nextGroup, out, pushed[0], 0);
    assert Landed(p, r.node, Left(p, r), r.nextGroup, out, pushed[1], 1);
    assert Tokens(next) == pushed && Tokens(next)[0] == pushed[0] && Tokens(next)[1] == pushed[1] == next.ready[0];
  }

  /** The run of the pipeline on the message ends with the fault, after the states listed. */
  ghost predicate FailsWith(p: PipelineDefinition, b: Behaviour, message: Value, s: seq<RunState>, fault: Fault) {
    Trace(p, b, message, s) && Ends(p, b, s[|s| - 1], Failed(fault))
  }

  ghost predicate Fails(p: PipelineDefinition, b: Behaviour, message: Value, fault: Fault) {
    exists s :: FailsWith(p, b, message, s, fault)
  }

  // ---- A join no fork leads to: input -> join -> output ----

  function Loose(): PipelineDefinition {
    PipelineDefinition("loose", 1, 1, 10,
                       map[INPUT := Plain(Input, ""), "join" := Plain(Join, ""), OUTPUT := Plain(Output, "")],
                       [Unbounded(INPUT, "join")] + [Unbounded("join", OUTPUT)])
  }

  lemma LooseEdges(id: string, result: Label)
    ensures Outgoing(Loose().edges, id) == From(Unbounded(INPUT, "join"), id) + From(Unbounded("join", OUTPUT), id)
    ensures Matching(Loose().edges, id, result) == Outgoing(Loose().edges, id)
  {
    var a, b := Unbounded(INPUT, "join"), Unbounded("join", OUTPUT);
    LastEdge([], a, id, result);
    LastEdge([a], b, id, result);
    assert [] + [a] == [a];
  }

  lemma LooseMatching()
    ensures forall result :: Matching(Loose().edges, INPUT, result) == [Unbounded(INPUT, "join")]
  {
    forall result ensures Matching(Loose().edges, INPUT, result) == [Unbounded(INPUT, "join")] {
      LooseEdges(INPUT, result);
    }
  }

  lemma LooseHeader()
    ensures HeaderOk(Loose()) && FullSystemOk(Loose())
  {
    assert Loose().nodes.Keys == {INPUT, "join", OUTPUT};
    SmallGraph(Loose(), [OUTPUT, "join", INPUT]);
  }

  lemma LooseNodes(extensions: set<string>, referenceOk: string -> bool, id: string)
    requires id in Loose().nodes
    ensures NodeOk(Loose(), extensions, referenceOk, id)
  {
  }

  lemma LooseLocal(extensions: set<string>, referenceOk: string -> bool)
    ensures LocallyOk(Loose(), extensions, referenceOk)
  {
    var p := Loose();
    LooseHeader();
    LooseWired();
    forall id | id in p.nodes ensures NodeOk(p, extensions, referenceOk, id) {
      LooseNodes(extensions, referenceOk, id);
    }
    forall id | id in p.nodes && id != OUTPUT ensures FanOutOk(p.nodes[id].kind, Outgoing(p.edges, id)) {
      LooseFanOut(id);
    }
  }

  lemma LooseFanOut(id: string)
    requires id in Loose().nodes && id != OUTPUT
    ensures FanOutOk(Loose().nodes[id].kind, Outgoing(Loose().edges, id))
  {
    LooseEdges(id, Empty);
  }

  lemma LooseWired()
    ensures (forall e :: e in Loose().edges ==> EdgeOk(Loose(), e)) && NoDuplicateEdges(Loose().edges)
  {
  }

  lemma LooseLayered()
    ensures Layered(Loose(), [OUTPUT, "join", INPUT])
  {
    var p := Loose();
    var order := [OUTPUT, "join", INPUT];
    var a, b := p.edges[0], p.edges[1];
    assert order[1] == a.to && order[2] == a.from && order[0] == b.to && order[1] == b.from;
    assert Down(order, a) && Down(order, b);
    assert Joined(p, order[1], order[0]) && Joined(p, order[2], order[1]);
    assert Entered(p, order, 0) && Entered(p, order, 1);
  }

  lemma LooseValid(extensions: set<string>, referenceOk: string -> bool)
    ensures Valid(Loose(), extensions, referenceOk)
  {
    LooseLocal(extensions, referenceOk);
    LooseLayered();
    LayeredValid(Loose(), extensions, referenceOk, [OUTPUT, "join", INPUT]);
  }

  lemma LooseRun(p: PipelineDefinition, b: Behaviour, message: Value, next: RunState)
    requires Continues(p, b, Initial(message), next) && next.node in p.nodes && p.nodes[next.node].kind.Join?
    requires next.node != "" && next.preparedJoin == "" && next.frames == []
    ensures FailsWith(p, b, message, [Initial(message), next], JoinOutsideGroup)
  {
  }

  ghost predicate Loosens(p: PipelineDefinition, e: EdgeDefinition) {
    && (forall e :: e in p.edges ==> e.maxIterations == 0)
    && (forall result :: Matching(p.edges, INPUT, result) == [e])
    && AtJoin(p, e.to) && e.to != ""
  }

  lemma LooseLoosens()
    ensures Loosens(Loose(), Unbounded(INPUT, "join"))
  {
    LooseMatching();
  }

  lemma LoosensFails(p: PipelineDefinition, extensions: set<string>, referenceOk: string -> bool, b: Behaviour,
                     message: Value, e: EdgeDefinition)
    requires LocallyOk(p, extensions, referenceOk) && Loosens(p, e)
    ensures Fails(p, b, message, JoinOutsideGroup)
  {
    var next := InputPass(p, extensions, referenceOk, b, message, e);
    LooseRun(p, b, message, next);
  }

  /** The pipeline is valid, and whatever its nodes do its second pass finds the join outside its group. */
  lemma JoinOutsideGroupPossible(extensions: set<string>, referenceOk: string -> bool, b: Behaviour, message: Value)
    ensures Valid(Loose(), extensions, referenceOk) && Fails(Loose(), b, message, JoinOutsideGroup)
  {
    var p := Loose();
    LooseLocal(extensions, referenceOk);
    LooseLoosens();
    LooseValid(extensions, referenceOk);
    LoosensFails(p, extensions, referenceOk, b, message, Unbounded(INPUT, "join"));
  }

  // ---- A branch that leaves its group: fork -> join and fork -> output ----

  function Leaky(): PipelineDefinition {
    PipelineDefinition("leaky", 1, 1, 10,
                       map[INPUT := Plain(Input, ""), "fork" := Plain(Parallel, "join"), "join" := Plain(Join, ""),
                           OUTPUT := Plain(Output, "")],
                       [Unbounded(INPUT, "fork")] + [Unbounded("fork", "join")] + [Unbounded("fork", OUTPUT)] +
                       [Unbounded("join", OUTPUT)])
  }

  lemma LeakyEdges(id: string, result: Label)
    ensures Outgoing(Leaky().edges, id) ==
            From(Unbounded(INPUT, "fork"), id) + From(Unbounded("fork", "join"), id) +
            From(Unbounded("fork", OUTPUT), id) + From(Unbounded("join", OUTPUT), id)
    ensures Matching(Leaky().edges, id, result) == Outgoing(Leaky().edges, id)
  {
    var a, b := Unbounded(INPUT, "fork"), Unbounded("fork", "join");
    var c, d := Unbounded("fork", OUTPUT), Unbounded("join", OUTPUT);
    LastEdge([], a, id, result);
    LastEdge([a], b, id, result);
    LastEdge([a] + [b], c, id, result);
    LastEdge([a] + [b] + [c], d, id, result);
    assert [] + [a] == [a];
  }

  lemma LeakyMatching()
    ensures forall result :: Matching(Leaky().edges, INPUT, result) == [Unbounded(INPUT, "fork")]
    ensures forall result ::
              Matching(Leaky().edges, "fork", result) == [Unbounded("fork", "join"), Unbounded("fork", OUTPUT)]
  {
    forall result ensures Matching(Leaky().edges, INPUT, result) == [Unbounded(INPUT, "fork")] {
      LeakyEdges(INPUT, result);
    }
    forall result
      ensures Matching(Leaky().edges, "fork", result) == [Unbounded("fork", "join"), Unbounded("fork", OUTPUT)]
    {
      LeakyEdges("fork", result);
    }
  }

  lemma LeakyHeader()
    ensures HeaderOk(Leaky()) && FullSystemOk(Leaky())
  {
    assert Leaky().nodes.Keys == {INPUT, "fork", "join", OUTPUT};
    SmallGraph(Leaky(), [OUTPUT, "join", "fork", INPUT]);
  }

  lemma LeakyNodes(extensions: set<string>, referenceOk: string -> bool, id: string)
    requires id in Leaky().nodes
    ensures NodeOk(Leaky(), extensions, referenceOk, id)
  {
  }

  lemma LeakyLocal(extensions: set<string>, referenceOk: string -> bool)
    ensures LocallyOk(Leaky(), extensions, referenceOk)
  {
    var p := Leaky();
    LeakyHeader();
    LeakyWired();
    forall id | id in p.nodes ensures NodeOk(p, extensions, referenceOk, id) {
      LeakyNodes(extensions, referenceOk, id);
    }
    forall id | id in p.nodes && id != OUTPUT ensures FanOutOk(p.nodes[id].kind, Outgoing(p.edges, id)) {
      LeakyFanOut(id);
    }
  }

  lemma LeakyFanOut(id: string)
    requires id in Leaky().nodes && id != OUTPUT
    ensures FanOutOk(Leaky().nodes[id].kind, Outgoing(Leaky().edges, id))
  {
    LeakyEdges(id, Empty);
  }

  lemma LeakyWired()
    ensures (forall e :: e in Leaky().edges ==> EdgeOk(Leaky(), e)) && NoDuplicateEdges(Leaky().edges)
  {
  }

  lemma LeakyDown()
    ensures forall e :: e in Leaky().edges ==> Down([OUTPUT, "join", "fork", INPUT], e)
  {
    var order := [OUTPUT, "join", "fork", INPUT];
    assert order[0] == OUTPUT && order[1] == "join" && order[2] == "fork" && order[3] == INPUT;
    assert Down(order, Unbounded(INPUT, "fork")) && Down(order, Unbounded("fork", "join"));
    assert Down(order, Unbounded("fork", OUTPUT)) && Down(order, Unbounded("join", OUTPUT));
  }

  lemma LeakyJoined(i: nat)
    requires i < 4
    ensures Joined(Leaky(), Leaky().edges[i].from, Leaky().edges[i].to)
  {
    assert Leaky().edges[i] in Leaky().edges;
  }

  lemma LeakyEntered(i: nat)
    requires i < 3
    ensures Entered(Leaky(), [OUTPUT, "join", "fork", INPUT], i)
  {
    var order := [OUTPUT, "join", "fork", INPUT];
    LeakyJoined(if i == 2 then 0 else if i == 1 then 1 else 3);
    assert Joined(Leaky(), order[i + 1], order[i]);
  }

  lemma LeakyListed()
    ensures Distinct([OUTPUT, "join", "fork", INPUT])
    ensures forall n :: n in Leaky().nodes <==> n in [OUTPUT, "join", "fork", INPUT]
  {
  }

  lemma LeakyLayered()
    ensures Layered(Leaky(), [OUTPUT, "join", "fork", INPUT])
  {
    LeakyListed();
    LeakyDown();
    LeakyEntered(0);
    LeakyEntered(1);
    LeakyEntered(2);
  }

  lemma LeakyValid(extensions: set<string>, referenceOk: string -> bool)
    ensures Valid(Leaky(), extensions, referenceOk)
  {
    LeakyLocal(extensions, referenceOk);
    LeakyLayered();
    LayeredValid(Leaky(), extensions, referenceOk, [OUTPUT, "join", "fork", INPUT]);
  }

  /** The first branch waits at the join and the second is taken up. */
  lemma WaitPass(p: PipelineDefinition, b: Behaviour, r: RunState) returns (next: RunState)
    requires AtJoin(p, r.node) && r.node != "" && r.preparedJoin == "" && |r.frames| == 1 && r.joins == map[]
    requires r.frames[0].join == r.node && r.frames[0].width == 2 && |r.ready| == 1
    ensures Continues(p, b, r, next) && next.preparedJoin == ""
    ensures next.node == r.ready[0].node && next.frames == r.ready[0].frames
  {
    var all: map<nat, Value> := map[];
    all := all[r.frames[0].index := r.message];
    assert |all| == 1;
    next := Step(p, b, r).0;
  }

  lemma LeakyRun(p: PipelineDefinition, b: Behaviour, message: Value, fork: RunState, join: RunState, last: RunState)
    requires Continues(p, b, Initial(message), fork) && Continues(p, b, fork, join) && Continues(p, b, join, last)
    requires last.node in p.nodes && p.nodes[last.node].kind.Output? && last.frames != []
    ensures FailsWith(p, b, message, [Initial(message), fork, join, last], NotConverged)
  {
  }

  /** The input feeds a fork whose first branch waits at the fork's join and whose second is at the output. */
  ghost predicate Leaks(p: PipelineDefinition, e: EdgeDefinition, f: EdgeDefinition, g: EdgeDefinition) {
    && (forall e :: e in p.edges ==> e.maxIterations == 0)
    && (forall result :: Matching(p.edges, INPUT, result) == [e])
    && (forall result :: Matching(p.edges, e.to, result) == [f, g])
    && e.to in p.nodes && p.nodes[e.to].kind.Parallel? && p.nodes[e.to].join == f.to
    && AtJoin(p, f.to) && f.to != "" && g.to in p.nodes && p.nodes[g.to].kind.Output?
  }

  lemma LeakyLeaks()
    ensures Leaks(Leaky(), Unbounded(INPUT, "fork"), Unbounded("fork", "join"), Unbounded("fork", OUTPUT))
  {
    LeakyMatching();
  }

  lemma LeaksFails(p: PipelineDefinition, extensions: set<string>, referenceOk: string -> bool, b: Behaviour,
                   message: Value, e: EdgeDefinition, f: EdgeDefinition, g: EdgeDefinition)
    requires LocallyOk(p, extensions, referenceOk) && Leaks(p, e, f, g)
    ensures Fails(p, b, message, NotConverged)
  {
    var fork := InputPass(p, extensions, referenceOk, b, message, e);
    var join := ForkPass(p, extensions, referenceOk, b, fork, f, g);
    var last := WaitPass(p, b, join);
    LeakyRun(p, b, message, fork, join, last);
  }

  /** The pipeline is valid, and whatever its nodes do its run reaches the output inside an open group. */
  lemma NotConvergedPossible(extensions: set<string>, referenceOk: string -> bool, b: Behaviour, message: Value)
    ensures Valid(Leaky(), extensions, referenceOk) && Fails(Leaky(), b, message, NotConverged)
  {
    var p := Leaky();
    LeakyLocal(extensions, referenceOk);
    LeakyLeaks();
    LeakyValid(extensions, referenceOk);
    LeaksFails(p, extensions, referenceOk, b, message, Unbounded(INPUT, "fork"), Unbounded("fork", "join"),
               Unbounded("fork", OUTPUT));
  }
}
