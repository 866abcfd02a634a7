/**
 * Why the agreement of the three joins asks for separated branches: a valid pipeline with a node
 * that counts its visits and lies on both branches of a fork. The walk counts the visits of all
 * branches together, a branch on its own counts from zero.
 */
module VisitCounts {
  import opened Digraph
  import opened Pipeline
  import opened TokenMachine
  import opened TokenTree
  import opened TokenSafety
  import opened Branches
  import opened Joins
  import opened PairingFaults
  import opened JoinAgreement
  import C = ConcurrentBranches
  import W = NodeWork
  import R = Reconciliation

  function Computes(binding: string): NodeDefinition {
    NodeDefinition(Function, binding, "", "", "", "", "", 0)
  }

  /** The copying branch passes the counting node second. */
  function Counting(): PipelineDefinition {
    PipelineDefinition(
      "counting", 1, 1, 10,
      map[INPUT := Plain(Input, ""), "fork" := Plain(Parallel, "join"), "copy" := Computes("copy"),
          "count" := Computes("count"), "join" := Plain(Join, ""), OUTPUT := Plain(Output, "")],
      [Unbounded(INPUT, "fork")] + [Unbounded("fork", "count")] + [Unbounded("fork", "copy")] +
      [Unbounded("copy", "count")] + [Unbounded("count", "join")] + [Unbounded("join", OUTPUT)])
  }

  const ONE := Data("1")
  const TWO := Data("2")

  /** Every node hands its input on, but the counting node answers with the number of the visit. */
  function Counter(): Behaviour {
    (node, visit, m) => (if node != "count" then m else if visit == 1 then ONE else TWO, Empty)
  }

  lemma CountingEdges(id: string, result: Label)
    ensures Outgoing(Counting().edges, id) ==
            From(Unbounded(INPUT, "fork"), id) + From(Unbounded("fork", "count"), id) +
            From(Unbounded("fork", "copy"), id) + From(Unbounded("copy", "count"), id) +
            From(Unbounded("count", "join"), id) + From(Unbounded("join", OUTPUT), id)
    ensures Matching(Counting().edges, id, result) == Outgoing(Counting().edges, id)
  {
    var a, b, c := Unbounded(INPUT, "fork"), Unbounded("fork", "count"), Unbounded("fork", "copy");
    var d, e, f := Unbounded("copy", "count"), Unbounded("count", "join"), Unbounded("join", OUTPUT);
    LastEdge([], a, id, result);
    assert [] + [a] == [a];
    LastEdge([a], b, id, result);
    LastEdge([a] + [b], c, id, result);
    LastEdge([a] + [b] + [c], d, id, result);
    LastEdge([a] + [b] + [c] + [d], e, id, result);
    LastEdge([a] + [b] + [c] + [d] + [e], f, id, result);
  }

  // ---- The pipeline is valid ----

  function Order(): seq<string> {
    [OUTPUT, "join", "count", "copy", "fork", INPUT]
  }

  lemma CountingHeader()
    ensures HeaderOk(Counting()) && FullSystemOk(Counting())
  {
    SmallGraph(Counting(), Order());
  }

  lemma CountingNodes(extensions: set<string>, referenceOk: string -> bool, id: string)
    requires id in Counting().nodes
    ensures NodeOk(Counting(), extensions, referenceOk, id)
  {
  }

  lemma CountingWired()
    ensures forall e :: e in Counting().edges ==> EdgeOk(Counting(), e)
  {
  }

  lemma CountingNoDuplicates()
    ensures NoDuplicateEdges(Counting().edges)
  {
    var edges := Counting().edges;
    assert edges[0].from == INPUT && edges[1].from == "fork" && edges[2].from == "fork" && edges[3].from == "copy";
    assert edges[4].from == "count" && edges[5].from == "join" && edges[1].to != edges[2].to;
  }

  lemma CountingFanOut(id: string)
    requires id in Counting().nodes && id != OUTPUT
    ensures FanOutOk(Counting().nodes[id].kind, Outgoing(Counting().edges, id))
  {
    CountingEdges(id, Empty);
  }

  lemma CountingLocal(extensions: set<string>, referenceOk: string -> bool)
    ensures LocallyOk(Counting(), extensions, referenceOk)
  {
    var p := Counting();
    CountingHeader();
    CountingWired();
    CountingNoDuplicates();
    forall id | id in p.nodes ensures NodeOk(p, extensions, referenceOk, id) {
      CountingNodes(extensions, referenceOk, id);
    }
    forall id | id in p.nodes && id != OUTPUT ensures FanOutOk(p.nodes[id].kind, Outgoing(p.edges, id)) {
      CountingFanOut(id);
    }
  }

  lemma CountingListed()
    ensures Distinct(Order()) && forall n :: n in Counting().nodes <==> n in Order()
  {
  }

  lemma CountingDown(e: EdgeDefinition)
    requires e in Counting().edges
    ensures Down(Order(), e)
  {
    var order := Order();
    assert order[0] == OUTPUT && order[1] == "join" && order[2] == "count" && order[3] == "copy";
    assert order[4] == "fork" && order[5] == INPUT;
  }

  lemma CountingEntered(i: nat)
    requires i < 5
    ensures Entered(Counting(), Order(), i)
  {
    var edges := Counting().edges;
    var e := edges[if i == 0 then 5 else if i == 1 then 4 else if i == 2 then 3 else if i == 3 then 2 else 0];
    assert e in edges && e.to == Order()[i];
    assert Joined(Counting(), e.from, e.to);
    assert e.from == Order()[i + 1];
  }

  lemma CountingValid(extensions: set<string>, referenceOk: string -> bool)
    ensures Valid(Counting(), extensions, referenceOk)
  {
    CountingLocal(extensions, referenceOk);
    CountingListed();
    forall e | e in Counting().edges ensures Down(Order(), e) {
      CountingDown(e);
    }
    forall i | 0 <= i < |Order()| - 1 ensures Entered(Counting(), Order(), i) {
      CountingEntered(i);
    }
    LayeredValid(Counting(), extensions, referenceOk, Order());
  }

  // ---- The walk ----

  /** A node with one unbounded edge out hands its answer to the end of the ready list. */
  lemma PlainStep(p: PipelineDefinition, b: Behaviour, r: RunState, e: EdgeDefinition, m: Value)
    requires r.node in p.nodes && (p.nodes[r.node].kind.Input? || p.nodes[r.node].kind.Function?)
    requires (forall result :: Matching(p.edges, r.node, result) == [e]) && e.maxIterations == 0 && |r.ready| < 256
    requires m == b(r.node, Count(r.nodeVisits, r.node) + 1, r.message).0
    ensures Step(p, b, r) == (NextReady(Sent(r, m, [Token(e.to, m, r.frames)])), Running)
  {
    var ran := Executed(b, r).0;
    assert Matching(p.edges, r.node, Executed(b, r).1) == [e];
    FreePush(p, ran, [e], 0);
    PushResult(p, ran, [e], 0);
    assert Pushed(p, ran, [e], 0) == [Token(e.to, m, r.frames)];
    PushedEdges(p, ran, [e], 0);
  }

  /** A fork of two puts a token on each of its edges. */
  lemma ForkStep(p: PipelineDefinition, b: Behaviour, r: RunState, e: EdgeDefinition, f: EdgeDefinition, m: Value)
    requires r.node in p.nodes && p.nodes[r.node].kind.Parallel?
    requires (forall result :: Matching(p.edges, r.node, result) == [e, f]) && |r.ready| < 255
    requires e.maxIterations == 0 && f.maxIterations == 0
    requires m == b(r.node, Count(r.nodeVisits, r.node) + 1, r.message).0
    ensures Step(p, b, r) == (NextReady(Sent(r, m, Branched(r, p.nodes[r.node].join, m, e, f))), Running)
  {
    var ran := Executed(b, r).0;
    var out := Matching(p.edges, r.node, Executed(b, r).1);
    FreePush(p, ran, out, 0);
    PushResult(p, ran, out, 0);
    PushedIsFork(p, ran, out, 0);
    assert Pushed(p, ran, out, 0) == Branched(r, p.nodes[r.node].join, m, e, f);
    PushedEdges(p, ran, out, 0);
  }

  function Branched(r: RunState, join: string, m: Value, e: EdgeDefinition, f: EdgeDefinition): seq<Token> {
    [Token(e.to, m, r.frames + [Frame(r.nextGroup, join, 2, 0)]),
     Token(f.to, m, r.frames + [Frame(r.nextGroup, join, 2, 1)])]
  }

  /** The state after a node answered and its tokens were pushed. */
  function Sent(r: RunState, m: Value, tokens: seq<Token>): RunState {
    r.(message := m, nodeVisits := r.nodeVisits[r.node := Count(r.nodeVisits, r.node) + 1],
       ready := r.ready + tokens, nextGroup := r.nextGroup + 1)
  }

  lemma {:induction false} PushedEdges(p: PipelineDefinition, r: RunState, out: seq<EdgeDefinition>, i: nat)
    requires r.node in p.nodes && i <= |out| && forall e :: e in out ==> e.maxIterations == 0
    ensures PushTokens(p, r, out, i).0.edgeVisits == r.edgeVisits
    decreases |out| - i
  {
    if i < |out| {
      var n := p.nodes[r.node];
      var frames := if n.kind.Parallel? then r.frames + [Frame(r.nextGroup, n.join, |out|, i)] else r.frames;
      PushedEdges(p, r.(ready := r.ready + [Token(out[i].to, r.message, frames)]), out, i + 1);
    }
  }

  function Point(node: string, message: Value, frames: seq<Frame>, ready: seq<Token>, joins: map<nat, map<nat, Value>>,
                 visits: map<string, nat>, group: nat): RunState
  {
    RunState(node, message, frames, ready, joins, map[], visits, "", group)
  }

  function Place0(i: nat): seq<Frame> {
    [Frame(1, "join", 2, i)]
  }

  /** The states of the walk, up to the arrival that completes the join. */
  function Walk(m: Value): seq<RunState> {
    var v1 := map[INPUT := 1];
    var v2 := v1["fork" := 1];
    var v3 := v2["count" := 1];
    var v4 := v3["copy" := 1];
    var waiting: map<nat, map<nat, Value>> := map[1 := map[0 := ONE]];
    [Initial(m),
     Point("fork", m, [], [], map[], v1, 1),
     Point("count", m, Place0(0), [Token("copy", m, Place0(1))], map[], v2, 2),
     Point("copy", m, Place0(1), [Token("join", ONE, Place0(0))], map[], v3, 3),
     Point("join", ONE, Place0(0), [Token("count", m, Place0(1))], map[], v4, 4),
     Point("count", m, Place0(1), [], waiting, v4, 4),
     Point("join", TWO, Place0(1), [], waiting, v4["count" := 2], 5)]
  }

  lemma OneEdge(id: string, e: EdgeDefinition)
    requires Outgoing(Counting().edges, id) == [e]
    ensures forall result :: Matching(Counting().edges, id, result) == [e]
  {
    forall result ensures Matching(Counting().edges, id, result) == [e] {
      CountingEdges(id, result);
    }
  }

  lemma InputGoes(m: Value)
    ensures Step(Counting(), Counter(), Walk(m)[0]) == (Walk(m)[1], Running)
  {
    var e := Unbounded(INPUT, "fork");
    CountingEdges(INPUT, Empty);
    OneEdge(INPUT, e);
    PlainStep(Counting(), Counter(), Walk(m)[0], e, m);
    assert Sent(Walk(m)[0], m, [Token("fork", m, [])]).ready[1..] == Walk(m)[1].ready;
    assert Walk(m)[1].nodeVisits == Walk(m)[0].nodeVisits[INPUT := 1];
  }

  lemma ForkGoes(m: Value)
    ensures Step(Counting(), Counter(), Walk(m)[1]) == (Walk(m)[2], Running)
  {
    var e, f := Unbounded("fork", "count"), Unbounded("fork", "copy");
    forall result ensures Matching(Counting().edges, "fork", result) == [e, f] {
      CountingEdges("fork", result);
    }
    ForkStep(Counting(), Counter(), Walk(m)[1], e, f, m);
    assert [] + Place0(0) == Place0(0) && [] + Place0(1) == Place0(1);
    assert Sent(Walk(m)[1], m, Branched(Walk(m)[1], "join", m, e, f)).ready[1..] == Walk(m)[2].ready;
  }

  lemma CountGoes(m: Value)
    ensures Step(Counting(), Counter(), Walk(m)[2]) == (Walk(m)[3], Running)
    ensures Step(Counting(), Counter(), Walk(m)[5]) == (Walk(m)[6], Running)
  {
    var e := Unbounded("count", "join");
    CountingEdges("count", Empty);
    OneEdge("count", e);
    PlainStep(Counting(), Counter(), Walk(m)[2], e, ONE);
    assert Sent(Walk(m)[2], ONE, [Token("join", ONE, Place0(0))]).ready[1..] == Walk(m)[3].ready;
    PlainStep(Counting(), Counter(), Walk(m)[5], e, TWO);
    assert Sent(Walk(m)[5], TWO, [Token("join", TWO, Place0(1))]).ready[1..] == Walk(m)[6].ready;
  }

  lemma CopyGoes(m: Value)
    ensures Step(Counting(), Counter(), Walk(m)[3]) == (Walk(m)[4], Running)
  {
    var e := Unbounded("copy", "count");
    CountingEdges("copy", Empty);
    OneEdge("copy", e);
    PlainStep(Counting(), Counter(), Walk(m)[3], e, m);
    assert Sent(Walk(m)[3], m, [Token("count", m, Place0(1))]).ready[1..] == Walk(m)[4].ready;
  }

  lemma JoinWaits(m: Value)
    ensures Step(Counting(), Counter(), Walk(m)[4]) == (Walk(m)[5], Running)
  {
    var all: map<nat, Value> := map[0 := ONE];
    assert |all| == 1;
    assert Walk(m)[4].ready[1..] == Walk(m)[5].ready && Walk(m)[4].joins[1 := all] == Walk(m)[5].joins;
  }

  lemma WalkGoes(m: Value, i: nat)
    requires i < 6
    ensures Continues(Counting(), Counter(), Walk(m)[i], Walk(m)[i + 1])
  {
    match i
    case 0 => InputGoes(m);
    case 1 => ForkGoes(m);
    case 3 => CopyGoes(m);
    case 4 => JoinWaits(m);
    case _ => CountGoes(m);
  }

  lemma WalkRuns(m: Value)
    ensures Trace(Counting(), Counter(), m, Walk(m))
  {
    var s := Walk(m);
    forall i, j | 0 <= i && j == i + 1 && j < |s| ensures Continues(Counting(), Counter(), s[i], s[j]) {
      WalkGoes(m, i);
    }
  }

  lemma ArrivalCompletes(m: Value)
    ensures Completes(Counting(), Walk(m)[6])
    ensures PrepareJoin(Counting(), Walk(m)[6]).0.message == Array([ONE, TWO])
  {
    var all: map<nat, Value> := map[0 := ONE, 1 := TWO];
    assert all.Keys == {0, 1} && |all| == |all.Keys| == 2;
    AscendingRange(all, 0, 2);
    assert Ascending(all) == [ONE, TWO];
    assert map[0 := ONE][1 := TWO] == all;
  }

  // ---- The branches on their own ----

  lemma CountRoutes(c: Walker)
    requires c.node == "count"
    ensures Route(Counting(), Counter(), c) ==
            To(Walker("join", if Count(c.visits, "count") == 0 then ONE else TWO,
                      c.visits["count" := Count(c.visits, "count") + 1]))
  {
    CountingEdges("count", Empty);
  }

  lemma CopyRoutes(c: Walker)
    requires c.node == "copy"
    ensures Route(Counting(), Counter(), c) ==
            To(Walker("count", c.message, c.visits["copy" := Count(c.visits, "copy") + 1]))
  {
    CountingEdges("copy", Empty);
  }

  /** From the counting node a branch goes to the join and no further. */
  lemma CountTravels(c: Walker, k: nat, d: Walker)
    requires c.node == "count" && Travels(Counting(), Counter(), c, k, d)
    ensures d.node == "count" || d.node == "join"
  {
    CountRoutes(c);
  }

  lemma CopyTravels(c: Walker, k: nat, d: Walker)
    requires c.node == "copy" && Travels(Counting(), Counter(), c, k, d)
    ensures d.node == "copy" || d.node == "count" || d.node == "join"
  {
    CopyRoutes(c);
    if k > 0 {
      CountTravels(Route(Counting(), Counter(), c).walker, k - 1, d);
    }
  }

  /** Where the two branches start. */
  function Ways(m: Value): seq<Place> {
    [Place("count", m), Place("copy", m)]
  }

  lemma WaysAreStarts(m: Value)
    ensures BranchStarts(Counting(), Counter(), Walk(m)[1]) == Ways(m)
  {
    CountingEdges("fork", Empty);
  }

  lemma WaysPlain(m: Value)
    ensures PlainBranches(Counting(), Counter(), Ways(m), "join")
  {
    var starts := Ways(m);
    forall i, n | 0 <= i < |starts| && OnPath(Counting(), Counter(), starts[i], n) && n in Counting().nodes
      ensures !Counting().nodes[n].kind.Parallel? && (Counting().nodes[n].kind.Join? ==> n == "join")
    {
      var k, d :| Travels(Counting(), Counter(), Starting(starts[i]), k, d) && d.node == n;
      if i == 0 {
        CountTravels(Starting(starts[i]), k, d);
      } else {
        CopyTravels(Starting(starts[i]), k, d);
      }
    }
  }

  lemma CountDelivers(c: Walker) returns (d: Walker)
    requires c.node == "count" && Count(c.visits, "count") == 0
    ensures d.node == "join" && d.message == ONE && Travels(Counting(), Counter(), c, 1, d)
  {
    CountRoutes(c);
    d := Route(Counting(), Counter(), c).walker;
    assert Travels(Counting(), Counter(), d, 0, d);
  }

  /** Each branch on its own visits the counting node for the first time. */
  lemma BothDeliverOne(m: Value)
    ensures JoinedArray(Counting(), Counter(), Ways(m), "join", [ONE, ONE])
  {
    var p, b := Counting(), Counter();
    var first, second := Ways(m)[0], Ways(m)[1];
    var d := CountDelivers(Starting(first));
    assert Delivers(p, b, first, 1, "join", ONE);
    CopyRoutes(Starting(second));
    var next := Route(p, b, Starting(second)).walker;
    var e := CountDelivers(next);
    assert Travels(p, b, Starting(second), 2, Walker("join", ONE, e.visits));
    assert Delivers(p, b, second, 2, "join", ONE);
  }

  lemma TokensInOrder(m: Value)
    ensures C.InOrder(ForkedTokens(Counting(), Counter(), Walk(m)[1]), Ways(m))
  {
    var p, b, r := Counting(), Counter(), Walk(m)[1];
    var ran, result := Executed(b, r).0, Executed(b, r).1;
    CountingEdges("fork", result);
    var out := Matching(p.edges, "fork", result);
    assert out == [Unbounded("fork", "count"), Unbounded("fork", "copy")];
    FreePush(p, ran, out, 0);
    PushResult(p, ran, out, 0);
    ForkPushes(p, ran, out);
  }

  /** Every interleaving of the concurrent branches joins two first visits. */
  lemma {:induction false} ConcurrentOnes(m: Value, maxSteps: nat, steps: nat, turns: seq<C.Turn>, xs: seq<Value>)
    requires var c := C.Run(Counting(), Counter(), maxSteps, ForkedTokens(Counting(), Counter(), Walk(m)[1]), steps,
                            turns);
             C.Succeeded(c) && C.Holds(c, xs)
    ensures xs == [ONE, ONE]
  {
    var p, b, starts := Counting(), Counter(), Ways(m);
    WaysPlain(m);
    TokensInOrder(m);
    var ys := C.ConcurrentJoin(p, b, maxSteps, ForkedTokens(p, b, Walk(m)[1]), starts, "join", steps, turns);
    assert xs == ys;
    BothDeliverOne(m);
    JoinedOnce(p, b, starts, "join", xs, [ONE, ONE]);
  }

  /** Every schedule of the distributed branch work joins two first visits. */
  lemma {:induction false} DistributedOnes(m: Value, f: W.Programs, before: seq<W.Event>, group: string,
                                           ids: seq<string>, later: seq<W.Event>, xs: seq<Value>)
    requires f(group) == W.Program(Counting(), Counter())
    requires W.CanCreate(W.Run(f, W.Start(), before), group, ids, Ways(m))
    requires var d := W.Run(f, W.Start(), Forked(before, group, ids, "join", Ways(m), later));
             R.AllCompleted(d.works, group) && R.Payloads(d.works, group, xs)
    ensures xs == [ONE, ONE]
  {
    var p, b := Counting(), Counter();
    WaysPlain(m);
    DistributedJoin(f, p, b, before, group, ids, "join", Ways(m), later, xs);
    BothDeliverOne(m);
    JoinedOnce(p, b, Ways(m), "join", xs, [ONE, ONE]);
  }

  /**
   * The pipeline is valid and its walk joins the first and the second visit, while what its two
   * branches deliver on their own are two first visits.
   */
  lemma {:induction false} JoinsDiffer(extensions: set<string>, referenceOk: string -> bool, m: Value)
    ensures Valid(Counting(), extensions, referenceOk) && Trace(Counting(), Counter(), m, Walk(m))
    ensures Completes(Counting(), Walk(m)[6])
    ensures PrepareJoin(Counting(), Walk(m)[6]).0.message == Array([ONE, TWO])
    ensures JoinedArray(Counting(), Counter(), BranchStarts(Counting(), Counter(), Walk(m)[1]), "join", [ONE, ONE])
  {
    CountingValid(extensions, referenceOk);
    WalkRuns(m);
    ArrivalCompletes(m);
    WaysAreStarts(m);
    BothDeliverOne(m);
  }
}
