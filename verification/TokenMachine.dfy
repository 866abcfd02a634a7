/** The token machine of a run: ready tokens, fork frames, join tables and edge budgets. */
module TokenMachine {
  import opened Pipeline

  /** A message payload; a completed join packs its branches' payloads into an array. */
  datatype Value = Data(text: string) | Array(items: seq<Value>)

  datatype Frame = Frame(group: nat, join: string, width: nat, index: nat)

  datatype Token = Token(node: string, message: Value, frames: seq<Frame>)

  /**
   * The durable walk state of a run. Group names come from a fresh-name source, here a counter;
   * an empty preparedJoin means no join is prepared.
   */
  datatype RunState = RunState(
    node: string, message: Value, frames: seq<Frame>, ready: seq<Token>,
    joins: map<nat, map<nat, Value>>, edgeVisits: map<string, nat>, nodeVisits: map<string, nat>,
    preparedJoin: string, nextGroup: nat)

  datatype Fault =
    | JoinOutsideGroup | ArrivedTwice | MissingBranches
    | NotConverged | NoMatchingEdge | AmbiguousRouting | EdgeLimit | ReadyLimit

  datatype JoinResult = Proceed | Waiting | Refused(fault: Fault)

  datatype Outcome = Running | Completed | Failed(fault: Fault)

  /** What a node computes from its id, its visit number and its input. */
  type Behaviour = (string, nat, Value) -> (Value, Label)

  function Count(visits: map<string, nat>, key: string): nat {
    if key in visits then visits[key] else 0
  }

  function EdgeKey(e: EdgeDefinition): string {
    e.from + "->" + e.to
  }

  function Least(keys: set<nat>): (k: nat)
    requires keys != {}
    ensures k in keys && forall x :: x in keys ==> k <= x
  {
    LeastExists(keys);
    var k :| k in keys && forall x :: x in keys ==> k <= x;
    k
  }

  lemma LeastExists(keys: set<nat>)
    requires keys != {}
    ensures exists k :: k in keys && forall x :: x in keys ==> k <= x
  {
    var x :| x in keys;
    var rest := keys - {x};
    if rest == {} {
      assert keys == {x};
    } else {
      LeastExists(rest);
      var k :| k in rest && forall z :: z in rest ==> k <= z;
      var least := if k < x then k else x;
      assert forall z :: z in keys ==> z == x || z in rest;
      assert least in keys && forall z :: z in keys ==> least <= z;
    }
  }

  /** The values of a table in ascending key order. */
  function Ascending(m: map<nat, Value>): seq<Value> {
    if m == map[] then [] else
    var k := Least(m.Keys);
    [m[k]] + Ascending(m - {k})
  }

  /** Takes the first ready token as the active one, if there is one. */
  function NextReady(r: RunState): RunState {
    if r.ready == [] then r else
    var t := r.ready[0];
    r.(node := t.node, message := t.message, frames := t.frames, ready := r.ready[1..], preparedJoin := "")
  }

  /** Arrival at a join: register the branch, then either complete the group or wait. */
  function PrepareJoin(p: PipelineDefinition, r: RunState): (result: (RunState, JoinResult))
    requires r.node in p.nodes
    ensures result.1.Proceed? ==> result.0.node == r.node && result.0.ready == r.ready
  {
    if !p.nodes[r.node].kind.Join? || r.preparedJoin == r.node then (r, Proceed) else
    if r.frames == [] || r.frames[|r.frames| - 1].join != r.node then (r, Refused(JoinOutsideGroup)) else
    var frame := r.frames[|r.frames| - 1];
    var arrived := if frame.group in r.joins then r.joins[frame.group] else map[];
    if frame.index in arrived then (r, Refused(ArrivedTwice)) else
    var all := arrived[frame.index := r.message];
    if |all| == frame.width then
      (r.(message := Array(Ascending(all)), frames := r.frames[..|r.frames| - 1],
          joins := r.joins - {frame.group}, preparedJoin := r.node), Proceed)
    else
      var waiting := r.(joins := r.joins[frame.group := all]);
      if r.ready == [] then (waiting, Refused(MissingBranches)) else (NextReady(waiting), Waiting)
  }

  /** Spends the edges' budgets and appends one token per selected edge, from position i on. */
  function PushTokens(p: PipelineDefinition, r: RunState, out: seq<EdgeDefinition>, i: nat): (RunState, Outcome)
    requires r.node in p.nodes && i <= |out|
    decreases |out| - i
  {
    if i == |out| then (r, Running) else
    var e := out[i];
    var visits := if e.maxIterations == 0 then r.edgeVisits
                  else r.edgeVisits[EdgeKey(e) := Count(r.edgeVisits, EdgeKey(e)) + 1];
    if e.maxIterations != 0 && Count(visits, EdgeKey(e)) > e.maxIterations then
      (r.(edgeVisits := visits), Failed(EdgeLimit))
    else
      var n := p.nodes[r.node];
      var frames := if n.kind.Parallel? then r.frames + [Frame(r.nextGroup, n.join, |out|, i)] else r.frames;
      PushTokens(p, r.(edgeVisits := visits, ready := r.ready + [Token(e.to, r.message, frames)]), out, i + 1)
  }

  /** Routes a finished node's token along the edges its result selects. */
  function Advance(p: PipelineDefinition, r: RunState, result: Label): (RunState, Outcome)
    requires r.node in p.nodes
  {
    var kind := p.nodes[r.node].kind;
    if kind.Output? then
      (r, if r.frames != [] || r.ready != [] || r.joins != map[] then Failed(NotConverged) else Completed)
    else
      var out := Matching(p.edges, r.node, result);
      if out == [] then (r, Failed(NoMatchingEdge)) else
      if !kind.Parallel? && |out| != 1 then (r, Failed(AmbiguousRouting)) else
      var (pushed, outcome) := PushTokens(p, r, out, 0);
      if outcome.Failed? then (pushed.(nextGroup := r.nextGroup + 1), outcome) else
      var named := pushed.(nextGroup := r.nextGroup + 1);
      if |named.ready| > 256 then (named, Failed(ReadyLimit)) else
      (if kind.Parallel? then named else NextReady(named), Running)
  }

  /** The run after its active node executed, and the routing result. */
  function Executed(b: Behaviour, r: RunState): (RunState, Label) {
    var visit := Count(r.nodeVisits, r.node) + 1;
    var (message, result) := b(r.node, visit, r.message);
    (r.(message := message, nodeVisits := r.nodeVisits[r.node := visit]), result)
  }

  /** Runs the active node and routes its result; after a fork the next ready token is taken. */
  function RunNode(p: PipelineDefinition, b: Behaviour, r: RunState): (RunState, Outcome)
    requires r.node in p.nodes
  {
    var (ran, result) := Executed(b, r);
    var (next, outcome) := Advance(p, ran, result);
    (if outcome.Running? && p.nodes[r.node].kind.Parallel? then NextReady(next) else next, outcome)
  }

  /** One pass of the execution loop: prepare a join, then run the node unless the token was absorbed. */
  function Step(p: PipelineDefinition, b: Behaviour, r: RunState): (RunState, Outcome)
    requires r.node in p.nodes
  {
    var (prepared, j) := PrepareJoin(p, r);
    if j.Proceed? then RunNode(p, b, prepared)
    else (prepared, if j.Waiting? then Running else Failed(j.fault))
  }

  function Initial(message: Value): RunState {
    RunState(INPUT, message, [], [], map[], map[], map[], "", 0)
  }

  /** Every node answers with a result its kind declares. */
  ghost predicate Behaves(p: PipelineDefinition, b: Behaviour) {
    forall id, visit, m :: id in p.nodes ==> Declared(p.nodes[id].kind, b(id, visit, m).1)
  }
}
