/** Pipeline definitions: nodes, edges and the rules a definition must meet. */
module Pipeline {
  import opened Digraph

  datatype NodeKind =
    | Input | Output | Function | Agent | Tool | Router | Validator | Approval
    | Parallel | Join | Loop | Subpipeline | Worker
    | Extension(name: string)

  /** An edge's condition, or a node's routing result. */
  datatype Label = Empty | Accepted | Rejected | Repeat | Done | Unsupported(text: string)

  datatype NodeDefinition = NodeDefinition(
    kind: NodeKind, binding: string, join: string, field: string, schema: string,
    capability: string, requiredTool: string, maxIterations: nat)

  /** maxIterations == 0 means the edge is unbounded. */
  datatype EdgeDefinition = EdgeDefinition(from: string, to: string, condition: Label, maxIterations: nat)

  datatype PipelineDefinition = PipelineDefinition(
    name: string, schemaVersion: nat, version: nat, maxSteps: nat,
    nodes: map<string, NodeDefinition>, edges: seq<EdgeDefinition>)

  const INPUT := "input"
  const OUTPUT := "output"

  predicate IsAlphanumeric(c: char) {
    'A' <= c <= 'Z' || 'a' <= c <= 'z' || '0' <= c <= '9'
  }

  predicate IsIdentifier(s: string) {
    && 1 <= |s| <= 128
    && IsAlphanumeric(s[0])
    && forall i :: 0 <= i < |s| ==> IsAlphanumeric(s[i]) || s[i] in {'_', '.', '-'}
  }

  /** The edges leaving a node, in definition order. */
  function Outgoing(edges: seq<EdgeDefinition>, id: string): seq<EdgeDefinition> {
    if |edges| == 0 then [] else
    var last := edges[|edges| - 1];
    Outgoing(edges[..|edges| - 1], id) + if last.from == id then [last] else []
  }

  /** The outgoing edges a routing result selects, in definition order. */
  function Matching(edges: seq<EdgeDefinition>, id: string, result: Label): seq<EdgeDefinition> {
    if |edges| == 0 then [] else
    var last := edges[|edges| - 1];
    Matching(edges[..|edges| - 1], id, result) +
    if last.from == id && (last.condition.Empty? || last.condition == result) then [last] else []
  }

  ghost function Successors(p: PipelineDefinition, id: string, unboundedOnly: bool): set<string> {
    set e | e in p.edges && e.from == id && (unboundedOnly ==> e.maxIterations == 0) :: e.to
  }

  /** The whole graph, or the graph left after removing every bounded edge. */
  ghost function GraphOf(p: PipelineDefinition, unboundedOnly: bool): Graph<string> {
    map id | id in p.nodes :: Successors(p, id, unboundedOnly)
  }

  predicate HeaderOk(p: PipelineDefinition) {
    && p.schemaVersion == 1 && p.version != 0 && p.maxSteps != 0 && p.maxSteps <= 100000
    && INPUT in p.nodes && OUTPUT in p.nodes && IsIdentifier(p.name)
    && |p.nodes| <= 256 && |p.edges| <= 1024
    && p.nodes[INPUT].kind.Input? && p.nodes[OUTPUT].kind.Output?
  }

  /** One node's own rules; `referenceOk` says whether a subpipeline binding parses. */
  predicate NodeOk(p: PipelineDefinition, extensions: set<string>, referenceOk: string -> bool, id: string)
    requires id in p.nodes
  {
    var n := p.nodes[id];
    && (n.kind.Input? ==> id == INPUT) && (n.kind.Output? ==> id == OUTPUT)
    && IsIdentifier(id) && (n.kind.Extension? ==> n.kind.name in extensions)
    && (n.kind.Tool? || n.kind.Function? || n.kind.Agent? ==> IsIdentifier(n.binding))
    && (n.kind.Worker? ==>
          && (n.binding != "" || n.capability != "")
          && (n.binding != "" ==> IsIdentifier(n.binding))
          && |n.capability| <= 128)
    && (n.requiredTool != "" ==>
          n.requiredTool == "laso.browser_status" && n.kind.Worker? && n.capability == "coding-agent")
    && (n.kind.Subpipeline? ==> referenceOk(n.binding))
    && (n.kind.Loop? ==> n.maxIterations != 0)
    && (n.kind.Parallel? ==> n.join in p.nodes && p.nodes[n.join].kind.Join?)
    && (n.kind.Router? ==> n.field != "")
    && (n.kind.Validator? ==> n.field != "" || n.schema != "")
  }

  predicate FullSystemOk(p: PipelineDefinition) {
    p.name == "codex-full-system" && p.version >= 2 ==>
      && "agent_three" in p.nodes
      && p.nodes["agent_three"].kind.Worker?
      && p.nodes["agent_three"].binding == "codex_agent_three"
      && p.nodes["agent_three"].requiredTool == "laso.browser_status"
  }

  predicate EdgeOk(p: PipelineDefinition, e: EdgeDefinition) {
    && IsIdentifier(e.from) && IsIdentifier(e.to) && e.from in p.nodes && e.to in p.nodes
    && e.to != INPUT && e.from != OUTPUT
    && !e.condition.Unsupported?
  }

  ghost predicate NoDuplicateEdges(edges: seq<EdgeDefinition>) {
    forall i, j :: 0 <= i < j < |edges| ==> (edges[i].from, edges[i].to) != (edges[j].from, edges[j].to)
  }

  /** Exactly two edges, labelled with the two given conditions in some order. */
  predicate TwoNamedBranches(edges: seq<EdgeDefinition>, yes: Label, no: Label) {
    && |edges| == 2
    && (|| (edges[0].condition == yes && edges[1].condition == no)
        || (edges[0].condition == no && edges[1].condition == yes))
  }

  /** The out-edge rule of one non-output node. */
  predicate FanOutOk(kind: NodeKind, edges: seq<EdgeDefinition>) {
    if kind.Parallel? then
      2 <= |edges| <= 16 && forall i :: 0 <= i < |edges| ==> edges[i].condition.Empty?
    else if kind.Loop? then TwoNamedBranches(edges, Repeat, Done)
    else if kind.Router? || kind.Validator? then TwoNamedBranches(edges, Accepted, Rejected)
    else
      |edges| == 1 && edges[0].condition.Empty?
  }

  /** Everything but the two graph searches. */
  ghost predicate LocallyOk(p: PipelineDefinition, extensions: set<string>, referenceOk: string -> bool) {
    && HeaderOk(p)
    && (forall id :: id in p.nodes ==> NodeOk(p, extensions, referenceOk, id))
    && FullSystemOk(p)
    && (forall e :: e in p.edges ==> EdgeOk(p, e))
    && NoDuplicateEdges(p.edges)
    && (forall id :: id in p.nodes && id != OUTPUT ==> FanOutOk(p.nodes[id].kind, Outgoing(p.edges, id)))
  }

  /** A valid pipeline: the local rules, no cycle of unbounded edges, everything reachable from input. */
  ghost predicate Valid(p: PipelineDefinition, extensions: set<string>, referenceOk: string -> bool) {
    && LocallyOk(p, extensions, referenceOk)
    && !HasCycle(GraphOf(p, true))
    && forall id :: id in p.nodes ==> Reaches(GraphOf(p, false), INPUT, id)
  }

  /** The routing results a node of this kind declares. */
  predicate Declared(kind: NodeKind, result: Label) {
    if kind.Router? || kind.Validator? then result.Accepted? || result.Rejected?
    else if kind.Loop? then result.Repeat? || result.Done?
    else true
  }

  lemma OutgoingMembers(edges: seq<EdgeDefinition>, id: string)
    ensures forall e :: e in Outgoing(edges, id) <==> e in edges && e.from == id
  {
    if |edges| > 0 {
      var n := |edges| - 1;
      OutgoingMembers(edges[..n], id);
      assert edges == edges[..n] + [edges[n]];
    }
  }

  lemma MatchingMembers(edges: seq<EdgeDefinition>, id: string, result: Label)
    ensures forall e :: e in Matching(edges, id, result) <==>
                          e in edges && e.from == id && (e.condition.Empty? || e.condition == result)
  {
    if |edges| > 0 {
      var n := |edges| - 1;
      MatchingMembers(edges[..n], id, result);
      assert edges == edges[..n] + [edges[n]];
    }
  }

  function Select(edges: seq<EdgeDefinition>, result: Label): seq<EdgeDefinition> {
    if |edges| == 0 then [] else
    var last := edges[|edges| - 1];
    Select(edges[..|edges| - 1], result) +
    if last.condition.Empty? || last.condition == result then [last] else []
  }

  lemma {:induction false} SelectAppend(edges: seq<EdgeDefinition>, e: EdgeDefinition, result: Label)
    ensures Select(edges + [e], result) ==
            Select(edges, result) + if e.condition.Empty? || e.condition == result then [e] else []
  {
    assert (edges + [e])[..|edges|] == edges;
  }

  lemma {:induction false} MatchingIsSelected(edges: seq<EdgeDefinition>, id: string, result: Label)
    ensures Matching(edges, id, result) == Select(Outgoing(edges, id), result)
  {
    if |edges| > 0 {
      var n := |edges| - 1;
      MatchingIsSelected(edges[..n], id, result);
      if edges[n].from == id {
        SelectAppend(Outgoing(edges[..n], id), edges[n], result);
      } else {
        assert Outgoing(edges[..n], id) + [] == Outgoing(edges[..n], id);
      }
    }
  }

  lemma SelectAll(edges: seq<EdgeDefinition>, result: Label)
    requires forall i :: 0 <= i < |edges| ==> edges[i].condition.Empty?
    ensures Select(edges, result) == edges
  {
    if |edges| > 0 {
      var n := |edges| - 1;
      SelectAll(edges[..n], result);
      assert edges == edges[..n] + [edges[n]];
    }
  }

  /** Of two out-edges with the two expected labels, either label selects exactly one. */
  lemma {:induction false} TwoWaySelect(out: seq<EdgeDefinition>, yes: Label, no: Label, result: Label)
    requires TwoNamedBranches(out, yes, no)
    requires yes != no && !yes.Empty? && !no.Empty? && (result == yes || result == no)
    ensures |Select(out, result)| == 1
  {
    var one := [out[0]];
    assert [] + [out[0]] == one && one + [out[1]] == out;
    SelectAppend([], out[0], result);
    SelectAppend(one, out[1], result);
  }

  /**
   * Routing is total and unambiguous on the out-edges validation admits: a declared result
   * selects exactly one edge, and a parallel node selects all 2 to 16 of its edges.
   */
  lemma {:induction false} RoutingDetermined(p: PipelineDefinition, id: string, result: Label)
    requires id in p.nodes && id != OUTPUT
    requires FanOutOk(p.nodes[id].kind, Outgoing(p.edges, id)) && Declared(p.nodes[id].kind, result)
    ensures p.nodes[id].kind.Parallel? ==>
              2 <= |Matching(p.edges, id, result)| <= 16 &&
              Matching(p.edges, id, result) == Outgoing(p.edges, id)
    ensures !p.nodes[id].kind.Parallel? ==> |Matching(p.edges, id, result)| == 1
  {
    var kind := p.nodes[id].kind;
    var out := Outgoing(p.edges, id);
    MatchingIsSelected(p.edges, id, result);
    if kind.Parallel? {
      SelectAll(out, result);
    } else if kind.Loop? {
      TwoWaySelect(out, Repeat, Done, result);
    } else if kind.Router? || kind.Validator? {
      TwoWaySelect(out, Accepted, Rejected, result);
    } else {
      SelectAll(out, result);
    }
  }

  lemma GraphClosed(p: PipelineDefinition, unboundedOnly: bool)
    requires forall e :: e in p.edges ==> EdgeOk(p, e)
    ensures Closed(GraphOf(p, unboundedOnly))
  {
  }
}
