/**
 * When forks and joins pair up. Validation does not check it, so a valid pipeline may still fail with
 * a join outside its group or with branches left over at the output. A labelling of the nodes by
 * stacks of open joins excludes both, and for behaviours that route by node it is exact.
 */
module Pairing {
  import opened Digraph
  import opened Pipeline
  import opened TokenMachine
  import opened TokenTree
  import opened TokenSafety

  // ---- One pass, seen from outside ----

  function JoinsOf(frames: seq<Frame>): (s: seq<string>)
    ensures |s| == |frames|
  {
    seq(|frames|, i requires 0 <= i < |frames| => frames[i].join)
  }

  predicate AtJoin(p: PipelineDefinition, node: string) {
    node in p.nodes && p.nodes[node].kind.Join?
  }

  /** The frames a node's tokens leave with: a join has closed its innermost one. */
  function Left(p: PipelineDefinition, r: RunState): seq<Frame> {
    if AtJoin(p, r.node) && r.frames != [] then r.frames[..|r.frames| - 1] else r.frames
  }

  /** A token at a join is inside a group of that join. */
  ghost predicate JoinFits(p: PipelineDefinition, r: RunState) {
    AtJoin(p, r.node) ==> r.frames != [] && r.frames[|r.frames| - 1].join == r.node
  }

  /** The token waits at its join for the rest of its group. */
  ghost predicate Waits(p: PipelineDefinition, r: RunState, next: RunState) {
    && AtJoin(p, r.node) && JoinFits(p, r)
    && Tokens(next) == r.ready && next.nextGroup == r.nextGroup
    && (r.frames != [] ==>
        && r.frames[|r.frames| - 1].group in next.joins
        && forall g :: g in r.joins ==> g in next.joins)
  }

  /** The token went along the i-th selected edge, and from a fork into the fork's group. */
  ghost predicate Landed(p: PipelineDefinition, node: string, frames: seq<Frame>, group: nat, out: seq<EdgeDefinition>,
                         t: Token, i: nat)
    requires node in p.nodes && i < |out|
  {
    && t.node == out[i].to
    && t.frames == if p.nodes[node].kind.Parallel? then frames + [Frame(group, p.nodes[node].join, |out|, i)]
                   else frames
  }

  /** The node was executed and one token pushed along each selected edge. */
  ghost predicate Moves(p: PipelineDefinition, r: RunState, next: RunState, result: Label, pushed: seq<Token>) {
    && r.node in p.nodes && !p.nodes[r.node].kind.Output? && JoinFits(p, r)
    && var out := Matching(p.edges, r.node, result);
       && |out| > 0 && |pushed| == |out|
       && Tokens(next) == r.ready + pushed && next.nextGroup == r.nextGroup + 1
       && (forall i :: 0 <= i < |out| ==> Landed(p, r.node, Left(p, r), r.nextGroup, out, pushed[i], i))
       && (!AtJoin(p, r.node) ==> next.joins == r.joins)
       && (forall g :: g in r.joins && g !in next.joins ==>
             AtJoin(p, r.node) && r.frames != [] && g == r.frames[|r.frames| - 1].group)
  }

  /** A pass that goes on either lets a token wait or executes a node. */
  lemma PassCases(p: PipelineDefinition, extensions: set<string>, referenceOk: string -> bool, b: Behaviour,
                  r: RunState, next: RunState) returns (result: Label, pushed: seq<Token>)
    requires LocallyOk(p, extensions, referenceOk) && Behaves(p, b) && Continues(p, b, r, next)
    requires r.preparedJoin == ""
    ensures next.preparedJoin == ""
    ensures Waits(p, r, next) || Moves(p, r, next, result, pushed)
    ensures exists visit, m :: b(r.node, visit, m).1 == result
  {
    NodeFacts(p, extensions, referenceOk, r.node);
    NodeNamed(p, extensions, referenceOk, r.node);
    var (prepared, j) := PrepareJoin(p, r);
    var visit := Count(prepared.nodeVisits, r.node) + 1;
    result := b(r.node, visit, prepared.message).1;
    pushed := [];
    if j.Waiting? {
      WaitingPass(p, r);
    } else {
      pushed := MovingPass(p, b, r, prepared, result);
    }
  }

  lemma NodeNamed(p: PipelineDefinition, extensions: set<string>, referenceOk: string -> bool, id: string)
    requires LocallyOk(p, extensions, referenceOk) && id in p.nodes
    ensures id != ""
  {
    assert NodeOk(p, extensions, referenceOk, id);
  }

  lemma WaitingPass(p: PipelineDefinition, r: RunState)
    requires r.node in p.nodes && PrepareJoin(p, r).1.Waiting?
    ensures Waits(p, r, PrepareJoin(p, r).0) && PrepareJoin(p, r).0.preparedJoin == ""
  {
    var frame := r.frames[|r.frames| - 1];
    var waiting := r.(joins := r.joins[frame.group := ArrivedIn(r.joins, frame.group)[frame.index := r.message]]);
    assert PrepareJoin(p, r).0 == NextReady(waiting);
    NextReadyTokens(waiting);
  }

  lemma MovingPass(p: PipelineDefinition, b: Behaviour, r: RunState, prepared: RunState, result: Label)
    returns (pushed: seq<Token>)
    requires r.node in p.nodes && r.node != "" && r.preparedJoin == ""
    requires PrepareJoin(p, r) == (prepared, Proceed) && RunNode(p, b, prepared).1.Running?
    requires result == Executed(b, prepared).1
    requires p.nodes[r.node].kind.Output? <==> r.node == OUTPUT
    requires r.node != OUTPUT ==> FanOutOk(p.nodes[r.node].kind, Outgoing(p.edges, r.node))
    requires Declared(p.nodes[r.node].kind, result)
    ensures Moves(p, r, RunNode(p, b, prepared).0, result, pushed) && RunNode(p, b, prepared).0.preparedJoin == ""
  {
    pushed := RunMoves(p, b, prepared, result);
    assert prepared.frames == Left(p, r) && prepared.nextGroup == r.nextGroup;
  }

  /** Running a prepared node puts one token per selected edge behind the ready ones. */
  lemma RunMoves(p: PipelineDefinition, b: Behaviour, r: RunState, result: Label) returns (pushed: seq<Token>)
    requires r.node in p.nodes && RunNode(p, b, r).1.Running? && result == Executed(b, r).1
    requires p.nodes[r.node].kind.Output? <==> r.node == OUTPUT
    requires r.node != OUTPUT ==> FanOutOk(p.nodes[r.node].kind, Outgoing(p.edges, r.node))
    requires Declared(p.nodes[r.node].kind, result)
    ensures !p.nodes[r.node].kind.Output?
    ensures var out := Matching(p.edges, r.node, result);
            var next := RunNode(p, b, r).0;
            && |out| > 0 && |pushed| == |out|
            && Tokens(next) == r.ready + pushed && next.nextGroup == r.nextGroup + 1
            && next.joins == r.joins && next.preparedJoin == ""
            && forall i :: 0 <= i < |out| ==> Landed(p, r.node, r.frames, r.nextGroup, out, pushed[i], i)
  {
    var ran := Executed(b, r).0;
    var out := Matching(p.edges, r.node, result);
    AdvanceCases(p, ran, result);
    pushed := Pushed(p, ran, out, 0);
    var after := AfterPush(p, ran, result);
    PushedLand(p, ran, out, 0);
    assert RunNode(p, b, r).0 == NextReady(after);
    NextReadyTokens(after);
  }

  /** Where the pushed tokens go and which frames they carry. */
  lemma {:induction false} PushedLand(p: PipelineDefinition, r: RunState, out: seq<EdgeDefinition>, k: nat)
    requires r.node in p.nodes && k <= |out|
    ensures |Pushed(p, r, out, k)| == |out| - k
    ensures forall i :: 0 <= i < |out| - k ==>
              Landed(p, r.node, r.frames, r.nextGroup, out, Pushed(p, r, out, k)[i], k + i)
    decreases |out| - k
  {
    if k < |out| {
      PushedLand(p, r, out, k + 1);
      var rest := Pushed(p, r, out, k + 1);
      forall i | 0 <= i < |out| - k
        ensures Landed(p, r.node, r.frames, r.nextGroup, out, Pushed(p, r, out, k)[i], k + i)
      {
        if i > 0 {
          assert Pushed(p, r, out, k)[i] == rest[i - 1];
          assert Landed(p, r.node, r.frames, r.nextGroup, out, rest[i - 1], k + 1 + (i - 1));
        }
      }
    }
  }

  /** The last pass of a completed run is at the output with nothing else under way. */
  lemma LastPass(p: PipelineDefinition, extensions: set<string>, referenceOk: string -> bool, b: Behaviour, r: RunState)
    requires LocallyOk(p, extensions, referenceOk) && Behaves(p, b) && r.node in p.nodes
    requires r.preparedJoin == "" && Step(p, b, r).1.Completed?
    ensures r.node == OUTPUT && p.nodes[r.node].kind.Output? && r.frames == [] && r.ready == [] && r.joins == map[]
  {
    NodeFacts(p, extensions, referenceOk, r.node);
    NodeNamed(p, extensions, referenceOk, r.node);
    var (prepared, j) := PrepareJoin(p, r);
    assert Declared(p.nodes[r.node].kind, b(r.node, Count(prepared.nodeVisits, r.node) + 1, prepared.message).1);
    AdvanceCases(p, Executed(b, prepared).0, Executed(b, prepared).1);
  }

  // ---- Labellings ----

  type Labels = map<string, seq<string>>

  /** The stack of joins after a node: a fork opens one, a join closes its own. */
  function Leaving(p: PipelineDefinition, n: string, stack: seq<string>): seq<string>
    requires n in p.nodes
  {
    if p.nodes[n].kind.Parallel? then stack + [p.nodes[n].join]
    else if p.nodes[n].kind.Join? && stack != [] then stack[..|stack| - 1] else stack
  }

  ghost predicate NodeLabelled(p: PipelineDefinition, labels: Labels, n: string)
    requires n in labels
  {
    && n in p.nodes
    && (n == OUTPUT ==> labels[n] == [])
    && (p.nodes[n].kind.Join? ==> labels[n] != [] && labels[n][|labels[n]| - 1] == n)
  }

  ghost predicate EdgeLabelled(p: PipelineDefinition, labels: Labels, e: EdgeDefinition)
    requires e.from in labels && e.from in p.nodes
  {
    e.to in labels && labels[e.to] == Leaving(p, e.from, labels[e.from])
  }

  /** The edge is selected by some answer of its source. */
  ghost predicate Selectable(p: PipelineDefinition, b: Behaviour, e: EdgeDefinition) {
    exists visit, m :: e in Matching(p.edges, e.from, b(e.from, visit, m).1)
  }

  /**
   * Stacks of open joins for the nodes that the behaviour can lead to, consistent along every edge
   * it can select: input and output have none, a join is on top at its own node.
   */
  ghost predicate Labelled(p: PipelineDefinition, b: Behaviour, labels: Labels) {
    && INPUT in labels && labels[INPUT] == []
    && (forall n {:trigger NodeLabelled(p, labels, n)} :: n in labels ==> NodeLabelled(p, labels, n))
    && (forall e: EdgeDefinition {:trigger Selectable(p, b, e)} ::
          e.from in labels && e.from in p.nodes && !p.nodes[e.from].kind.Output? && Selectable(p, b, e) ==>
            EdgeLabelled(p, labels, e))
  }

  /** Every token carries the frames that its node's label names. */
  ghost predicate Follows(labels: Labels, t: Token) {
    t.node in labels && JoinsOf(t.frames) == labels[t.node]
  }

  ghost predicate AllFollow(labels: Labels, tokens: seq<Token>) {
    forall i :: 0 <= i < |tokens| ==> Follows(labels, tokens[i])
  }

  lemma MatchingFrom(p: PipelineDefinition, n: string, result: Label, i: nat)
    requires i < |Matching(p.edges, n, result)|
    ensures Matching(p.edges, n, result)[i].from == n
  {
    MatchingMembers(p.edges, n, result);
    assert Matching(p.edges, n, result)[i] in Matching(p.edges, n, result);
  }

  lemma LeftJoins(p: PipelineDefinition, r: RunState)
    requires r.node in p.nodes && JoinFits(p, r)
    ensures JoinsOf(Left(p, r)) ==
            if p.nodes[r.node].kind.Join? then JoinsOf(r.frames)[..|r.frames| - 1] else JoinsOf(r.frames)
  {
  }

  /** A token pushed from a labelled node follows the label of where it goes. */
  lemma PushFollows(p: PipelineDefinition, b: Behaviour, labels: Labels, r: RunState, next: RunState, result: Label,
                    pushed: seq<Token>, i: nat)
    requires Labelled(p, b, labels) && Moves(p, r, next, result, pushed) && Follows(labels, Current(r))
    requires i < |pushed| && exists visit, m :: b(r.node, visit, m).1 == result
    ensures Follows(labels, pushed[i])
  {
    var e := Matching(p.edges, r.node, result)[i];
    MatchingFrom(p, r.node, result, i);
    assert e in Matching(p.edges, e.from, result);
    assert Selectable(p, b, e);
    assert EdgeLabelled(p, labels, e);
    LeftJoins(p, r);
    assert Landed(p, r.node, Left(p, r), r.nextGroup, Matching(p.edges, r.node, result), pushed[i], i);
    assert JoinsOf(pushed[i].frames) == Leaving(p, r.node, JoinsOf(r.frames));
  }

  lemma NextFollows(p: PipelineDefinition, b: Behaviour, labels: Labels, r: RunState, next: RunState, result: Label,
                    pushed: seq<Token>)
    requires Labelled(p, b, labels) && AllFollow(labels, Tokens(r))
    requires Waits(p, r, next) || Moves(p, r, next, result, pushed)
    requires exists visit, m :: b(r.node, visit, m).1 == result
    ensures AllFollow(labels, Tokens(next))
  {
    var tokens := Tokens(r);
    assert tokens[0] == Current(r);
    forall i | 0 <= i < |Tokens(next)| ensures Follows(labels, Tokens(next)[i]) {
      if i < |r.ready| {
        assert Tokens(next)[i] == r.ready[i] == tokens[i + 1];
      } else {
        PushFollows(p, b, labels, r, next, result, pushed, i - |r.ready|);
      }
    }
  }

  lemma StepFollows(p: PipelineDefinition, extensions: set<string>, referenceOk: string -> bool, b: Behaviour,
                    labels: Labels, r: RunState, next: RunState)
    requires LocallyOk(p, extensions, referenceOk) && Behaves(p, b) && Labelled(p, b, labels)
    requires Continues(p, b, r, next) && r.preparedJoin == ""
    requires AllFollow(labels, Tokens(r))
    ensures next.preparedJoin == "" && AllFollow(labels, Tokens(next))
  {
    var result, pushed := PassCases(p, extensions, referenceOk, b, r, next);
    NextFollows(p, b, labels, r, next, result, pushed);
  }

  lemma RootForks(t: Tree, n: nat, pos: Position)
    requires Shape(t, n) && pos in t && pos != []
    ensures IsFork(t, [])
  {
    PrefixIsFork(t, n, pos, 0);
    assert pos[..0] == [];
  }

  lemma SecondToken(tokens: seq<Token>, t: Tree)
    requires Faithful(tokens, t) && |tokens| > 1
    ensures tokens[1].frames in t && tokens[1].frames != tokens[0].frames
  {
    assert tokens[1] in tokens;
  }

  /** A token without frames is alone. */
  lemma RootAlone(p: PipelineDefinition, r: RunState)
    requires Nested(p, r) && r.frames == []
    ensures r.ready == [] && r.joins == map[]
  {
    var t :| Inv(p, r, t);
    CurrentIsLive(p, r, t);
    forall pos | pos in t ensures pos == [] {
      if pos != [] {
        RootForks(t, r.nextGroup, pos);
      }
    }
    if r.ready != [] {
      SecondToken(Tokens(r), t);
    }
  }

  /** The two faults that validation leaves possible. */
  ghost predicate Unpaired(o: Outcome) {
    o.Failed? && (o.fault.JoinOutsideGroup? || o.fault.NotConverged?)
  }

  ghost predicate Leftovers(p: PipelineDefinition, r: RunState) {
    r.node in p.nodes && p.nodes[r.node].kind.Output? && (r.frames != [] || r.ready != [] || r.joins != map[])
  }

  /** Exactly when a pass ends with one of the two. */
  lemma UnpairedPass(p: PipelineDefinition, b: Behaviour, r: RunState)
    requires r.node in p.nodes && r.node != "" && r.preparedJoin == ""
    ensures Unpaired(Step(p, b, r).1) <==> !JoinFits(p, r) || Leftovers(p, r)
  {
    var (prepared, j) := PrepareJoin(p, r);
    var (ran, result) := Executed(b, prepared);
    if j.Proceed? && !p.nodes[r.node].kind.Output? {
      PushResult(p, ran, Matching(p.edges, r.node, result), 0);
    }
  }

  lemma CurrentKnown(p: PipelineDefinition, r: RunState)
    requires Nested(p, r)
    ensures r.node in p.nodes
  {
    var t :| Inv(p, r, t);
    CurrentIsLive(p, r, t);
  }

  /** On labelled tokens no pass meets a join outside its group or leftovers at the output. */
  lemma StepPaired(p: PipelineDefinition, extensions: set<string>, referenceOk: string -> bool, b: Behaviour,
                   labels: Labels, r: RunState)
    requires LocallyOk(p, extensions, referenceOk) && Labelled(p, b, labels)
    requires InPlace(p, labels, r)
    ensures r.node in p.nodes && !Unpaired(Step(p, b, r).1)
  {
    CurrentKnown(p, r);
    var tokens := Tokens(r);
    assert tokens[0] == Current(r);
    assert NodeLabelled(p, labels, r.node);
    NodeFacts(p, extensions, referenceOk, r.node);
    NodeNamed(p, extensions, referenceOk, r.node);
    if r.node == OUTPUT {
      RootAlone(p, r);
    }
    assert JoinFits(p, r);
    UnpairedPass(p, b, r);
  }

  /** Well nested, between passes, and every token where its label says. */
  ghost predicate InPlace(p: PipelineDefinition, labels: Labels, r: RunState) {
    Nested(p, r) && r.preparedJoin == "" && AllFollow(labels, Tokens(r))
  }

  lemma StepInPlace(p: PipelineDefinition, extensions: set<string>, referenceOk: string -> bool, b: Behaviour,
                    labels: Labels, r: RunState, next: RunState)
    requires LocallyOk(p, extensions, referenceOk) && Behaves(p, b) && Labelled(p, b, labels)
    requires Continues(p, b, r, next) && InPlace(p, labels, r)
    ensures InPlace(p, labels, next)
  {
    NextNested(p, extensions, referenceOk, b, r, next);
    StepFollows(p, extensions, referenceOk, b, labels, r, next);
  }

  lemma StartInPlace(p: PipelineDefinition, b: Behaviour, labels: Labels, message: Value)
    requires HeaderOk(p) && Labelled(p, b, labels)
    ensures InPlace(p, labels, Initial(message))
  {
    FirstNested(p, message);
    assert Tokens(Initial(message)) == [Token(INPUT, message, [])];
  }

  lemma {:induction false} WalkInPlace(p: PipelineDefinition, extensions: set<string>, referenceOk: string -> bool,
                                       b: Behaviour, labels: Labels, message: Value, s: seq<RunState>, k: nat)
    requires LocallyOk(p, extensions, referenceOk) && Behaves(p, b) && Labelled(p, b, labels)
    requires Trace(p, b, message, s) && k < |s|
    ensures InPlace(p, labels, s[k])
  {
    if k == 0 {
      StartInPlace(p, b, labels, message);
    } else {
      WalkInPlace(p, extensions, referenceOk, b, labels, message, s, k - 1);
      TraceStep(p, b, message, s, k);
      StepInPlace(p, extensions, referenceOk, b, labels, s[k - 1], s[k]);
    }
  }

  /** The pass goes on, completes, or exhausts a limit. */
  ghost predicate Paired(o: Outcome) {
    o.Failed? ==> o.fault.EdgeLimit? || o.fault.ReadyLimit?
  }

  ghost predicate EndsPaired(p: PipelineDefinition, b: Behaviour, r: RunState) {
    r.node in p.nodes && Paired(Step(p, b, r).1)
  }

  /** With a labelling, every run ends in completion or in an exhausted limit. */
  lemma {:induction false} LabelledWalks(p: PipelineDefinition, extensions: set<string>, referenceOk: string -> bool,
                                         b: Behaviour, labels: Labels, message: Value, s: seq<RunState>)
    requires LocallyOk(p, extensions, referenceOk) && Behaves(p, b) && Labelled(p, b, labels)
    requires Trace(p, b, message, s)
    ensures EndsPaired(p, b, s[|s| - 1])
  {
    var k := |s| - 1;
    WalkInPlace(p, extensions, referenceOk, b, labels, message, s, k);
    PairedOutcome(p, extensions, referenceOk, b, labels, s[k]);
  }

  lemma PairedOutcome(p: PipelineDefinition, extensions: set<string>, referenceOk: string -> bool, b: Behaviour,
                      labels: Labels, r: RunState)
    requires LocallyOk(p, extensions, referenceOk) && Behaves(p, b) && Labelled(p, b, labels)
    requires InPlace(p, labels, r)
    ensures EndsPaired(p, b, r)
  {
    StepPaired(p, extensions, referenceOk, b, labels, r);
    NestedStep(p, extensions, referenceOk, b, r);
  }
}
