/** The sequential walk of a top-level fork joins what each branch carries to its first join. */
module Joins {
  import opened Pipeline
  import opened TokenMachine
  import opened TokenTree
  import opened TokenSafety
  import opened Branches

  /** An array with each branch's delivery at the branch's own position. */
  ghost predicate JoinedArray(p: PipelineDefinition, b: Behaviour, starts: seq<Place>, join: string, xs: seq<Value>) {
    |xs| == |starts| && forall i :: 0 <= i < |xs| ==> Delivered(p, b, starts[i], join, xs[i])
  }

  /** A fork has only one array of deliveries. */
  lemma JoinedOnce(p: PipelineDefinition, b: Behaviour, starts: seq<Place>, join: string, xs: seq<Value>,
                   ys: seq<Value>)
    requires JoinedArray(p, b, starts, join, xs) && JoinedArray(p, b, starts, join, ys)
    ensures xs == ys
  {
    forall i | 0 <= i < |xs| ensures xs[i] == ys[i] {
      DeliversOnce(p, b, starts[i], join, join, xs[i], ys[i]);
    }
  }

  /** The branch passes the node. */
  ghost predicate OnPath(p: PipelineDefinition, b: Behaviour, start: Place, n: string) {
    exists k, d :: Travels(p, b, Starting(start), k, d) && d.node == n
  }

  /** Every place the branches pass is a plain node or the fork's own join. */
  ghost predicate PlainBranches(p: PipelineDefinition, b: Behaviour, starts: seq<Place>, join: string) {
    forall i, n {:trigger OnPath(p, b, starts[i], n)} ::
      0 <= i < |starts| && OnPath(p, b, starts[i], n) && n in p.nodes ==>
        !p.nodes[n].kind.Parallel? && (p.nodes[n].kind.Join? ==> n == join)
  }

  /** The node's answer does not depend on how often it was visited. */
  ghost predicate VisitFreeAt(b: Behaviour, n: string) {
    forall v, w, m :: b(n, v, m) == b(n, w, m)
  }

  /**
   * A branch counts its visits from zero; the walk counts those before the fork and of all branches.
   * The counts make no difference when every counting node is unvisited at the fork and passed by
   * one branch only.
   */
  ghost predicate Separated(p: PipelineDefinition, b: Behaviour, starts: seq<Place>, visits: map<string, nat>) {
    forall i, n {:trigger OnPath(p, b, starts[i], n)} ::
      0 <= i < |starts| && OnPath(p, b, starts[i], n) && !IsJoin(p, n) && !VisitFreeAt(b, n) ==>
        && Count(visits, n) == 0
        && forall j {:trigger starts[j]} :: 0 <= j < |starts| && j != i ==> !OnPath(p, b, starts[j], n)
  }

  /** A delivery of one of the branches is at the fork's join. */
  lemma AtForksJoin(p: PipelineDefinition, b: Behaviour, starts: seq<Place>, join: string, i: nat, at: string, m: Value)
    requires PlainBranches(p, b, starts, join) && i < |starts| && Delivered(p, b, starts[i], at, m)
    ensures at == join
  {
    var k :| Delivers(p, b, starts[i], k, at, m);
    var v :| Travels(p, b, Starting(starts[i]), k, Walker(at, m, v));
    assert OnPath(p, b, starts[i], at);
  }

  // ---- The sequential walk ----

  /** The walk's counters agree with the branch's own where they matter. */
  ghost predicate Aligned(p: PipelineDefinition, b: Behaviour, start: Place, visits: map<string, nat>, d: Walker) {
    forall n {:trigger OnPath(p, b, start, n)} ::
      OnPath(p, b, start, n) && !IsJoin(p, n) && !VisitFreeAt(b, n) ==> Count(visits, n) == Count(d.visits, n)
  }

  ghost predicate BranchAt(p: PipelineDefinition, b: Behaviour, starts: seq<Place>, g: nat, join: string,
                           visits: map<string, nat>, t: Token, i: nat, k: nat, d: Walker)
  {
    && i < |starts| && t.frames == [Frame(g, join, |starts|, i)]
    && Travels(p, b, Starting(starts[i]), k, d) && d.node == t.node && d.message == t.message
    && Aligned(p, b, starts[i], visits, d)
  }

  ghost predicate OnBranch(p: PipelineDefinition, b: Behaviour, starts: seq<Place>, g: nat, join: string,
                           visits: map<string, nat>, t: Token)
  {
    exists i: nat, k: nat, d: Walker :: BranchAt(p, b, starts, g, join, visits, t, i, k, d)
  }

  /** Each token is on its own branch. */
  ghost predicate TokensTracked(p: PipelineDefinition, b: Behaviour, starts: seq<Place>, g: nat, join: string,
                                visits: map<string, nat>, tokens: seq<Token>)
  {
    && (forall i :: 0 <= i < |tokens| ==> OnBranch(p, b, starts, g, join, visits, tokens[i]))
    && (forall i, j :: 0 <= i < j < |tokens| ==> tokens[i].frames != tokens[j].frames)
  }

  ghost predicate ArrivalsTracked(p: PipelineDefinition, b: Behaviour, starts: seq<Place>, join: string,
                                  arrived: map<nat, Value>)
  {
    forall i :: i in arrived ==> i < |starts| && Delivered(p, b, starts[i], join, arrived[i])
  }

  /** While a top-level group is open, each token is on its branch and each arrival is its delivery. */
  ghost predicate Tracked(p: PipelineDefinition, b: Behaviour, starts: seq<Place>, g: nat, join: string, r: RunState) {
    && TokensTracked(p, b, starts, g, join, r.nodeVisits, Tokens(r))
    && ArrivalsTracked(p, b, starts, join, ArrivedIn(r.joins, g))
    && r.preparedJoin == ""
  }

  /** The active token stands at a join and this pass completes the join's group. */
  predicate Completes(p: PipelineDefinition, r: RunState) {
    && IsJoin(p, r.node) && r.preparedJoin != r.node
    && PrepareJoin(p, r).1.Proceed?
  }

  /** Taking the next token tracks if the ready tokens did. */
  lemma NextTracked(p: PipelineDefinition, b: Behaviour, starts: seq<Place>, g: nat, join: string, r: RunState)
    requires r.ready != [] && TokensTracked(p, b, starts, g, join, r.nodeVisits, r.ready)
    requires ArrivalsTracked(p, b, starts, join, ArrivedIn(r.joins, g))
    ensures Tracked(p, b, starts, g, join, NextReady(r))
  {
    NextReadyTokens(r);
    assert Tokens(NextReady(r)) == r.ready;
  }

  /** The branch the active token is on, when it stands at a join. */
  lemma AtOwnJoin(p: PipelineDefinition, b: Behaviour, starts: seq<Place>, g: nat, join: string, r: RunState)
    returns (i: nat)
    requires Tracked(p, b, starts, g, join, r) && PlainBranches(p, b, starts, join) && IsJoin(p, r.node)
    ensures i < |starts| && r.frames == [Frame(g, join, |starts|, i)]
    ensures Delivered(p, b, starts[i], join, r.message)
  {
    assert Tokens(r)[0] == Current(r);
    assert OnBranch(p, b, starts, g, join, r.nodeVisits, Current(r));
    var k: nat, d: Walker;
    i, k, d :| BranchAt(p, b, starts, g, join, r.nodeVisits, Current(r), i, k, d);
    assert OnPath(p, b, starts[i], r.node);
    assert d == Walker(join, r.message, d.visits);
    assert Delivers(p, b, starts[i], k, join, r.message);
  }

  /** A branch token waiting at its join records its delivery. */
  lemma WaitTracked(p: PipelineDefinition, b: Behaviour, starts: seq<Place>, g: nat, join: string, r: RunState)
    requires Tracked(p, b, starts, g, join, r) && PlainBranches(p, b, starts, join)
    requires IsJoin(p, r.node) && PrepareJoin(p, r).1.Waiting?
    ensures Tracked(p, b, starts, g, join, PrepareJoin(p, r).0)
  {
    var i := AtOwnJoin(p, b, starts, g, join, r);
    var all := ArrivedIn(r.joins, g)[i := r.message];
    var waiting := r.(joins := r.joins[g := all]);
    assert PrepareJoin(p, r).0 == NextReady(waiting);
    RestTracked(p, b, starts, g, join, r);
    NextTracked(p, b, starts, g, join, waiting);
  }

  lemma RestTracked(p: PipelineDefinition, b: Behaviour, starts: seq<Place>, g: nat, join: string, r: RunState)
    requires Tracked(p, b, starts, g, join, r)
    ensures TokensTracked(p, b, starts, g, join, r.nodeVisits, r.ready)
  {
    var tokens := Tokens(r);
    forall i | 0 <= i < |r.ready| ensures OnBranch(p, b, starts, g, join, r.nodeVisits, r.ready[i]) {
      assert tokens[i + 1] == r.ready[i];
    }
    forall i, j | 0 <= i < j < |r.ready| ensures r.ready[i].frames != r.ready[j].frames {
      assert tokens[i + 1] == r.ready[i] && tokens[j + 1] == r.ready[j];
    }
  }

  lemma NotShared(p: PipelineDefinition, b: Behaviour, starts: seq<Place>, visits: map<string, nat>, i: nat, j: nat,
                  n: string)
    requires Separated(p, b, starts, visits) && i < |starts| && j < |starts| && i != j
    requires OnPath(p, b, starts[i], n) && OnPath(p, b, starts[j], n) && !IsJoin(p, n)
    ensures VisitFreeAt(b, n)
  {
  }

  /** A node run by branch i leaves the other branches' counters aligned. */
  lemma OtherAligned(p: PipelineDefinition, b: Behaviour, starts: seq<Place>, g: nat, join: string,
                     visits: map<string, nat>, start: map<string, nat>, t: Token, i: nat, n: string, count: nat)
    requires OnBranch(p, b, starts, g, join, visits, t) && Separated(p, b, starts, start)
    requires i < |starts| && OnPath(p, b, starts[i], n) && !IsJoin(p, n)
    requires t.frames != [Frame(g, join, |starts|, i)]
    ensures OnBranch(p, b, starts, g, join, visits[n := count], t)
  {
    var j: nat, k: nat, d: Walker :| BranchAt(p, b, starts, g, join, visits, t, j, k, d);
    assert j != i;
    forall m {:trigger OnPath(p, b, starts[j], m)} |
      OnPath(p, b, starts[j], m) && !IsJoin(p, m) && !VisitFreeAt(b, m)
      ensures Count(visits[n := count], m) == Count(d.visits, m)
    {
      if m == n {
        NotShared(p, b, starts, start, i, j, n);
      }
    }
    assert BranchAt(p, b, starts, g, join, visits[n := count], t, j, k, d);
  }

  /** The walk runs the branch's node with an equivalent visit number, so it moves where the branch does. */
  lemma MoveRoutes(p: PipelineDefinition, b: Behaviour, starts: seq<Place>, g: nat, join: string, r: RunState,
                   i: nat, k: nat, d: Walker)
    requires BranchAt(p, b, starts, g, join, r.nodeVisits, Current(r), i, k, d) && !IsJoin(p, r.node)
    requires r.node in p.nodes
    requires |Matching(p.edges, r.node, Executed(b, r).1)| == 1
    ensures OnPath(p, b, starts[i], r.node)
    ensures var (ran, result) := Executed(b, r);
            var to := Matching(p.edges, r.node, result)[0].to;
            var e := Walker(to, ran.message, d.visits[r.node := Count(d.visits, r.node) + 1]);
            BranchAt(p, b, starts, g, join, ran.nodeVisits, Token(to, ran.message, r.frames), i, k + 1, e)
  {
    assert OnPath(p, b, starts[i], r.node);
    var (ran, result) := Executed(b, r);
    var visit := Count(r.nodeVisits, r.node) + 1;
    assert b(r.node, visit, r.message) == b(r.node, Count(d.visits, r.node) + 1, r.message) by {
      if !VisitFreeAt(b, r.node) {
        assert Count(r.nodeVisits, r.node) == Count(d.visits, r.node);
      }
    }
    var to := Matching(p.edges, r.node, result)[0].to;
    var e := Walker(to, ran.message, d.visits[r.node := Count(d.visits, r.node) + 1]);
    assert Route(p, b, d) == To(e);
    TravelsOn(p, b, Starting(starts[i]), k, d, e);
    forall n {:trigger OnPath(p, b, starts[i], n)} |
      OnPath(p, b, starts[i], n) && !IsJoin(p, n) && !VisitFreeAt(b, n)
      ensures Count(ran.nodeVisits, n) == Count(e.visits, n)
    {
      assert Count(r.nodeVisits, n) == Count(d.visits, n);
    }
  }

  /** A branch token moves one routed node further. */
  lemma MoveTracked(p: PipelineDefinition, b: Behaviour, starts: seq<Place>, g: nat, join: string,
                    start: map<string, nat>, r: RunState)
    requires Tracked(p, b, starts, g, join, r) && PlainBranches(p, b, starts, join) && Separated(p, b, starts, start)
    requires Behaves(p, b) && r.node in p.nodes && !IsJoin(p, r.node)
    requires p.nodes[r.node].kind.Output? <==> r.node == OUTPUT
    requires r.node != OUTPUT ==> FanOutOk(p.nodes[r.node].kind, Outgoing(p.edges, r.node))
    requires RunNode(p, b, r).1.Running?
    ensures Tracked(p, b, starts, g, join, RunNode(p, b, r).0)
  {
    assert Tokens(r)[0] == Current(r);
    assert OnBranch(p, b, starts, g, join, r.nodeVisits, Current(r));
    var i: nat, k: nat, d: Walker :| BranchAt(p, b, starts, g, join, r.nodeVisits, Current(r), i, k, d);
    assert OnPath(p, b, starts[i], r.node);
    var (ran, result) := Executed(b, r);
    assert Declared(p.nodes[r.node].kind, b(r.node, Count(r.nodeVisits, r.node) + 1, r.message).1);
    AdvanceCases(p, ran, result);
    var out := Matching(p.edges, r.node, result);
    MoveRoutes(p, b, starts, g, join, r, i, k, d);
    var after := AfterPush(p, ran, result);
    var moved := Token(out[0].to, ran.message, r.frames);
    assert Pushed(p, ran, out, 0) == [moved];
    assert OnBranch(p, b, starts, g, join, ran.nodeVisits, moved);
    MovedTokens(p, b, starts, g, join, start, r, after, moved, i);
  }

  lemma MovedTokens(p: PipelineDefinition, b: Behaviour, starts: seq<Place>, g: nat, join: string,
                    start: map<string, nat>, r: RunState, after: RunState, moved: Token, i: nat)
    requires Tracked(p, b, starts, g, join, r) && Separated(p, b, starts, start)
    requires after.ready == r.ready + [moved] && after.joins == r.joins
    requires i < |starts| && r.frames == moved.frames == [Frame(g, join, |starts|, i)]
    requires OnPath(p, b, starts[i], r.node) && !IsJoin(p, r.node)
    requires after.nodeVisits == r.nodeVisits[r.node := Count(r.nodeVisits, r.node) + 1]
    requires OnBranch(p, b, starts, g, join, after.nodeVisits, moved)
    ensures Tracked(p, b, starts, g, join, NextReady(after))
  {
    var tokens := Tokens(r);
    forall j | 0 <= j < |after.ready| ensures OnBranch(p, b, starts, g, join, after.nodeVisits, after.ready[j]) {
      if j < |r.ready| {
        assert tokens[j + 1] == r.ready[j] && tokens[0].frames == r.frames;
        OtherAligned(p, b, starts, g, join, r.nodeVisits, start, r.ready[j], i, r.node,
                     Count(r.nodeVisits, r.node) + 1);
      }
    }
    forall j, l | 0 <= j < l < |after.ready| ensures after.ready[j].frames != after.ready[l].frames {
      assert tokens[0].frames == r.frames && tokens[j + 1] == r.ready[j];
      if l < |r.ready| {
        assert tokens[l + 1] == r.ready[l];
      }
    }
    NextTracked(p, b, starts, g, join, after);
  }

  /** A pass that neither completes the group nor fails keeps the branches tracked. */
  lemma StepTracked(p: PipelineDefinition, extensions: set<string>, referenceOk: string -> bool, b: Behaviour,
                    starts: seq<Place>, g: nat, join: string, start: map<string, nat>, r: RunState, next: RunState)
    requires LocallyOk(p, extensions, referenceOk) && Behaves(p, b) && Separated(p, b, starts, start)
    requires PlainBranches(p, b, starts, join) && Tracked(p, b, starts, g, join, r)
    requires Continues(p, b, r, next) && !Completes(p, r)
    ensures Tracked(p, b, starts, g, join, next)
  {
    NodeFacts(p, extensions, referenceOk, r.node);
    NodeNamed(p, extensions, referenceOk, r.node);
    if p.nodes[r.node].kind.Join? {
      WaitTracked(p, b, starts, g, join, r);
    } else {
      MoveTracked(p, b, starts, g, join, start, r);
    }
  }

  lemma NodeNamed(p: PipelineDefinition, extensions: set<string>, referenceOk: string -> bool, id: string)
    requires LocallyOk(p, extensions, referenceOk) && id in p.nodes
    ensures id != ""
  {
    assert NodeOk(p, extensions, referenceOk, id);
  }

  /** A full table of deliveries lists as the joined array. */
  lemma FullTableJoins(p: PipelineDefinition, b: Behaviour, starts: seq<Place>, join: string, all: map<nat, Value>)
    requires ArrivalsTracked(p, b, starts, join, all) && |all| == |starts|
    ensures JoinedArray(p, b, starts, join, Ascending(all))
  {
    FullTable(all, |starts|);
    AscendingRange(all, 0, |starts|);
  }

  /** The pass that completes the group joins the branches' deliveries in index order. */
  lemma CompletionJoins(p: PipelineDefinition, b: Behaviour, starts: seq<Place>, g: nat, join: string, r: RunState)
    requires Tracked(p, b, starts, g, join, r) && PlainBranches(p, b, starts, join) && Completes(p, r)
    ensures PrepareJoin(p, r).0.message.Array?
    ensures JoinedArray(p, b, starts, join, PrepareJoin(p, r).0.message.items)
  {
    CompletedJoin(p, r);
    var i := AtOwnJoin(p, b, starts, g, join, r);
    FullTableJoins(p, b, starts, join, ArrivedIn(r.joins, g)[i := r.message]);
  }

  /** A running pass that does not complete the group. */
  ghost predicate OpenPass(p: PipelineDefinition, b: Behaviour, r: RunState, next: RunState) {
    Continues(p, b, r, next) && !Completes(p, r)
  }

  /** The passes from a fork until its join: all but the last leave the group open. */
  ghost predicate OpenUntil(p: PipelineDefinition, b: Behaviour, s: seq<RunState>, k: nat) {
    && k < |s|
    && forall i, j {:trigger OpenPass(p, b, s[i], s[j])} :: 0 <= i < k && j == i + 1 ==> OpenPass(p, b, s[i], s[j])
  }

  /** Over the whole walk of one top-level fork, the joined payload is the array of deliveries. */
  lemma {:induction false} SequentialJoin(p: PipelineDefinition, extensions: set<string>, referenceOk: string -> bool,
                                          b: Behaviour, starts: seq<Place>, g: nat, join: string,
                                          start: map<string, nat>, s: seq<RunState>, k: nat)
    requires LocallyOk(p, extensions, referenceOk) && Behaves(p, b) && Separated(p, b, starts, start)
    requires PlainBranches(p, b, starts, join) && OpenUntil(p, b, s, k) && Tracked(p, b, starts, g, join, s[0])
    ensures Tracked(p, b, starts, g, join, s[k])
    ensures Completes(p, s[k]) ==>
              PrepareJoin(p, s[k]).0.message.Array? &&
              JoinedArray(p, b, starts, join, PrepareJoin(p, s[k]).0.message.items)
  {
    if k > 0 {
      forall i, j {:trigger OpenPass(p, b, s[i], s[j])} | 0 <= i < k - 1 && j == i + 1
        ensures OpenPass(p, b, s[i], s[j])
      {
        assert OpenPass(p, b, s[i], s[j]);
      }
      SequentialJoin(p, extensions, referenceOk, b, starts, g, join, start, s, k - 1);
      assert OpenPass(p, b, s[k - 1], s[k]);
      StepTracked(p, extensions, referenceOk, b, starts, g, join, start, s[k - 1], s[k]);
    }
    if Completes(p, s[k]) {
      CompletionJoins(p, b, starts, g, join, s[k]);
    }
  }

  /** Where a fork's branches start. */
  function Starts(out: seq<EdgeDefinition>, message: Value): seq<Place> {
    seq(|out|, i requires 0 <= i < |out| => Place(out[i].to, message))
  }

  /** The tokens of a top-level fork: branch i's token carries frame index i. */
  lemma ForkPushes(p: PipelineDefinition, r: RunState, out: seq<EdgeDefinition>)
    requires r.node in p.nodes && p.nodes[r.node].kind.Parallel? && r.frames == []
    ensures |Pushed(p, r, out, 0)| == |out|
    ensures forall i :: 0 <= i < |out| ==>
              Pushed(p, r, out, 0)[i] ==
              Token(out[i].to, r.message, [Frame(r.nextGroup, p.nodes[r.node].join, |out|, i)])
  {
    PushedIsFork(p, r, out, 0);
    forall i | 0 <= i < |out|
      ensures Pushed(p, r, out, 0)[i].frames == [Frame(r.nextGroup, p.nodes[r.node].join, |out|, i)]
    {
      assert [] + [Frame(r.nextGroup, p.nodes[r.node].join, |out|, i)] ==
             [Frame(r.nextGroup, p.nodes[r.node].join, |out|, i)];
    }
  }

  /** A top-level fork with an empty ready list starts its branches tracked. */
  lemma ForkTracked(p: PipelineDefinition, b: Behaviour, r: RunState, out: seq<EdgeDefinition>, after: RunState)
    requires r.node in p.nodes && p.nodes[r.node].kind.Parallel? && |out| > 0
    requires r.frames == [] && r.ready == [] && r.joins == map[]
    requires after.ready == Pushed(p, r, out, 0) && after.joins == r.joins && after.nodeVisits == r.nodeVisits
    requires Separated(p, b, Starts(out, r.message), r.nodeVisits)
    ensures Tracked(p, b, Starts(out, r.message), r.nextGroup, p.nodes[r.node].join, NextReady(after))
  {
    var join := p.nodes[r.node].join;
    var starts := Starts(out, r.message);
    ForkPushes(p, r, out);
    forall i | 0 <= i < |after.ready|
      ensures OnBranch(p, b, starts, r.nextGroup, join, r.nodeVisits, after.ready[i])
    {
      var d := Starting(starts[i]);
      assert Travels(p, b, d, 0, d);
      assert BranchAt(p, b, starts, r.nextGroup, join, r.nodeVisits, after.ready[i], i, 0, d);
    }
    NextTracked(p, b, starts, r.nextGroup, join, after);
  }
}
