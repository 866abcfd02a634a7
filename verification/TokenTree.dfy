/**
 * The nesting invariant of the token machine. The flat run state (active token, ready list, join
 * tables) is the flattening of a tree of positions: a frame stack addresses a position, and each
 * position holds a live token, an open fork, or the message of an arrived branch.
 */
module TokenTree {
  import opened Digraph
  import opened Pipeline
  import opened TokenMachine

  datatype Occupant =
    | Live(node: string, message: Value)
    | Fork(group: nat, join: string, width: nat)
    | Arrived(message: Value)

  type Position = seq<Frame>
  type Tree = map<Position, Occupant>

  function Child(pos: Position, fork: Occupant, i: nat): Position
    requires fork.Fork?
  {
    pos + [Frame(fork.group, fork.join, fork.width, i)]
  }

  ghost predicate IsFork(t: Tree, pos: Position) {
    pos in t && t[pos].Fork?
  }

  /** A non-root position is a numbered branch of the fork at its parent. */
  ghost predicate UnderFork(t: Tree, pos: Position)
    requires pos != []
  {
    var parent := pos[..|pos| - 1];
    var f := pos[|pos| - 1];
    IsFork(t, parent) && f.index < t[parent].width && pos == Child(parent, t[parent], f.index)
  }

  /** Some branch of the fork at pos has not arrived. */
  ghost predicate StillOpen(t: Tree, pos: Position)
    requires IsFork(t, pos)
  {
    exists i :: 0 <= i < t[pos].width && Child(pos, t[pos], i) in t && !t[Child(pos, t[pos], i)].Arrived?
  }

  /** A well-formed tree: rooted, every position under a fork, every branch present, groups distinct. */
  ghost predicate Shape(t: Tree, nextGroup: nat) {
    && [] in t && !t[[]].Arrived?
    && (forall pos {:trigger UnderFork(t, pos)} :: pos in t && pos != [] ==> UnderFork(t, pos))
    && (forall pos, i {:trigger Child(pos, t[pos], i)} ::
          IsFork(t, pos) && 0 <= i < t[pos].width ==> Child(pos, t[pos], i) in t)
    && (forall pos {:trigger StillOpen(t, pos)} :: IsFork(t, pos) ==> StillOpen(t, pos))
    && (forall pos {:trigger IsFork(t, pos)} :: IsFork(t, pos) ==> t[pos].group < nextGroup)
    && (forall a, b {:trigger IsFork(t, a), IsFork(t, b)} ::
          IsFork(t, a) && IsFork(t, b) && t[a].group == t[b].group ==> a == b)
  }

  /** The tokens are exactly the live positions, one token each. */
  ghost predicate Faithful(tokens: seq<Token>, t: Tree) {
    && (forall i, j :: 0 <= i < j < |tokens| ==> tokens[i].frames != tokens[j].frames)
    && (forall k :: k in tokens ==> k.frames in t && t[k.frames] == Live(k.node, k.message))
    && (forall pos :: pos in t && t[pos].Live? ==> HasToken(tokens, pos))
  }

  ghost predicate HasToken(tokens: seq<Token>, pos: Position) {
    exists i :: 0 <= i < |tokens| && tokens[i].frames == pos
  }

  function ArrivedIn(joins: map<nat, map<nat, Value>>, group: nat): map<nat, Value> {
    if group in joins then joins[group] else map[]
  }

  /** The join tables are exactly the arrived branches of the open forks. */
  ghost predicate JoinsMatch(joins: map<nat, map<nat, Value>>, t: Tree) {
    && (forall pos {:trigger TableOf(joins, t, pos)} :: IsFork(t, pos) ==> TableOf(joins, t, pos))
    && (forall g :: g in joins ==> joins[g] != map[] && exists pos :: IsFork(t, pos) && t[pos].group == g)
  }

  ghost predicate TableOf(joins: map<nat, map<nat, Value>>, t: Tree, pos: Position)
    requires IsFork(t, pos)
  {
    var arrived := ArrivedIn(joins, t[pos].group);
    && (forall i :: i in arrived ==> i < t[pos].width && Child(pos, t[pos], i) in t &&
                                     t[Child(pos, t[pos], i)] == Arrived(arrived[i]))
    && (forall i :: 0 <= i < t[pos].width && Child(pos, t[pos], i) in t && t[Child(pos, t[pos], i)].Arrived? ==>
                      i in arrived)
  }

  function Current(r: RunState): Token {
    Token(r.node, r.message, r.frames)
  }

  /** The run state is the flattening of the tree, over nodes of the pipeline. */
  ghost predicate Inv(p: PipelineDefinition, r: RunState, t: Tree) {
    && Shape(t, r.nextGroup)
    && Faithful([Current(r)] + r.ready, t)
    && JoinsMatch(r.joins, t)
    && (forall pos :: pos in t && t[pos].Live? ==> t[pos].node in p.nodes)
  }

  // ---- Facts about well-formed trees ----

  /** Every proper prefix of a position is an open fork. */
  lemma {:induction false} PrefixIsFork(t: Tree, n: nat, pos: Position, k: nat)
    requires Shape(t, n) && pos in t && k < |pos|
    ensures IsFork(t, pos[..k])
  {
    var parent := pos[..|pos| - 1];
    assert UnderFork(t, pos);
    if k < |parent| {
      PrefixIsFork(t, n, parent, k);
      assert parent[..k] == pos[..k];
    } else {
      assert pos[..k] == parent;
    }
  }

  ghost function Below(t: Tree, pos: Position): set<Position> {
    set q | q in t && pos <= q
  }

  /** Below every position that has not arrived there is a live token. */
  lemma {:induction false} LiveBelow(t: Tree, n: nat, pos: Position) returns (live: Position)
    requires Shape(t, n) && pos in t && !t[pos].Arrived?
    ensures live in t && t[live].Live? && pos <= live
    decreases |Below(t, pos)|
  {
    if t[pos].Live? {
      live := pos;
    } else {
      assert IsFork(t, pos) && StillOpen(t, pos);
      var i :| 0 <= i < t[pos].width && Child(pos, t[pos], i) in t && !t[Child(pos, t[pos], i)].Arrived?;
      var c := Child(pos, t[pos], i);
      assert pos in Below(t, pos) && pos !in Below(t, c);
      assert Below(t, c) < Below(t, pos);
      CardinalityDrops(Below(t, c), Below(t, pos));
      live := LiveBelow(t, n, c);
    }
  }

  ghost function Upto(n: nat): (r: set<nat>)
    ensures |r| == n && forall i: nat :: i in r <==> i < n
  {
    if n == 0 then {} else Upto(n - 1) + {n - 1}
  }

  /** A table of indices below the width has that many entries exactly when it is full. */
  lemma FullTable<V>(m: map<nat, V>, width: nat)
    requires forall i :: i in m ==> i < width
    ensures |m| == width <==> forall i :: 0 <= i < width ==> i in m
  {
    var all := Upto(width);
    assert m.Keys <= all && |m| == |m.Keys|;
    if m.Keys != all {
      CardinalityDrops(m.Keys, all);
      var i :| i in all && i !in m.Keys;
    }
  }

  // ---- A token moves along one edge ----

  lemma MoveToken(t: Tree, n: nat, joins: map<nat, map<nat, Value>>, pos: Position, node: string, message: Value)
    requires Shape(t, n) && JoinsMatch(joins, t) && pos in t && t[pos].Live?
    ensures Shape(t[pos := Live(node, message)], n) && JoinsMatch(joins, t[pos := Live(node, message)])
  {
    var u := t[pos := Live(node, message)];
    Replace(t, n, joins, pos, u);
  }

  /** Exchanging one live occupant for another touches no fork and no arrival. */
  lemma Replace(t: Tree, n: nat, joins: map<nat, map<nat, Value>>, pos: Position, u: Tree)
    requires Shape(t, n) && JoinsMatch(joins, t) && pos in t && t[pos].Live?
    requires u.Keys == t.Keys && u[pos].Live? && forall q :: q in t && q != pos ==> u[q] == t[q]
    ensures Shape(u, n) && JoinsMatch(joins, u)
  {
    assert forall q :: IsFork(u, q) <==> IsFork(t, q);
    forall q | q in u && q != [] ensures UnderFork(u, q) {
      assert UnderFork(t, q);
    }
    forall q | IsFork(u, q) ensures StillOpen(u, q) && TableOf(joins, u, q) {
      assert IsFork(t, q) && StillOpen(t, q) && TableOf(joins, t, q);
    }
    forall g | g in joins ensures exists q :: IsFork(u, q) && u[q].group == g {
      var q :| IsFork(t, q) && t[q].group == g;
      assert IsFork(u, q);
    }
  }

  lemma MoveFaithful(cur: Token, ready: seq<Token>, t: Tree, next: Token)
    requires Faithful([cur] + ready, t) && next.frames == cur.frames
    ensures Faithful(ready + [next], t[cur.frames := Live(next.node, next.message)])
  {
    var tokens := [cur] + ready;
    var u := t[cur.frames := Live(next.node, next.message)];
    var moved := ready + [next];
    assert tokens[0] == cur;
    forall i | 0 <= i < |ready| ensures ready[i].frames != cur.frames {
      assert tokens[i + 1] == ready[i];
    }
    forall i, j | 0 <= i < j < |moved| ensures moved[i].frames != moved[j].frames {
      if j < |ready| {
        assert tokens[i + 1] == ready[i] && tokens[j + 1] == ready[j];
      }
    }
    forall k | k in moved ensures k.frames in u && u[k.frames] == Live(k.node, k.message) {
      if k != next {
        assert k in ready;
        assert k in tokens;
      } else {
        assert cur in tokens;
      }
    }
    forall pos | pos in u && u[pos].Live? ensures HasToken(moved, pos) {
      if pos == cur.frames {
        assert moved[|ready|].frames == pos;
      } else {
        assert HasToken(tokens, pos);
        var i :| 0 <= i < |tokens| && tokens[i].frames == pos;
        assert moved[i - 1].frames == pos;
      }
    }
  }

  // ---- A branch arrives and waits ----

  lemma AbsorbShape(t: Tree, n: nat, pos: Position, message: Value, other: nat)
    requires Shape(t, n) && pos in t && pos != [] && t[pos].Live?
    requires var parent := pos[..|pos| - 1];
             && IsFork(t, parent) && other < t[parent].width && Child(parent, t[parent], other) != pos
             && Child(parent, t[parent], other) in t && !t[Child(parent, t[parent], other)].Arrived?
    ensures Shape(t[pos := Arrived(message)], n)
  {
    var u := t[pos := Arrived(message)];
    assert forall q :: IsFork(u, q) <==> IsFork(t, q);
    forall q | q in u && q != [] ensures UnderFork(u, q) {
      assert UnderFork(t, q);
    }
    forall q | IsFork(u, q) ensures StillOpen(u, q) {
      assert IsFork(t, q) && StillOpen(t, q);
      var i :| 0 <= i < t[q].width && Child(q, t[q], i) in t && !t[Child(q, t[q], i)].Arrived?;
      if Child(q, t[q], i) == pos {
        assert q == pos[..|pos| - 1];
        assert !u[Child(q, u[q], other)].Arrived?;
      } else {
        assert !u[Child(q, u[q], i)].Arrived?;
      }
    }
  }

  lemma AbsorbJoins(t: Tree, n: nat, joins: map<nat, map<nat, Value>>, pos: Position, message: Value)
    requires Shape(t, n) && JoinsMatch(joins, t) && pos in t && pos != [] && t[pos].Live?
    ensures IsFork(t, pos[..|pos| - 1])
    ensures var f := pos[|pos| - 1];
            var u := t[pos := Arrived(message)];
            JoinsMatch(joins[f.group := ArrivedIn(joins, f.group)[f.index := message]], u)
  {
    var parent := pos[..|pos| - 1];
    var f := pos[|pos| - 1];
    var u := t[pos := Arrived(message)];
    var after := joins[f.group := ArrivedIn(joins, f.group)[f.index := message]];
    assert UnderFork(t, pos);
    assert forall q :: IsFork(u, q) <==> IsFork(t, q);
    forall q | IsFork(u, q) ensures TableOf(after, u, q) {
      assert IsFork(t, q) && TableOf(joins, t, q);
      if q == parent {
        AbsorbTable(joins, t, q, f.index, message, u, after);
      } else {
        assert t[q].group != f.group;
        OtherTable(joins, t, q, pos, u, after);
      }
    }
    forall g | g in after ensures after[g] != map[] && exists q :: IsFork(u, q) && u[q].group == g {
      if g == f.group {
        assert IsFork(u, parent) && u[parent].group == g;
        assert f.index in after[g];
      } else {
        var q :| IsFork(t, q) && t[q].group == g;
        assert IsFork(u, q);
      }
    }
  }

  lemma AbsorbTable(joins: map<nat, map<nat, Value>>, t: Tree, q: Position, index: nat, message: Value,
                    u: Tree, after: map<nat, map<nat, Value>>)
    requires IsFork(t, q) && TableOf(joins, t, q) && index < t[q].width && Child(q, t[q], index) in t
    requires u == t[Child(q, t[q], index) := Arrived(message)]
    requires after == joins[t[q].group := ArrivedIn(joins, t[q].group)[index := message]]
    ensures IsFork(u, q) && TableOf(after, u, q)
  {
    assert u[q] == t[q];
    var now := ArrivedIn(after, t[q].group);
    forall i | i in now
      ensures i < u[q].width && Child(q, u[q], i) in u && u[Child(q, u[q], i)] == Arrived(now[i])
    {
      if i != index {
        ChildrenDiffer(q, t[q], i, index);
      }
    }
    forall i | 0 <= i < u[q].width && Child(q, u[q], i) in u && u[Child(q, u[q], i)].Arrived? ensures i in now {
      if i != index {
        ChildrenDiffer(q, t[q], i, index);
      }
    }
  }

  lemma ChildrenDiffer(q: Position, fork: Occupant, i: nat, j: nat)
    requires fork.Fork? && i != j
    ensures Child(q, fork, i) != Child(q, fork, j)
  {
    assert Child(q, fork, i)[|q|].index == i && Child(q, fork, j)[|q|].index == j;
  }

  /** A fork with another group keeps its table when a branch elsewhere arrives. */
  lemma OtherTable(joins: map<nat, map<nat, Value>>, t: Tree, q: Position, pos: Position,
                   u: Tree, after: map<nat, map<nat, Value>>)
    requires IsFork(t, q) && TableOf(joins, t, q) && pos in t && t[pos].Live? && pos != []
    requires pos[|pos| - 1].group != t[q].group
    requires u.Keys == t.Keys && u[q] == t[q] && forall x :: x in t && x != pos ==> u[x] == t[x]
    requires ArrivedIn(after, t[q].group) == ArrivedIn(joins, t[q].group)
    ensures TableOf(after, u, q)
  {
    forall i: nat ensures Child(q, t[q], i) != pos {
      assert Child(q, t[q], i)[|q|].group == t[q].group;
    }
  }

  lemma DropFaithful(cur: Token, ready: seq<Token>, t: Tree, u: Tree)
    requires Faithful([cur] + ready, t)
    requires u.Keys == t.Keys && !u[cur.frames].Live? && forall q :: q in t && q != cur.frames ==> u[q] == t[q]
    ensures Faithful(ready, u)
  {
    var tokens := [cur] + ready;
    assert tokens[0] == cur;
    forall i, j | 0 <= i < j < |ready| ensures ready[i].frames != ready[j].frames {
      assert tokens[i + 1] == ready[i] && tokens[j + 1] == ready[j];
    }
    forall k | k in ready ensures k.frames in u && u[k.frames] == Live(k.node, k.message) {
      var i :| 0 <= i < |ready| && ready[i] == k;
      assert tokens[i + 1] == k;
      assert k in tokens && k.frames != cur.frames;
    }
    forall pos | pos in u && u[pos].Live? ensures HasToken(ready, pos) {
      assert HasToken(tokens, pos);
      var i :| 0 <= i < |tokens| && tokens[i].frames == pos;
      assert ready[i - 1].frames == pos;
    }
  }

  // ---- A fork opens ----

  /** Nothing lies below a position that is not a fork. */
  lemma NothingBelow(t: Tree, n: nat, pos: Position, q: Position)
    requires Shape(t, n) && pos in t && !t[pos].Fork? && q in t
    ensures !(pos < q)
  {
    if pos < q {
      assert q[..|pos|] == pos;
      PrefixIsFork(t, n, q, |pos|);
    }
  }

  ghost function Branches(pos: Position, fork: Occupant): set<Position>
    requires fork.Fork?
  {
    set i | i in Upto(fork.width) :: Child(pos, fork, i)
  }

  ghost function OpenFork(t: Tree, pos: Position, fork: Occupant, targets: seq<string>, message: Value): Tree
    requires fork.Fork? && fork.width == |targets|
  {
    map q: Position | q in t.Keys + {pos} + Branches(pos, fork) ::
      if q == pos then fork
      else if q in t then t[q]
      else Live(targets[q[|pos|].index], message)
  }

  lemma OpenForkOccupants(t: Tree, n: nat, pos: Position, fork: Occupant, targets: seq<string>, message: Value)
    requires Shape(t, n) && pos in t && t[pos].Live? && fork.Fork? && fork.width == |targets|
    ensures var u := OpenFork(t, pos, fork, targets, message);
            && pos in u && u[pos] == fork
            && (forall q :: q in t && q != pos ==> q in u && u[q] == t[q])
            && (forall i: nat :: i < |targets| ==>
                  Child(pos, fork, i) !in t && Child(pos, fork, i) in u &&
                  u[Child(pos, fork, i)] == Live(targets[i], message))
            && (forall q :: q in u && q !in t ==> q in Branches(pos, fork))
  {
    var u := OpenFork(t, pos, fork, targets, message);
    forall i: nat | i < |targets|
      ensures Child(pos, fork, i) !in t && Child(pos, fork, i) in u &&
              u[Child(pos, fork, i)] == Live(targets[i], message)
    {
      var c := Child(pos, fork, i);
      assert pos < c;
      if c in t {
        NothingBelow(t, n, pos, c);
      }
      assert c in Branches(pos, fork);
      assert c[|pos|].index == i;
    }
  }

  lemma ForkShape(t: Tree, n: nat, pos: Position, fork: Occupant, targets: seq<string>, message: Value)
    requires Shape(t, n) && pos in t && t[pos].Live?
    requires fork.Fork? && fork.group == n && fork.width == |targets| && |targets| > 0
    ensures Shape(OpenFork(t, pos, fork, targets, message), n + 1)
  {
    var u := OpenFork(t, pos, fork, targets, message);
    OpenForkOccupants(t, n, pos, fork, targets, message);
    forall q: Position {:trigger UnderFork(u, q)} | q in u && q != [] ensures UnderFork(u, q) {
      ForkUnder(t, n, pos, fork, targets, message, u, q);
    }
    ForkBranches(t, n, pos, fork, targets, message, u);
    ForkGroups(t, n, pos, fork, u);
  }

  lemma ForkUnder(t: Tree, n: nat, pos: Position, fork: Occupant, targets: seq<string>, message: Value, u: Tree,
                  q: Position)
    requires Shape(t, n) && pos in t && t[pos].Live? && fork.Fork? && fork.width == |targets|
    requires u == OpenFork(t, pos, fork, targets, message) && q in u && q != []
    ensures UnderFork(u, q)
  {
    OpenForkOccupants(t, n, pos, fork, targets, message);
    if q in t {
      assert UnderFork(t, q);
    } else {
      assert q in Branches(pos, fork);
      var i :| i in Upto(fork.width) && q == Child(pos, fork, i);
      assert q[..|q| - 1] == pos && q[|q| - 1].index == i;
    }
  }

  /** The new fork has a new group. */
  lemma ForkGroups(t: Tree, n: nat, pos: Position, fork: Occupant, u: Tree)
    requires Shape(t, n) && fork.Fork? && fork.group == n && pos in u && u[pos] == fork
    requires forall q :: IsFork(u, q) && q != pos ==> IsFork(t, q) && t[q] == u[q]
    ensures forall q {:trigger IsFork(u, q)} :: IsFork(u, q) ==> u[q].group < n + 1
    ensures forall a, b {:trigger IsFork(u, a), IsFork(u, b)} ::
              IsFork(u, a) && IsFork(u, b) && u[a].group == u[b].group ==> a == b
  {
  }

  /** After a fork opens, every fork still has all its branches, one of them not arrived. */
  lemma ForkBranches(t: Tree, n: nat, pos: Position, fork: Occupant, targets: seq<string>, message: Value, u: Tree)
    requires Shape(t, n) && pos in t && t[pos].Live?
    requires fork.Fork? && fork.group == n && fork.width == |targets| && |targets| > 0
    requires u == OpenFork(t, pos, fork, targets, message)
    ensures forall q, i :: IsFork(u, q) && 0 <= i < u[q].width ==> Child(q, u[q], i) in u
    ensures forall q :: IsFork(u, q) ==> StillOpen(u, q)
  {
    OpenForkOccupants(t, n, pos, fork, targets, message);
    assert forall q :: IsFork(u, q) <==> q == pos || IsFork(t, q);
    forall q, i | IsFork(u, q) && 0 <= i < u[q].width ensures Child(q, u[q], i) in u {
      if q != pos {
        assert IsFork(t, q) && Child(q, t[q], i) in t;
      }
    }
    forall q | IsFork(u, q) ensures StillOpen(u, q) {
      if q == pos {
        assert !u[Child(pos, fork, 0)].Arrived?;
      } else {
        assert StillOpen(t, q);
        var i :| 0 <= i < t[q].width && Child(q, t[q], i) in t && !t[Child(q, t[q], i)].Arrived?;
        assert !u[Child(q, u[q], i)].Arrived?;
      }
    }
  }

  lemma ForkJoins(t: Tree, n: nat, joins: map<nat, map<nat, Value>>, pos: Position, fork: Occupant,
                  targets: seq<string>, message: Value)
    requires Shape(t, n) && JoinsMatch(joins, t) && pos in t && t[pos].Live?
    requires fork.Fork? && fork.group == n && fork.width == |targets| && |targets| > 0
    ensures JoinsMatch(joins, OpenFork(t, pos, fork, targets, message))
  {
    var u := OpenFork(t, pos, fork, targets, message);
    OpenForkOccupants(t, n, pos, fork, targets, message);
    forall q | IsFork(u, q) ensures TableOf(joins, u, q) {
      if q == pos {
        assert n !in joins;
      } else {
        assert IsFork(t, q) && TableOf(joins, t, q);
        forall i | 0 <= i < t[q].width ensures Child(q, t[q], i) in t {
        }
      }
    }
    forall g | g in joins ensures exists q :: IsFork(u, q) && u[q].group == g {
      var q :| IsFork(t, q) && t[q].group == g;
      assert IsFork(u, q);
    }
  }

  /** The tokens a fork puts on the ready list. */
  function ForkTokens(pos: Position, fork: Occupant, targets: seq<string>, message: Value): seq<Token>
    requires fork.Fork? && fork.width == |targets|
  {
    seq(|targets|, i requires 0 <= i < |targets| => Token(targets[i], message, Child(pos, fork, i)))
  }

  lemma ForkFaithful(t: Tree, n: nat, cur: Token, ready: seq<Token>, fork: Occupant, targets: seq<string>,
                     message: Value)
    requires Shape(t, n) && Faithful([cur] + ready, t)
    requires fork.Fork? && fork.width == |targets|
    ensures cur.frames in t
    ensures Faithful(ready + ForkTokens(cur.frames, fork, targets, message),
                     OpenFork(t, cur.frames, fork, targets, message))
  {
    var pos := cur.frames;
    var tokens := [cur] + ready;
    assert tokens[0] == cur;
    assert cur in tokens;
    var u := OpenFork(t, pos, fork, targets, message);
    OpenForkOccupants(t, n, pos, fork, targets, message);
    DropFaithful(cur, ready, t, t[pos := fork]);
    var branches := ForkTokens(pos, fork, targets, message);
    var all := ready + branches;
    forall i, j | 0 <= i < j < |all| ensures all[i].frames != all[j].frames {
      if j >= |ready| {
        var b := j - |ready|;
        assert all[j] == branches[b];
        if i < |ready| {
          assert ready[i] in ready;
          assert Child(pos, fork, b) !in t;
        } else {
          assert all[i] == branches[i - |ready|];
          ChildrenDiffer(pos, fork, i - |ready|, b);
        }
      }
    }
    forall k | k in all ensures k.frames in u && u[k.frames] == Live(k.node, k.message) {
      if k in ready {
        assert k.frames in t && k.frames != pos;
      } else {
        assert k in branches;
      }
    }
    forall q | q in u && u[q].Live? ensures HasToken(all, q) {
      if q in t {
        assert HasToken(ready, q);
        var i :| 0 <= i < |ready| && ready[i].frames == q;
        assert all[i].frames == q;
      } else {
        assert q in Branches(pos, fork);
        var i :| i in Upto(fork.width) && q == Child(pos, fork, i);
        assert all[|ready| + i].frames == q;
      }
    }
  }

  // ---- The last branch arrives ----

  /** Closes the fork at pos: its branches disappear and one live token takes its place. */
  ghost function CloseFork(t: Tree, pos: Position, node: string, message: Value): Tree {
    map q | q in t && !(pos < q) :: if q == pos then Live(node, message) else t[q]
  }

  lemma CloseShape(t: Tree, n: nat, pos: Position, node: string, message: Value)
    requires Shape(t, n) && IsFork(t, pos)
    ensures Shape(CloseFork(t, pos, node, message), n)
  {
    var u := CloseFork(t, pos, node, message);
    CloseForks(t, pos, node, message, u);
    forall q: Position | q in u && q != [] ensures UnderFork(u, q) {
      CloseUnder(t, n, pos, node, message, q);
    }
    assert forall q, i :: IsFork(u, q) && 0 <= i < u[q].width ==> Child(q, u[q], i) in u by {
      forall q, i: nat | IsFork(u, q) && i < u[q].width ensures Child(q, u[q], i) in u {
        ChildOutside(t, n, pos, q, i);
      }
    }
    forall q | IsFork(u, q) ensures StillOpen(u, q) {
      CloseOpen(t, n, pos, node, message, q);
    }
  }

  lemma CloseForks(t: Tree, pos: Position, node: string, message: Value, u: Tree)
    requires u == CloseFork(t, pos, node, message)
    ensures forall q {:trigger IsFork(u, q)} :: IsFork(u, q) ==> IsFork(t, q) && u[q] == t[q] && !(pos <= q)
  {
  }

  lemma CloseUnder(t: Tree, n: nat, pos: Position, node: string, message: Value, q: Position)
    requires Shape(t, n) && IsFork(t, pos) && q in CloseFork(t, pos, node, message) && q != []
    ensures UnderFork(CloseFork(t, pos, node, message), q)
  {
    assert UnderFork(t, q);
    var parent := q[..|q| - 1];
    assert parent < q && (pos <= parent ==> pos < q);
  }

  lemma CloseOpen(t: Tree, n: nat, pos: Position, node: string, message: Value, q: Position)
    requires Shape(t, n) && IsFork(t, pos) && IsFork(CloseFork(t, pos, node, message), q)
    ensures StillOpen(CloseFork(t, pos, node, message), q)
  {
    var u := CloseFork(t, pos, node, message);
    assert IsFork(t, q) && StillOpen(t, q) && u[q] == t[q];
    var i :| 0 <= i < t[q].width && Child(q, t[q], i) in t && !t[Child(q, t[q], i)].Arrived?;
    ChildOutside(t, n, pos, q, i);
    assert !u[Child(q, u[q], i)].Arrived?;
  }

  lemma ChildOutside(t: Tree, n: nat, pos: Position, q: Position, i: nat)
    requires Shape(t, n) && IsFork(t, q) && i < t[q].width && !(pos <= q)
    ensures Child(q, t[q], i) in t && !(pos < Child(q, t[q], i))
  {
    var c := Child(q, t[q], i);
    assert |pos| < |c| ==> c[..|pos|] == q[..|pos|];
  }

  /** No branch of the fork at pos has forked again. */
  ghost predicate LeafBranches(t: Tree, pos: Position)
    requires IsFork(t, pos)
  {
    forall i :: 0 <= i < t[pos].width && Child(pos, t[pos], i) in t ==> !t[Child(pos, t[pos], i)].Fork?
  }

  lemma BelowIsBranch(t: Tree, n: nat, pos: Position, q: Position)
    requires Shape(t, n) && IsFork(t, pos) && LeafBranches(t, pos) && q in t && pos < q
    ensures q[|pos|].index < t[pos].width && q == Child(pos, t[pos], q[|pos|].index) && !t[q].Fork?
  {
    var c := q[..|pos| + 1];
    if |q| > |pos| + 1 {
      PrefixIsFork(t, n, q, |pos| + 1);
    } else {
      assert c == q;
    }
    assert c in t && c[..|c| - 1] == pos;
    assert UnderFork(t, c);
    assert c == Child(pos, t[pos], c[|pos|].index);
  }

  lemma CloseJoins(t: Tree, n: nat, joins: map<nat, map<nat, Value>>, pos: Position, node: string, message: Value)
    requires Shape(t, n) && JoinsMatch(joins, t) && IsFork(t, pos) && LeafBranches(t, pos)
    ensures JoinsMatch(joins - {t[pos].group}, CloseFork(t, pos, node, message))
  {
    var u := CloseFork(t, pos, node, message);
    var after := joins - {t[pos].group};
    forall q | IsFork(u, q) ensures TableOf(after, u, q) {
      assert IsFork(t, q) && TableOf(joins, t, q) && t[q].group != t[pos].group;
      forall i: nat | i < t[q].width
        ensures Child(q, t[q], i) in u && (u[Child(q, t[q], i)].Arrived? <==> t[Child(q, t[q], i)].Arrived?)
      {
        ChildOutside(t, n, pos, q, i);
      }
    }
    forall g | g in after ensures exists q :: IsFork(u, q) && u[q].group == g {
      var q :| IsFork(t, q) && t[q].group == g;
      if pos < q {
        BelowIsBranch(t, n, pos, q);
      }
      assert IsFork(u, q);
    }
  }

  lemma CloseFaithful(t: Tree, n: nat, cur: Token, ready: seq<Token>, node: string, message: Value)
    requires Shape(t, n) && Faithful([cur] + ready, t) && cur.frames != []
    requires var pos := cur.frames[..|cur.frames| - 1];
             && IsFork(t, pos) && LeafBranches(t, pos)
             && forall i :: 0 <= i < t[pos].width && Child(pos, t[pos], i) != cur.frames ==>
                              t[Child(pos, t[pos], i)].Arrived?
    ensures var pos := cur.frames[..|cur.frames| - 1];
            Faithful([Token(node, message, pos)] + ready, CloseFork(t, pos, node, message))
  {
    var pos := cur.frames[..|cur.frames| - 1];
    var tokens := [cur] + ready;
    var u := CloseFork(t, pos, node, message);
    var joined := Token(node, message, pos);
    var after := [joined] + ready;
    assert tokens[0] == cur;
    DropFaithful(cur, ready, t, t[cur.frames := Arrived(message)]);
    forall k | k in ready ensures k.frames != pos && !(pos < k.frames) {
      assert k.frames in t && t[k.frames].Live? && k.frames != cur.frames;
      if pos < k.frames {
        BelowIsBranch(t, n, pos, k.frames);
      }
    }
    CloseTokens(t, cur, ready, joined, u);
  }

  /** The joined token and the other live ones are exactly the live positions of the closed tree. */
  lemma CloseTokens(t: Tree, cur: Token, ready: seq<Token>, joined: Token, u: Tree)
    requires Faithful([cur] + ready, t) && cur.frames != []
    requires u == CloseFork(t, joined.frames, joined.node, joined.message) && joined.frames < cur.frames
    requires joined.frames in t
    requires forall k :: k in ready ==> k.frames != joined.frames && !(joined.frames < k.frames)
    ensures Faithful([joined] + ready, u)
  {
    var tokens := [cur] + ready;
    var after := [joined] + ready;
    forall i, j | 0 <= i < j < |after| ensures after[i].frames != after[j].frames {
      assert after[j] == ready[j - 1] == tokens[j];
      if i > 0 {
        assert after[i] == ready[i - 1] == tokens[i];
      }
    }
    forall k | k in after ensures k.frames in u && u[k.frames] == Live(k.node, k.message) {
      if k != joined {
        assert k in ready && k in tokens;
      }
    }
    forall q | q in u && u[q].Live? ensures HasToken(after, q) {
      if q == joined.frames {
        assert after[0].frames == q;
      } else {
        assert HasToken(tokens, q) && q != cur.frames;
        var i :| 0 <= i < |tokens| && tokens[i].frames == q;
        assert tokens[0] == cur && i != 0;
        assert after[i] == tokens[i];
        assert after[i].frames == q;
      }
    }
  }
}
