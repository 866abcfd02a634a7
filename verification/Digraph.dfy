/** Finite directed graphs: paths, cycles, reachability and topological orders. */
module Digraph {

  /** Successor sets by node; the nodes of the graph are the keys. */
  type Graph<N> = map<N, set<N>>

  ghost predicate Closed<N>(g: Graph<N>) {
    forall n :: n in g ==> g[n] <= g.Keys
  }

  ghost predicate Edge<N>(g: Graph<N>, a: N, b: N) {
    a in g && b in g[a]
  }

  ghost predicate IsPath<N>(g: Graph<N>, s: seq<N>) {
    && |s| > 0
    && (forall i :: 0 <= i < |s| ==> s[i] in g)
    && (forall i :: 0 <= i < |s| - 1 ==> Edge(g, s[i], s[i + 1]))
  }

  ghost predicate IsCycle<N>(g: Graph<N>, s: seq<N>) {
    IsPath(g, s) && |s| >= 2 && s[0] == s[|s| - 1]
  }

  ghost predicate HasCycle<N(!new)>(g: Graph<N>) {
    exists s :: IsCycle(g, s)
  }

  ghost predicate PathBetween<N>(g: Graph<N>, s: seq<N>, a: N, b: N) {
    IsPath(g, s) && s[0] == a && s[|s| - 1] == b
  }

  ghost predicate Reaches<N(!new)>(g: Graph<N>, a: N, b: N) {
    exists s :: PathBetween(g, s, a, b)
  }

  ghost predicate Distinct<N>(s: seq<N>) {
    forall i, j :: 0 <= i < j < |s| ==> s[i] != s[j]
  }

  /** Every successor of a listed node is listed strictly before it. */
  ghost predicate SuccessorsFirst<N>(g: Graph<N>, order: seq<N>) {
    && Distinct(order)
    && (forall i :: 0 <= i < |order| ==> order[i] in g)
    && (forall i, m :: 0 <= i < |order| && m in g[order[i]] ==> m in order[..i])
  }

  /** A topological order of the whole graph, sinks first. */
  ghost predicate TopologicalOrder<N>(g: Graph<N>, order: seq<N>) {
    SuccessorsFirst(g, order) && forall n :: n in g ==> n in order
  }

  ghost function Rank<N>(order: seq<N>, n: N): (i: nat)
    requires n in order
    ensures i < |order| && order[i] == n
  {
    var i :| 0 <= i < |order| && order[i] == n;
    i
  }

  lemma EdgeDescends<N>(g: Graph<N>, order: seq<N>, a: N, b: N)
    requires SuccessorsFirst(g, order) && a in order && Edge(g, a, b)
    ensures b in order && Rank(order, b) < Rank(order, a)
  {
    var i := Rank(order, a);
    assert b in order[..i];
    var j :| 0 <= j < i && order[..i][j] == b;
    assert order[j] == b;
    assert Rank(order, b) == j;
  }

  /** Along a path that starts inside a successors-first list, positions strictly fall. */
  lemma {:induction false} PathDescends<N>(g: Graph<N>, order: seq<N>, s: seq<N>, k: nat)
    requires SuccessorsFirst(g, order) && IsPath(g, s) && s[0] in order && k < |s|
    ensures s[k] in order
    ensures Rank(order, s[k]) + k <= Rank(order, s[0])
  {
    if k > 0 {
      PathDescends(g, order, s, k - 1);
      assert Edge(g, s[k - 1], s[k - 1 + 1]);
      EdgeDescends(g, order, s[k - 1], s[k]);
    }
  }

  /** A topological order excludes every cycle. */
  lemma OrderExcludesCycles<N(!new)>(g: Graph<N>, order: seq<N>)
    requires TopologicalOrder(g, order)
    ensures !HasCycle(g)
  {
    if HasCycle(g) {
      var s :| IsCycle(g, s);
      PathDescends(g, order, s, |s| - 1);
      assert false;
    }
  }

  /** The stretch of a path from position i back to an equal node is a cycle. */
  lemma PathReturning<N(!new)>(g: Graph<N>, s: seq<N>, i: nat, m: N)
    requires IsPath(g, s) && i < |s| && s[i] == m && Edge(g, s[|s| - 1], m)
    ensures HasCycle(g)
  {
    var c := s[i..] + [m];
    forall k | 0 <= k < |c| - 1 ensures Edge(g, c[k], c[k + 1]) {
      if i + k < |s| - 1 {
        assert Edge(g, s[i + k], s[i + k + 1]);
      }
    }
    assert IsCycle(g, c);
  }

  lemma PathSuffix<N>(g: Graph<N>, s: seq<N>, m: N)
    requires IsPath(g, s) && m in g && Edge(g, s[|s| - 1], m)
    ensures IsPath(g, s + [m])
  {
    var t := s + [m];
    forall k | 0 <= k < |t| - 1 ensures Edge(g, t[k], t[k + 1]) {
      if k < |s| - 1 {
        assert Edge(g, s[k], s[k + 1]);
      }
    }
  }

  lemma DistinctFits<N>(s: seq<N>, u: set<N>)
    requires Distinct(s) && forall x :: x in s ==> x in u
    ensures |s| <= |u|
  {
    if |s| > 0 {
      var n := |s| - 1;
      var rest := s[..n];
      forall x | x in rest ensures x in u - {s[n]} {
        var i :| 0 <= i < n && rest[i] == x;
        assert s[i] == x;
      }
      DistinctFits(rest, u - {s[n]});
      assert s[n] in u;
    }
  }

  /** Walking inside a set where every node has a successor in the set must close a cycle. */
  lemma {:induction false} EndlessWalkCycles<N(!new)>(g: Graph<N>, r: set<N>, walk: seq<N>)
    requires r <= g.Keys
    requires forall n :: n in r ==> g[n] * r != {}
    requires IsPath(g, walk) && Distinct(walk) && forall x :: x in walk ==> x in r
    ensures HasCycle(g)
    decreases |r| - |walk|
  {
    DistinctFits(walk, r);
    var last := walk[|walk| - 1];
    assert last in walk;
    assert g[last] * r != {};
    var m :| m in g[last] * r;
    if m in walk {
      var i :| 0 <= i < |walk| && walk[i] == m;
      PathReturning(g, walk, i, m);
    } else {
      PathSuffix(g, walk, m);
      DistinctFits(walk + [m], r);
      EndlessWalkCycles(g, r, walk + [m]);
    }
  }

  lemma SinkExists<N(!new)>(g: Graph<N>, r: set<N>) returns (n: N)
    requires !HasCycle(g) && r <= g.Keys && r != {}
    ensures n in r && g[n] * r == {}
  {
    if exists x :: x in r && g[x] * r == {} {
      n :| n in r && g[n] * r == {};
    } else {
      var x :| x in r;
      EndlessWalkCycles(g, r, [x]);
      assert false;
    }
  }

  lemma AppendToOrder<N>(g: Graph<N>, order: seq<N>, n: N)
    requires SuccessorsFirst(g, order) && n in g && n !in order
    requires forall m :: m in g[n] ==> m in order
    ensures SuccessorsFirst(g, order + [n])
  {
    var next := order + [n];
    forall i, m | 0 <= i < |next| && m in g[next[i]] ensures m in next[..i] {
      if i < |order| {
        assert m in order[..i];
        assert next[..i] == order[..i];
      } else {
        assert next[..i] == order;
      }
    }
  }

  lemma PathPrefix<N>(g: Graph<N>, s: seq<N>, m: N)
    requires |s| > 0 && IsPath(g, s + [m])
    ensures IsPath(g, s)
  {
    var t := s + [m];
    forall k | 0 <= k < |s| ensures s[k] in g {
      assert t[k] == s[k];
    }
    forall k | 0 <= k < |s| - 1 ensures Edge(g, s[k], s[k + 1]) {
      assert Edge(g, t[k], t[k + 1]);
    }
  }

  /** Extending a successors-first list by sinks of what is left reaches a topological order. */
  lemma {:induction false} ExtendOrder<N(!new)>(g: Graph<N>, order: seq<N>) returns (full: seq<N>)
    requires Closed(g) && !HasCycle(g) && SuccessorsFirst(g, order)
    ensures TopologicalOrder(g, full)
    decreases |g.Keys - (set x | x in order)|
  {
    var listed := set x | x in order;
    var rest := g.Keys - listed;
    if rest == {} {
      full := order;
      forall n | n in g ensures n in order {
        assert n in listed;
      }
    } else {
      var n := SinkExists(g, rest);
      forall m | m in g[n] ensures m in order {
        assert m in g.Keys;
        assert m !in rest;
      }
      var next := order + [n];
      AppendToOrder(g, order, n);
      assert (set x | x in next) == listed + {n};
      assert g.Keys - (set x | x in next) < rest;
      CardinalityDrops(g.Keys - (set x | x in next), rest);
      full := ExtendOrder(g, next);
    }
  }

  lemma CardinalityDrops<T>(small: set<T>, big: set<T>)
    requires small < big
    ensures |small| < |big|
  {
    assert big == small + (big - small);
    assert big - small != {};
  }

  /** A closed finite graph is acyclic exactly when it has a topological order. */
  lemma AcyclicIffOrdered<N(!new)>(g: Graph<N>)
    requires Closed(g)
    ensures !HasCycle(g) <==> exists order :: TopologicalOrder(g, order)
  {
    if !HasCycle(g) {
      var order := ExtendOrder(g, []);
      assert TopologicalOrder(g, order);
    }
    if exists order :: TopologicalOrder(g, order) {
      var order :| TopologicalOrder(g, order);
      OrderExcludesCycles(g, order);
    }
  }
}
