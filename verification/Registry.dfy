/**
 * The pipeline registry. A registration looks its key up, lists the records to resolve its references
 * and to refuse cyclic dependencies, and commits by an unlocked check followed by an upsert. Other
 * registrations may come in between any two of these steps.
 */
module Registry {
  import opened Options
  import opened Digraph

  datatype Key = Key(name: string, version: nat)

  /** A reference to a pipeline, with or without an explicit version. */
  datatype Reference = Reference(name: string, version: Option<nat>)

  /** A revision with its resolved dependencies, one per subpipeline node, and the time it was made at. */
  datatype Revision = Revision(source: string, dependencies: seq<Key>, registeredAt: nat)

  type Records = map<Key, Revision>

  datatype Failure = NotRegistered | Ambiguous | Immutable | Recursive

  datatype Outcome = Accepted(revision: Revision) | Existing(revision: Revision) | Failed(failure: Failure)

  // ----- resolution --------------------------------------------------------------------------

  function Named(records: Records, name: string): set<Key> {
    set k | k in records && k.name == name
  }

  /**
   * An unversioned reference counts the listed revisions of the name and, once more, the candidate:
   * a candidate that is already listed makes its own name ambiguous.
   */
  ghost predicate ResolvesTo(records: Records, candidate: Key, r: Reference, k: Key) {
    match r.version
    case Some(v) => k == Key(r.name, v) && (k == candidate || k in records)
    case None => if candidate.name == r.name then Named(records, r.name) == {} && k == candidate
                 else Named(records, r.name) == {k}
  }

  /** Why a reference has no resolution. */
  ghost function Unresolved(records: Records, candidate: Key, r: Reference): Failure {
    if r.version.None? && (candidate.name == r.name || Named(records, r.name) != {}) then Ambiguous else NotRegistered
  }

  ghost predicate Resolvable(records: Records, candidate: Key, r: Reference) {
    exists k :: ResolvesTo(records, candidate, r, k)
  }

  method ResolveReference(records: Records, candidate: Key, r: Reference) returns (k: Key, failure: Option<Failure>)
    ensures failure.None? <==> Resolvable(records, candidate, r)
    ensures failure.None? ==> ResolvesTo(records, candidate, r, k)
    ensures failure.Some? ==> failure.value == Unresolved(records, candidate, r)
  {
    k, failure := candidate, None;
    if r.version.Some? {
      k := Key(r.name, r.version.value);
      if k != candidate && k !in records {
        failure := Some(NotRegistered);
      }
      assert failure.None? ==> ResolvesTo(records, candidate, r, k);
      return;
    }
    var found := Named(records, r.name);
    if candidate.name == r.name {
      if found != {} {
        return k, Some(Ambiguous);
      }
      assert ResolvesTo(records, candidate, r, k);
      return;
    }
    if found == {} {
      return k, Some(NotRegistered);
    }
    k :| k in found;
    if |found| != 1 {
      forall j ensures found != {j} {
      }
      return k, Some(Ambiguous);
    }
    assert |found - {k}| == 0;
    assert found == {k};
    assert ResolvesTo(records, candidate, r, k);
  }

  /** The dependencies are the references' resolutions, in order. */
  ghost predicate ResolveAll(records: Records, candidate: Key, refs: seq<Reference>, deps: seq<Key>) {
    |deps| == |refs| && forall i :: 0 <= i < |refs| ==> ResolvesTo(records, candidate, refs[i], deps[i])
  }

  /** Every resolution is registered or the candidate itself. */
  lemma {:induction false} ResolvedKnown(records: Records, candidate: Key, refs: seq<Reference>, deps: seq<Key>)
    requires ResolveAll(records, candidate, refs, deps)
    ensures forall k :: k in deps ==> k in records || k == candidate
  {
    forall k | k in deps ensures k in records || k == candidate {
      var i :| 0 <= i < |deps| && deps[i] == k;
      assert ResolvesTo(records, candidate, refs[i], deps[i]);
      assert refs[i].version.None? && k != candidate ==> k in Named(records, refs[i].name);
    }
  }

  // ----- dependencies ------------------------------------------------------------------------

  ghost function DependencySet(r: Revision): set<Key> {
    set k | k in r.dependencies
  }

  ghost function GraphOf(records: Records): Graph<Key> {
    map k | k in records :: DependencySet(records[k])
  }

  /** A cycle that can be reached from the node. */
  ghost predicate CycleBehind<N(!new)>(g: Graph<N>, n: N) {
    exists s :: IsCycle(g, s) && Reaches(g, n, s[0])
  }

  datatype Visited = Clear | Cyclic | Missing

  /** The nodes being visited form a path and the visited rest lists successors first. */
  ghost predicate VisitState<N(!new)>(g: Graph<N>, root: N, active: set<N>, visited: set<N>, path: seq<N>,
                                      done: seq<N>)
  {
    && (forall n :: n in active <==> n in path)
    && (forall n :: n in visited <==> n in path || n in done)
    && (forall n :: n in path ==> n !in done)
    && SuccessorsFirst(g, done)
    && (path != [] ==> IsPath(g, path) && path[0] == root)
  }

  lemma {:induction false} EnterState<N(!new)>(g: Graph<N>, root: N, active: set<N>, visited: set<N>, path: seq<N>,
                                               done: seq<N>, n: N)
    requires VisitState(g, root, active, visited, path, done) && n in g && n !in visited
    requires if path == [] then n == root else Edge(g, path[|path| - 1], n)
    ensures VisitState(g, root, active + {n}, visited + {n}, path + [n], done)
  {
    if path != [] {
      PathSuffix(g, path, n);
    }
    assert forall m :: m in path + [n] <==> m in path || m == n;
    assert n !in path && n !in done;
  }

  lemma {:induction false} LeaveState<N(!new)>(g: Graph<N>, root: N, active: set<N>, visited: set<N>, path: seq<N>,
                                               done: seq<N>, n: N)
    requires VisitState(g, root, active, visited, path + [n], done) && n in g && n !in path
    requires forall m :: m in g[n] ==> m in done
    ensures VisitState(g, root, active - {n}, visited, path, done + [n])
  {
    assert forall m :: m in path + [n] <==> m in path || m == n;
    assert forall m :: m in done + [n] <==> m in done || m == n;
    assert n in path + [n];
    AppendToOrder(g, done, n);
    if path != [] {
      PathPrefix(g, path, n);
      assert (path + [n])[0] == path[0];
    }
  }

  lemma {:induction false} BackEdge<N(!new)>(g: Graph<N>, root: N, path: seq<N>, n: N)
    requires IsPath(g, path) && path[0] == root && n in path && Edge(g, path[|path| - 1], n)
    ensures CycleBehind(g, root)
  {
    var i :| 0 <= i < |path| && path[i] == n;
    var c := path[i..] + [n];
    forall k | 0 <= k < |c| - 1 ensures Edge(g, c[k], c[k + 1]) {
      if i + k < |path| - 1 {
        assert Edge(g, path[i + k], path[i + k + 1]);
      }
    }
    assert IsCycle(g, c);
    var up := path[..i + 1];
    forall k | 0 <= k < |up| - 1 ensures Edge(g, up[k], up[k + 1]) {
      assert Edge(g, path[k], path[k + 1]);
    }
    assert PathBetween(g, up, root, c[0]);
  }

  /** One call of the recursive visit. */
  method Visit(records: Records, revision: Key, active: set<Key>, visited: set<Key>,
               ghost root: Key, ghost path: seq<Key>, ghost done: seq<Key>)
    returns (r: Visited, seen: set<Key>, ghost finished: seq<Key>)
    requires VisitState(GraphOf(records), root, active, visited, path, done)
    requires if path == [] then revision == root else Edge(GraphOf(records), path[|path| - 1], revision)
    ensures r.Clear? ==> VisitState(GraphOf(records), root, active, seen, path, finished)
                         && visited <= seen && done <= finished && revision in finished
    ensures r.Cyclic? ==> CycleBehind(GraphOf(records), root)
    ensures r.Missing? ==> revision !in records || !Closed(GraphOf(records))
    decreases records.Keys - visited
  {
    ghost var g := GraphOf(records);
    seen, finished := visited, done;
    if revision in active {
      BackEdge(g, root, path, revision);
      return Cyclic, seen, finished;
    }
    if revision in visited {
      return Clear, seen, finished;
    }
    if revision !in records {
      return Missing, seen, finished;
    }
    EnterState(g, root, active, visited, path, done, revision);
    var entered := active + {revision};
    seen := seen + {revision};
    var children := records[revision].dependencies;
    for i := 0 to |children|
      invariant VisitState(g, root, entered, seen, path + [revision], finished)
      invariant visited + {revision} <= seen && done <= finished
      invariant forall k :: 0 <= k < i ==> children[k] in finished
    {
      assert children[i] in DependencySet(records[revision]);
      assert Closed(g) ==> children[i] in g.Keys;
      assert Edge(g, (path + [revision])[|path|], children[i]);
      r, seen, finished := Visit(records, children[i], entered, seen, root, path + [revision], finished);
      if !r.Clear? {
        return;
      }
    }
    LeaveState(g, root, entered, seen, path, finished, revision);
    assert entered - {revision} == active;
    return Clear, seen, finished + [revision];
  }

  /** A successors-first list around a node leaves no cycle behind it. */
  lemma {:induction false} ListedIsClear<N(!new)>(g: Graph<N>, done: seq<N>, n: N)
    requires SuccessorsFirst(g, done) && n in done
    ensures !CycleBehind(g, n)
  {
    if s :| IsCycle(g, s) && Reaches(g, n, s[0]) {
      var up :| PathBetween(g, up, n, s[0]);
      PathDescends(g, done, up, |up| - 1);
      PathDescends(g, done, s, |s| - 1);
      assert false;
    }
  }

  /** The visit from a revision refuses exactly the ones with a cycle behind them. */
  method CheckDependencies(records: Records, revision: Key) returns (r: Visited)
    requires revision in records
    ensures r.Clear? ==> !CycleBehind(GraphOf(records), revision)
    ensures r.Cyclic? ==> CycleBehind(GraphOf(records), revision)
    ensures r.Missing? ==> !Closed(GraphOf(records))
  {
    ghost var finished;
    var seen;
    r, seen, finished := Visit(records, revision, {}, {}, revision, [], []);
    if r.Clear? {
      ListedIsClear(GraphOf(records), finished, revision);
    }
  }

  // ----- registration ------------------------------------------------------------------------

  /** What a registration asks for; its revision will carry the given time. */
  datatype Request = Request(key: Key, source: string, references: seq<Reference>, at: nat)

  /** The records with the candidate added. */
  function With(records: Records, key: Key, r: Revision): Records {
    records[key := r]
  }

  /** The first reference that does not resolve, or the number of references. */
  ghost function FirstUnresolved(records: Records, q: Request): nat {
    Unresolvable(records, q, 0)
  }

  ghost function Unresolvable(records: Records, q: Request, i: nat): (n: nat)
    ensures i <= |q.references| ==> i <= n <= |q.references|
    ensures i <= n < |q.references| ==> !Resolvable(records, q.key, q.references[n])
    ensures forall j :: i <= j < n && j < |q.references| ==> Resolvable(records, q.key, q.references[j])
    decreases |q.references| - i
  {
    if i >= |q.references| then i
    else if !Resolvable(records, q.key, q.references[i]) then i
    else Unresolvable(records, q, i + 1)
  }

  /** What a registration decides from the records at its lookup and those it lists afterwards. */
  ghost predicate Decides(looked: Records, listed: Records, q: Request, o: Outcome) {
    if q.key in looked then
      o == if looked[q.key].source == q.source then Existing(looked[q.key]) else Failed(Immutable)
    else
      var n := FirstUnresolved(listed, q);
      if n < |q.references| then o == Failed(Unresolved(listed, q.key, q.references[n]))
      else exists deps :: ResolveAll(listed, q.key, q.references, deps) && o == Judged(listed, q, deps)
  }

  ghost function Judged(listed: Records, q: Request, deps: seq<Key>): Outcome {
    var r := Revision(q.source, deps, q.at);
    if CycleBehind(GraphOf(With(listed, q.key, r)), q.key) then Failed(Recursive) else Accepted(r)
  }

  lemma {:induction false} WithClosed(records: Records, key: Key, r: Revision)
    requires Closed(GraphOf(records))
    requires forall k :: k in r.dependencies ==> k in records || k == key
    ensures Closed(GraphOf(With(records, key, r)))
  {
    var g, h := GraphOf(records), GraphOf(With(records, key, r));
    forall n | n in h ensures h[n] <= h.Keys {
      if n != key {
        assert h[n] == g[n] <= g.Keys;
      }
    }
  }

  /** Decides a registration: the first reference that does not resolve, then the visit. */
  method Prepare(looked: Records, listed: Records, q: Request) returns (o: Outcome)
    ensures Closed(GraphOf(listed)) ==> Decides(looked, listed, q, o)
    ensures Closed(GraphOf(listed)) && o.Accepted? ==> q.key !in looked && Accepts(listed, q, o.revision)
  {
    if q.key in looked {
      if looked[q.key].source != q.source {
        return Failed(Immutable);
      }
      return Existing(looked[q.key]);
    }
    var deps: seq<Key> := [];
    for i := 0 to |q.references|
      invariant |deps| == i && forall j :: 0 <= j < i ==> ResolvesTo(listed, q.key, q.references[j], deps[j])
      invariant FirstUnresolved(listed, q) == Unresolvable(listed, q, i)
    {
      var k, failure := ResolveReference(listed, q.key, q.references[i]);
      if failure.Some? {
        return Failed(failure.value);
      }
      deps := deps + [k];
    }
    ResolvedKnown(listed, q.key, q.references, deps);
    var r := Revision(q.source, deps, q.at);
    if Closed(GraphOf(listed)) {
      WithClosed(listed, q.key, r);
    }
    var check := CheckDependencies(With(listed, q.key, r), q.key);
    o := match check case Clear => Accepted(r) case Cyclic => Failed(Recursive) case Missing => Failed(NotRegistered);
    assert Closed(GraphOf(listed)) ==> o == Judged(listed, q, deps);
  }

  /** The revision is the accepted outcome of the request on the listed records. */
  ghost predicate Accepts(listed: Records, q: Request, r: Revision) {
    exists deps :: ResolveAll(listed, q.key, q.references, deps) && Accepted(r) == Judged(listed, q, deps)
  }

  ghost predicate Sound(records: Records) {
    Closed(GraphOf(records)) && !HasCycle(GraphOf(records))
  }

  /** An accepted revision depends on nothing but listed records, and not on itself. */
  lemma {:induction false} AcceptedKnown(listed: Records, q: Request, r: Revision)
    requires Accepts(listed, q, r)
    ensures forall k :: k in r.dependencies ==> k in listed && k != q.key
  {
    var deps :| ResolveAll(listed, q.key, q.references, deps) && Accepted(r) == Judged(listed, q, deps);
    ResolvedKnown(listed, q.key, q.references, deps);
    if q.key in deps {
      SelfIsCyclic(listed, q, deps);
    }
  }

  lemma {:induction false} SelfIsCyclic(seen: Records, q: Request, deps: seq<Key>)
    requires q.key in deps
    ensures CycleBehind(GraphOf(With(seen, q.key, Revision(q.source, deps, q.at))), q.key)
  {
    var r := Revision(q.source, deps, q.at);
    var g := GraphOf(With(seen, q.key, r));
    assert g[q.key] == DependencySet(r);
    var loop := [q.key, q.key];
    assert Edge(g, loop[0], loop[1]);
    assert IsCycle(g, loop);
    assert PathBetween(g, [q.key], q.key, loop[0]);
  }

  /** Adding a revision that depends only on registered ones keeps the registry closed and acyclic. */
  lemma {:induction false} AddedSound(records: Records, key: Key, r: Revision)
    requires Sound(records) && key !in records && forall k :: k in r.dependencies ==> k in records
    ensures Sound(With(records, key, r))
  {
    var g, h := GraphOf(records), GraphOf(With(records, key, r));
    WithClosed(records, key, r);
    AcyclicIffOrdered(g);
    var order :| TopologicalOrder(g, order);
    assert SuccessorsFirst(h, order) by {
      forall i, m | 0 <= i < |order| && m in h[order[i]] ensures m in order[..i] {
        assert m in g[order[i]];
      }
    }
    assert key !in order;
    assert h[key] == DependencySet(r);
    forall m | m in h[key] ensures m in order {
      assert m in g;
    }
    AppendToOrder(h, order, key);
    forall n | n in h ensures n in order + [key] {
      assert n == key || n in g;
    }
    OrderExcludesCycles(h, order + [key]);
  }

  /** With a sound registry, the visit refuses exactly the candidates that refer to themselves. */
  lemma {:induction false} RefusedIffSelf(seen: Records, q: Request, deps: seq<Key>)
    requires Sound(seen) && q.key !in seen && ResolveAll(seen, q.key, q.references, deps)
    ensures Judged(seen, q, deps) == Failed(Recursive) <==> q.key in deps
  {
    ResolvedKnown(seen, q.key, q.references, deps);
    if q.key in deps {
      SelfIsCyclic(seen, q, deps);
    } else {
      var r := Revision(q.source, deps, q.at);
      AddedSound(seen, q.key, r);
      assert !CycleBehind(GraphOf(With(seen, q.key, r)), q.key);
    }
  }

  // ----- schedules ---------------------------------------------------------------------------

  /** How far a registration has come: looked up and absent, prepared, or past the commit's check. */
  datatype Stage =
    | Looked(request: Request)
    | Prepared(key: Key, revision: Revision)
    | Checked(key: Key, revision: Revision)

  datatype State = State(records: Records, stages: map<nat, Stage>)

  /** One step of one registration. */
  datatype Event =
    | Lookup(id: nat, request: Request)
    | List(id: nat, revision: Revision)
    | Check(id: nat)
    | Write(id: nat)
    | Drop(id: nat)

  function Start(): State {
    State(map[], map[])
  }

  function Without(s: State, id: nat): State {
    s.(stages := s.stages - {id})
  }

  /** A registration that is refused, or whose revision is not the one its list yields, ends. */
  ghost function Apply(s: State, e: Event): State {
    match e
    case Lookup(id, q) =>
      if id in s.stages || q.key in s.records then s else s.(stages := s.stages[id := Looked(q)])
    case List(id, r) =>
      if id !in s.stages || !s.stages[id].Looked? then s
      else if !Accepts(s.records, s.stages[id].request, r) then Without(s, id)
      else s.(stages := s.stages[id := Prepared(s.stages[id].request.key, r)])
    case Check(id) =>
      if id !in s.stages || !s.stages[id].Prepared? then s
      else
        var p := s.stages[id];
        if p.key in s.records && s.records[p.key] != p.revision then Without(s, id)
        else s.(stages := s.stages[id := Checked(p.key, p.revision)])
    case Write(id) =>
      if id !in s.stages || !s.stages[id].Checked? then s
      else State(With(s.records, s.stages[id].key, s.stages[id].revision), s.stages - {id})
    case Drop(id) => Without(s, id)
  }

  ghost function Run(s: State, events: seq<Event>): State
    decreases |events|
  {
    if events == [] then s else Run(Apply(s, events[0]), events[1..])
  }

  /** The dependencies were all first registered before the key. */
  ghost predicate Earlier(order: seq<Key>, key: Key, deps: seq<Key>) {
    if key in order then forall k :: k in deps ==> k in order[..Rank(order, key)]
    else forall k :: k in deps ==> k in order
  }

  /** A registration that may still write: a checked one, or a prepared one of a key that is not there. */
  ghost predicate MayWrite(s: State, id: nat) {
    id in s.stages && (s.stages[id].Checked? || (s.stages[id].Prepared? && s.stages[id].key !in s.records))
  }

  /** The order lists the keys as they were first registered. */
  ghost predicate Registered(s: State, order: seq<Key>) {
    && Distinct(order) && (forall k :: k in order <==> k in s.records)
    && (forall k {:trigger s.records[k]} :: k in s.records ==> Earlier(order, k, s.records[k].dependencies))
    && (forall id {:trigger MayWrite(s, id)} ::
          MayWrite(s, id) ==> Earlier(order, s.stages[id].key, s.stages[id].revision.dependencies))
  }

  lemma {:induction false} RankKept(order: seq<Key>, key: Key, k: Key)
    requires Distinct(order + [key]) && k in order
    ensures Rank(order + [key], k) == Rank(order, k) && (order + [key])[..Rank(order, k)] == order[..Rank(order, k)]
  {
    var i, j := Rank(order, k), Rank(order + [key], k);
    assert (order + [key])[i] == k;
    assert i == j;
  }

  lemma {:induction false} EarlierKept(order: seq<Key>, key: Key, k: Key, deps: seq<Key>)
    requires Distinct(order + [key]) && Earlier(order, k, deps)
    ensures Earlier(order + [key], k, deps)
  {
    var next := order + [key];
    if k in order {
      RankKept(order, key, k);
    } else if k == key {
      assert next[|order|] == key;
      assert Rank(next, key) == |order|;
      assert next[..|order|] == order;
    }
  }

  /** The first write of a key puts it last, where everything it may ever depend on comes before it. */
  lemma {:induction false} FirstWrite(s: State, order: seq<Key>, id: nat)
    requires Registered(s, order) && id in s.stages && s.stages[id].Checked? && s.stages[id].key !in s.records
    ensures Registered(Apply(s, Write(id)), order + [s.stages[id].key])
  {
    var key := s.stages[id].key;
    var next := Apply(s, Write(id));
    assert Distinct(order + [key]);
    assert MayWrite(s, id);
    forall k | k in next.records ensures Earlier(order + [key], k, next.records[k].dependencies) {
      if k == key {
        EarlierKept(order, key, key, s.stages[id].revision.dependencies);
      } else {
        EarlierKept(order, key, k, s.records[k].dependencies);
      }
    }
    forall j | MayWrite(next, j)
      ensures Earlier(order + [key], next.stages[j].key, next.stages[j].revision.dependencies)
    {
      assert MayWrite(s, j);
      EarlierKept(order, key, s.stages[j].key, s.stages[j].revision.dependencies);
    }
  }

  lemma {:induction false} ListKeeps(s: State, order: seq<Key>, id: nat, r: Revision)
    requires Registered(s, order) && id in s.stages && s.stages[id].Looked?
    requires Accepts(s.records, s.stages[id].request, r)
    ensures Registered(Apply(s, List(id, r)), order)
  {
    AcceptedKnown(s.records, s.stages[id].request, r);
    var next := Apply(s, List(id, r));
    forall j | MayWrite(next, j) ensures Earlier(order, next.stages[j].key, next.stages[j].revision.dependencies) {
      assert j != id ==> MayWrite(s, j);
    }
  }

  lemma {:induction false} CheckKeeps(s: State, order: seq<Key>, id: nat)
    requires Registered(s, order)
    ensures Registered(Apply(s, Check(id)), order)
  {
    var next := Apply(s, Check(id));
    forall j | MayWrite(next, j) ensures Earlier(order, next.stages[j].key, next.stages[j].revision.dependencies) {
      assert MayWrite(s, j) || s.stages[j].key in s.records;
    }
  }

  /** Every step keeps the order of first registrations, or appends to it. */
  lemma {:induction false} StepKeeps(s: State, order: seq<Key>, e: Event) returns (later: seq<Key>)
    requires Registered(s, order)
    ensures order <= later && Registered(Apply(s, e), later)
  {
    later := order;
    var next := Apply(s, e);
    if e.Write? && e.id in s.stages && s.stages[e.id].Checked? && s.stages[e.id].key !in s.records {
      FirstWrite(s, order, e.id);
      later := order + [s.stages[e.id].key];
    } else if e.Write? {
      assert e.id in s.stages && s.stages[e.id].Checked? ==> MayWrite(s, e.id);
      assert forall j :: MayWrite(next, j) ==> MayWrite(s, j);
    } else if e.List? && e.id in s.stages && s.stages[e.id].Looked? &&
              Accepts(s.records, s.stages[e.id].request, e.revision) {
      ListKeeps(s, order, e.id, e.revision);
    } else if e.Check? {
      CheckKeeps(s, order, e.id);
    } else {
      assert forall j :: MayWrite(next, j) ==> MayWrite(s, j);
    }
  }

  lemma {:induction false} RunKeeps(s: State, order: seq<Key>, events: seq<Event>) returns (later: seq<Key>)
    requires Registered(s, order)
    ensures order <= later && Registered(Run(s, events), later)
    decreases |events|
  {
    later := order;
    if events != [] {
      later := StepKeeps(s, order, events[0]);
      later := RunKeeps(Apply(s, events[0]), later, events[1..]);
    }
  }

  lemma {:induction false} RegisteredOrders(s: State, order: seq<Key>)
    requires Registered(s, order)
    ensures TopologicalOrder(GraphOf(s.records), order) && Closed(GraphOf(s.records))
  {
    var g := GraphOf(s.records);
    forall i, m | 0 <= i < |order| && m in g[order[i]] ensures m in order[..i] {
      var k := order[i];
      assert Earlier(order, k, s.records[k].dependencies);
      assert Rank(order, k) == i;
    }
    forall n | n in g ensures g[n] <= g.Keys {
      forall m | m in g[n] ensures m in g {
        assert m in order[..Rank(order, n)];
      }
    }
  }

  /**
   * Over every schedule of registrations, overwritten revisions included, each dependency of a
   * registered revision was registered before its key was, so the registry is closed and acyclic.
   */
  lemma {:induction false} RegistrySound(events: seq<Event>) returns (order: seq<Key>)
    ensures Registered(Run(Start(), events), order) && Sound(Run(Start(), events).records)
  {
    order := RunKeeps(Start(), [], events);
    RegisteredOrders(Run(Start(), events), order);
    AcyclicIffOrdered(GraphOf(Run(Start(), events).records));
  }

  // ----- immutability ------------------------------------------------------------------------

  /** Every checked write of the key that is still pending carries this very revision. */
  ghost predicate OnlySamePending(s: State, key: Key, r: Revision) {
    forall id :: id in s.stages && s.stages[id].Checked? && s.stages[id].key == key ==> s.stages[id].revision == r
  }

  ghost predicate Holds(s: State, key: Key, r: Revision) {
    key in s.records && s.records[key] == r
  }

  lemma {:induction false} HeldThrough(s: State, key: Key, r: Revision, events: seq<Event>)
    requires Holds(s, key, r) && OnlySamePending(s, key, r)
    ensures Holds(Run(s, events), key, r)
    decreases |events|
  {
    if events != [] {
      HeldThrough(Apply(s, events[0]), key, r, events[1..]);
    }
  }

  /**
   * A registered revision is immutable from some moment on, under every schedule, if and only if no
   * registration of its key has passed its check with another revision at that moment.
   */
  lemma {:induction false} ImmutableIff(s: State, key: Key, r: Revision)
    requires Holds(s, key, r)
    ensures (forall events :: Holds(Run(s, events), key, r)) <==> OnlySamePending(s, key, r)
  {
    if OnlySamePending(s, key, r) {
      forall events ensures Holds(Run(s, events), key, r) {
        HeldThrough(s, key, r, events);
      }
    } else {
      var id :| id in s.stages && s.stages[id].Checked? && s.stages[id].key == key && s.stages[id].revision != r;
      var next := Apply(s, Write(id));
      assert Run(next, []) == next;
      assert Run(s, [Write(id)]) == next;
      assert !Holds(Run(s, [Write(id)]), key, r);
    }
  }

  /** No registration of the key is under way. */
  ghost predicate Quiet(s: State, key: Key) {
    forall id :: id in s.stages ==> KeyOf(s.stages[id]) != key
  }

  function KeyOf(stage: Stage): Key {
    match stage
    case Looked(q) => q.key
    case Prepared(key, _) => key
    case Checked(key, _) => key
  }

  /** A registered key of which no registration is under way is never registered again, and its revision stays. */
  lemma {:induction false} SettledForever(s: State, key: Key, r: Revision, events: seq<Event>)
    requires Holds(s, key, r) && Quiet(s, key)
    ensures Holds(Run(s, events), key, r) && Quiet(Run(s, events), key)
    decreases |events|
  {
    if events != [] {
      SettledForever(Apply(s, events[0]), key, r, events[1..]);
    }
  }

  /** A commit of the very revision that is there passes its check and changes nothing. */
  lemma SameAgain(s: State, id: nat, key: Key, r: Revision)
    requires Holds(s, key, r) && id in s.stages && s.stages[id] == Prepared(key, r)
    ensures Apply(s, Check(id)).stages[id] == Checked(key, r)
    ensures Apply(Apply(s, Check(id)), Write(id)).records == s.records
  {
    assert With(s.records, key, r) == s.records;
  }

  /** Two first registrations of one key with different sources, each finding nothing. */
  function Racing(key: Key, first: string, second: string): seq<Event> {
    [Lookup(1, Request(key, first, [], 1)), Lookup(2, Request(key, second, [], 2)),
     List(1, Revision(first, [], 1)), List(2, Revision(second, [], 2)), Check(1), Check(2), Write(1)]
  }

  lemma {:induction false} NoReferences(listed: Records, q: Request)
    requires q.references == [] && listed == map[]
    ensures Accepts(listed, q, Revision(q.source, [], q.at))
  {
    var r := Revision(q.source, [], q.at);
    var g := GraphOf(With(listed, q.key, r));
    assert g.Keys == {q.key} && g[q.key] == {};
    OrderExcludesCycles(g, [q.key]);
    assert ResolveAll(listed, q.key, q.references, []);
    assert Judged(listed, q, []) == Accepted(r);
  }

  /** Both registrations are past their checks, the first has been written, and the second will replace it. */
  lemma {:induction false} RevisionOverwritten(key: Key, first: string, second: string)
    requires first != second
    ensures var s := Run(Start(), Racing(key, first, second));
            && Holds(s, key, Revision(first, [], 1))
            && Holds(Apply(s, Write(2)), key, Revision(second, [], 2))
            && !OnlySamePending(s, key, Revision(first, [], 1))
  {
    var q1, q2 := Request(key, first, [], 1), Request(key, second, [], 2);
    var r1, r2 := Revision(first, [], 1), Revision(second, [], 2);
    NoReferences(map[], q1);
    NoReferences(map[], q2);
    var looked := State(map[], map[1 := Looked(q1), 2 := Looked(q2)]);
    var prepared := State(map[], map[1 := Prepared(key, r1), 2 := Prepared(key, r2)]);
    var checked := State(map[], map[1 := Checked(key, r1), 2 := Checked(key, r2)]);
    var written := State(map[key := r1], map[2 := Checked(key, r2)]);
    assert Apply(Apply(Start(), Lookup(1, q1)), Lookup(2, q2)) == looked;
    assert Apply(Apply(looked, List(1, r1)), List(2, r2)) == prepared;
    assert Apply(Apply(prepared, Check(1)), Check(2)) == checked;
    assert Apply(checked, Write(1)) == written;
    RacingRuns(key, first, second);
  }

  lemma {:induction false} RacingRuns(key: Key, first: string, second: string)
    ensures var q1, q2 := Request(key, first, [], 1), Request(key, second, [], 2);
            var r1, r2 := Revision(first, [], 1), Revision(second, [], 2);
            var looked := Apply(Apply(Start(), Lookup(1, q1)), Lookup(2, q2));
            var prepared := Apply(Apply(looked, List(1, r1)), List(2, r2));
            var checked := Apply(Apply(prepared, Check(1)), Check(2));
            Run(Start(), Racing(key, first, second)) == Apply(checked, Write(1))
  {
    var events := Racing(key, first, second);
    var s0 := Start();
    var s1 := Apply(s0, events[0]);
    var s2 := Apply(s1, events[1]);
    var s3 := Apply(s2, events[2]);
    var s4 := Apply(s3, events[3]);
    var s5 := Apply(s4, events[4]);
    var s6 := Apply(s5, events[5]);
    RunFrom(s6, events, 6);
    RunFrom(s5, events, 5);
    RunFrom(s4, events, 4);
    RunFrom(s3, events, 3);
    RunFrom(s2, events, 2);
    RunFrom(s1, events, 1);
    RunFrom(s0, events, 0);
    assert events[7..] == [] && events[0..] == events;
  }

  lemma {:induction false} RunFrom(s: State, events: seq<Event>, i: nat)
    requires i < |events|
    ensures Run(s, events[i..]) == Run(Apply(s, events[i]), events[i + 1..])
  {
    assert events[i..][1..] == events[i + 1..];
  }
}
