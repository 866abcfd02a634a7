/**
 * What a reader of a session may rely on: the order of its log, the context and the provider
 * continuations that a bound run sees.
 */
module SessionViews {
  import opened Options
  import opened Sessions
  import opened SessionSafety

  // ----- turns -------------------------------------------------------------------------------

  /** Turns start in order and one at a time, and no two share a run. */
  lemma {:induction false} FirstInFirstOut(ops: seq<Operation>, i: nat, j: nat)
    requires i < j < |Run(ops).turns| && Run(ops).turns[j].runId != ""
    ensures Final(Run(ops).turns[i].state)
    ensures Run(ops).turns[i].runId != Run(ops).turns[j].runId
  {
    var s := Run(ops);
    RunKeeps(ops);
    var k: nat :| Shape(s, k);
    StartedWithin(s, k, j);
    RunsDiffer(s, i, j);
  }

  // ----- the log -----------------------------------------------------------------------------

  /** Event i stands in its turn's history behind exactly that turn's earlier events. */
  lemma {:induction false} HistoryPosition(events: seq<Event>, i: nat)
    requires i < |events|
    ensures var e := events[i]; var p := |History(events[..i], e.turn)|;
            p < |History(events, e.turn)| && History(events, e.turn)[p] == Mark(e.kind, e.runId)
  {
    var front := events[..|events| - 1];
    if i < |front| {
      HistoryPosition(front, i);
      assert front[..i] == events[..i];
    }
  }

  predicate Terminal(kind: EventKind) {
    kind.ExecutionCompleted? || kind.ExecutionFailed? || kind.ExecutionCancelled?
  }

  /** Within one turn, the earlier of two events stands at an earlier position of the history. */
  lemma {:induction false} HistoryOrder(events: seq<Event>, i: nat, j: nat)
    requires i < j < |events| && events[i].turn == events[j].turn
    ensures |History(events[..i], events[i].turn)| < |History(events[..j], events[j].turn)|
  {
    HistoryPosition(events[..j], i);
    assert events[..j][..i] == events[..i];
  }

  /** An event of a turn belongs to a turn of the session. */
  lemma {:induction false} EventOfTurn(s: Session, i: nat) returns (t: nat)
    requires Logged(s) && i < |s.events| && s.events[i].turn != ""
    ensures t < |s.turns| && s.turns[t].id == s.events[i].turn
  {
    HistoryPosition(s.events, i);
    if Unknown(s.turns, s.events[i].turn) {
      assert false;
    }
    t :| 0 <= t < |s.turns| && s.turns[t].id == s.events[i].turn;
  }

  /** The expected history ends at its first terminal mark and starts a run at most once. */
  lemma {:induction false} ExpectedShape(t: Turn, p: nat, q: nat)
    requires p < q < |Expected(t)|
    ensures !Terminal(Expected(t)[p].kind)
    ensures !(Expected(t)[p].kind.ExecutionStarted? && Expected(t)[q].kind.ExecutionStarted?)
    ensures Expected(t)[q].kind.ExecutionStarted? ==>
              Expected(t)[p].kind.InputAccepted? || Expected(t)[p].kind.ExecutionClaimed?
  {
  }

  /**
   * In the log of every reachable session: nothing about a turn follows its terminal event, so
   * there is at most one and it comes after the start; a turn starts at most once.
   */
  lemma {:induction false} TerminalEventLast(ops: seq<Operation>, i: nat, j: nat)
    requires i < j < |Run(ops).events|
    requires Run(ops).events[i].turn == Run(ops).events[j].turn != ""
    ensures !Terminal(Run(ops).events[i].kind)
    ensures !(Run(ops).events[i].kind.ExecutionStarted? && Run(ops).events[j].kind.ExecutionStarted?)
  {
    var s := Run(ops);
    RunKeeps(ops);
    var t := EventOfTurn(s, i);
    HistoryOrder(s.events, i, j);
    HistoryPosition(s.events, i);
    HistoryPosition(s.events, j);
    ExpectedShape(s.turns[t], |History(s.events[..i], s.events[i].turn)|, |History(s.events[..j], s.events[j].turn)|);
  }

  /** The row's state and the log's terminal event say the same. */
  lemma {:induction false} TerminalEventExact(ops: seq<Operation>, t: nat)
    requires t < |Run(ops).turns|
    ensures var turn := Run(ops).turns[t];
            var h := History(Run(ops).events, turn.id);
            && h != []
            && (Final(turn.state) <==> Terminal(h[|h| - 1].kind))
            && (Final(turn.state) ==> h[|h| - 1] == OutcomeMark(turn))
  {
    RunKeeps(ops);
    LastExpected(Run(ops).turns[t]);
  }

  lemma LastExpected(t: Turn)
    ensures var h := Expected(t);
            && h != [] && (Final(t.state) <==> Terminal(h[|h| - 1].kind))
            && (Final(t.state) ==> h[|h| - 1] == OutcomeMark(t))
  {
  }

  /** session.closed is in the log exactly when the session is closed, once, as the last event. */
  lemma {:induction false} ClosedEventLast(ops: seq<Operation>, i: nat)
    requires i < |Run(ops).events|
    ensures Run(ops).events[i].sequence == i + 1 && Run(ops).nextSequence == |Run(ops).events| + 1
    ensures Run(ops).events[i].kind.SessionClosed? <==> Run(ops).state.Closed? && i == |Run(ops).events| - 1
  {
    RunKeeps(ops);
  }

  // ----- the context of a run ----------------------------------------------------------------

  /** A turn waiting to be bound is never behind a context generation, so binding cannot fail on that. */
  lemma {:induction false} NeverAhead(ops: seq<Operation>, k: nat, g: nat)
    requires k < |Run(ops).turns| && !Final(Run(ops).turns[k].state) && g < |Run(ops).generations|
    ensures Run(ops).generations[g].through < Run(ops).turns[k].sequence
  {
    RunKeeps(ops);
    GenerationsBehind(Run(ops), k, g);
    assert TurnOk(Run(ops).turns[k], k);
  }

  function FindGeneration(generations: seq<Generation>, id: string): (r: Option<nat>)
    ensures r.Some? ==> r.value < |generations| && generations[r.value].id == id
    ensures r.None? ==> forall i :: 0 <= i < |generations| ==> generations[i].id != id
  {
    if generations == [] then None else
    if generations[|generations| - 1].id == id then Some(|generations| - 1)
    else FindGeneration(generations[..|generations| - 1], id)
  }

  /** The rows with a sequence after `after` and up to `through`, in order. */
  function TurnsBetween(turns: seq<Turn>, after: nat, through: nat): seq<Turn> {
    if turns == [] then [] else
    var last := turns[|turns| - 1];
    TurnsBetween(turns[..|turns| - 1], after, through) + (if after < last.sequence <= through then [last] else [])
  }

  lemma {:induction false} TurnsBetweenIs(turns: seq<Turn>, after: nat, through: nat)
    requires forall i :: 0 <= i < |turns| ==> turns[i].sequence == i + 1
    requires after <= through
    ensures var lo := if after < |turns| then after else |turns|;
            var hi := if through < |turns| then through else |turns|;
            TurnsBetween(turns, after, through) == turns[lo..hi]
  {
    if turns != [] {
      TurnsBetweenIs(turns[..|turns| - 1], after, through);
    }
  }

  datatype LoadError = BadSnapshot | BadReference | TooManyTurns | IncompleteTail | InvalidTail

  datatype Context =
    | NoSnapshot | NoGeneration | Context(generation: Generation, recent: seq<Turn>) | Rejected(error: LoadError)

  const MAX_RECENT_TURNS := 1000

  /** The context that a run bound in s should see. */
  function View(s: Session, runId: string): Context
    requires runId in s.snapshots && SnapshotOk(s, runId, s.snapshots[runId])
  {
    var p := s.snapshots[runId];
    if p.generationId == "" then NoGeneration else
    if p.turnSequence - 1 - p.through > MAX_RECENT_TURNS then Rejected(TooManyTurns) else
    Context(s.generations[p.generation - 1], s.turns[p.through..p.turnSequence - 1])
  }

  /** The rows that a run's snapshot points at are there, in order. */
  ghost predicate Readable(s: Session, runId: string) {
    && runId in s.snapshots && SnapshotOk(s, runId, s.snapshots[runId])
    && var p := s.snapshots[runId];
       && TurnsBetween(s.turns, p.through, p.turnSequence - 1) == s.turns[p.through..p.turnSequence - 1]
       && (forall i :: p.through <= i < p.turnSequence - 1 ==> s.turns[i].sequence == i + 1)
       && (p.generationId != "" ==> FindGeneration(s.generations, p.generationId) == Some(p.generation - 1))
       && (p.generationId != "" ==> s.generations[p.generation - 1].number == p.generation)
  }

  /**
   * Loads a run's context from its snapshot. For a readable snapshot, the only failure is a tail
   * of more than 1000 turns: the reference is good and the tail is complete.
   */
  method LoadContext(s: Session, runId: string, turnId: string) returns (r: Context)
    ensures runId !in s.snapshots ==> r == NoSnapshot
    ensures runId in s.snapshots && s.snapshots[runId].turnId != turnId ==> r == Rejected(BadSnapshot)
    ensures Readable(s, runId) && s.snapshots[runId].turnId == turnId ==> r == View(s, runId)
  {
    if runId !in s.snapshots {
      return NoSnapshot;
    }
    var p := s.snapshots[runId];
    if p.turnId != turnId {
      return Rejected(BadSnapshot);
    }
    if p.generationId == "" {
      return NoGeneration;
    }
    var found := FindGeneration(s.generations, p.generationId);
    if found.None? {
      return Rejected(BadReference);
    }
    var g := s.generations[found.value];
    if g.number != p.generation || g.through != p.through {
      return Rejected(BadReference);
    }
    var previous := p.turnSequence - 1;
    if g.through >= previous {
      return Context(g, []);
    }
    if previous - g.through > MAX_RECENT_TURNS {
      return Rejected(TooManyTurns);
    }
    var recent := TurnsBetween(s.turns, g.through, previous);
    if |recent| > MAX_RECENT_TURNS {
      recent := recent[..MAX_RECENT_TURNS];
    }
    if |recent| != previous - g.through {
      return Rejected(IncompleteTail);
    }
    var sequence := g.through;
    for i := 0 to |recent|
      invariant sequence == g.through + i
    {
      sequence := sequence + 1;
      if recent[i].sequence != sequence {
        return Rejected(InvalidTail);
      }
    }
    return Context(g, recent);
  }

  /** The tail is every turn after the boundary and before the run's own, in order and over. */
  ghost predicate CompleteTail(s: Session, p: Snapshot, recent: seq<Turn>) {
    && p.through + |recent| == p.turnSequence - 1 && |recent| <= 1000
    && forall i :: 0 <= i < |recent| ==>
         recent[i].sequence == p.through + i + 1 && recent[i] in s.turns && Final(recent[i].state)
  }

  ghost predicate Shows(s: Session, p: Snapshot, c: Context) {
    match c
    case NoGeneration => p.generationId == ""
    case Rejected(e) => e == TooManyTurns && p.generationId != "" && p.turnSequence - 1 > p.through + 1000
    case Context(g, recent) =>
      g in s.generations && g.id == p.generationId && g.through == p.through && CompleteTail(s, p, recent)
    case NoSnapshot => false
  }

  /**
   * In every reachable session a bound run sees no generation only when it was bound to none, an error
   * only beyond 1000 turns after the generation it was bound to, and otherwise that generation and
   * every turn after it and before its own.
   */
  lemma {:induction false} ViewExact(ops: seq<Operation>, runId: string)
    requires runId in Run(ops).snapshots
    ensures SnapshotOk(Run(ops), runId, Run(ops).snapshots[runId])
    ensures Shows(Run(ops), Run(ops).snapshots[runId], View(Run(ops), runId))
  {
    RunKeeps(ops);
    assert SnapshotOk(Run(ops), runId, Run(ops).snapshots[runId]);
    ViewShows(Run(ops), runId);
  }

  lemma {:induction false} ViewShows(s: Session, runId: string)
    requires Ordered(s) && runId in s.snapshots && SnapshotOk(s, runId, s.snapshots[runId])
    ensures Shows(s, s.snapshots[runId], View(s, runId))
  {
    var p := s.snapshots[runId];
    PastFinished(s, runId);
    if View(s, runId).Context? {
      TailComplete(s, p);
    }
  }

  lemma TailComplete(s: Session, p: Snapshot)
    requires p.through < p.turnSequence <= |s.turns| && p.turnSequence - 1 <= p.through + 1000
    requires FinishedThrough(s.turns, p.turnSequence - 1)
    ensures CompleteTail(s, p, s.turns[p.through..p.turnSequence - 1])
  {
    var recent := s.turns[p.through..p.turnSequence - 1];
    forall i | 0 <= i < |recent|
      ensures recent[i].sequence == p.through + i + 1 && recent[i] in s.turns && Final(recent[i].state)
    {
      assert recent[i] == s.turns[p.through + i];
    }
  }

  /** In every reachable session, every bound run can read its context. */
  lemma {:induction false} AlwaysReadable(ops: seq<Operation>, runId: string)
    requires runId in Run(ops).snapshots
    ensures Readable(Run(ops), runId)
  {
    RunKeeps(ops);
    BoundReadable(Run(ops), runId);
  }

  lemma {:induction false} BoundReadable(s: Session, runId: string)
    requires Inv(s) && runId in s.snapshots
    ensures Readable(s, runId)
  {
    TailIs(s, runId);
    ReferenceFound(s, runId);
  }

  lemma {:induction false} ReferenceFound(s: Session, runId: string)
    requires Inv(s) && runId in s.snapshots
    ensures var p := s.snapshots[runId];
            p.generationId != "" ==>
              && FindGeneration(s.generations, p.generationId) == Some(p.generation - 1)
              && 0 <= p.generation - 1 < |s.generations| && s.generations[p.generation - 1].number == p.generation
  {
    var p := s.snapshots[runId];
    if p.generationId != "" {
      assert SnapshotOk(s, runId, p);
      var f := FindGeneration(s.generations, p.generationId);
      assert f.Some?;
      ReferenceGood(s, runId, f.value);
    }
  }

  lemma {:induction false} ReferenceGood(s: Session, runId: string, i: nat)
    requires Inv(s) && runId in s.snapshots && i < |s.generations|
    requires s.snapshots[runId].generationId != "" && s.generations[i].id == s.snapshots[runId].generationId
    ensures s.snapshots[runId].generation == i + 1 == s.generations[i].number
    ensures s.snapshots[runId].through == s.generations[i].through
  {
    assert SnapshotOk(s, runId, s.snapshots[runId]);
    assert GenerationOk(s.turns, s.generations[i], i);
  }

  lemma {:induction false} TailIs(s: Session, runId: string)
    requires Inv(s) && runId in s.snapshots
    ensures SnapshotOk(s, runId, s.snapshots[runId])
    ensures var p := s.snapshots[runId];
            && TurnsBetween(s.turns, p.through, p.turnSequence - 1) == s.turns[p.through..p.turnSequence - 1]
            && forall i :: p.through <= i < p.turnSequence - 1 ==> s.turns[i].sequence == i + 1
  {
    assert SnapshotOk(s, runId, s.snapshots[runId]);
    forall i | 0 <= i < |s.turns| ensures s.turns[i].sequence == i + 1 {
      assert TurnOk(s.turns[i], i);
    }
    TurnsBetweenIs(s.turns, s.snapshots[runId].through, s.snapshots[runId].turnSequence - 1);
  }

  /**
   * The generation and the tail together are the turns before the bound one, each exactly once
   * and all over, so the view never changes: a run resumed elsewhere or later sees the same.
   */
  lemma {:induction false} ViewFixed(ops: seq<Operation>, n: nat, runId: string)
    requires n <= |ops| && runId in Run(ops[..n]).snapshots
    ensures runId in Run(ops).snapshots
    ensures SnapshotOk(Run(ops[..n]), runId, Run(ops[..n]).snapshots[runId])
    ensures SnapshotOk(Run(ops), runId, Run(ops).snapshots[runId])
    ensures View(Run(ops), runId) == View(Run(ops[..n]), runId)
    ensures FinishedThrough(Run(ops).turns, Run(ops).snapshots[runId].turnSequence - 1)
  {
    var s, t := Run(ops[..n]), Run(ops);
    RunKeeps(ops[..n]);
    RunKeeps(ops);
    CommittedForever(ops, n);
    assert SnapshotOk(s, runId, s.snapshots[runId]);
    PastFinished(s, runId);
    SameView(s, t, runId);
    PastFinished(t, runId);
  }

  lemma {:induction false} PastFinished(s: Session, runId: string)
    requires Ordered(s) && runId in s.snapshots && SnapshotOk(s, runId, s.snapshots[runId])
    ensures FinishedThrough(s.turns, s.snapshots[runId].turnSequence - 1)
  {
    var k: nat :| Shape(s, k);
    StartedWithin(s, k, s.snapshots[runId].turnSequence - 1);
    forall i | 0 <= i < s.snapshots[runId].turnSequence - 1 ensures s.turns[i].sequence == i + 1 {
      assert TurnOk(s.turns[i], i);
    }
  }

  lemma {:induction false} SameView(s: Session, t: Session, runId: string)
    requires Extends(s, t) && runId in s.snapshots
    requires SnapshotOk(s, runId, s.snapshots[runId])
    requires FinishedThrough(s.turns, s.snapshots[runId].turnSequence - 1)
    ensures runId in t.snapshots && SnapshotOk(t, runId, t.snapshots[runId]) && View(t, runId) == View(s, runId)
  {
    var p := s.snapshots[runId];
    assert TurnKept(s.turns[p.turnSequence - 1], t.turns[p.turnSequence - 1]);
    forall i | p.through <= i < p.turnSequence - 1 ensures t.turns[i] == s.turns[i] {
      assert TurnKept(s.turns[i], t.turns[i]);
    }
    assert s.turns[p.through..p.turnSequence - 1] == t.turns[p.through..p.turnSequence - 1];
  }

  const BATCH := 128

  /**
   * Gathers the turns after the latest generation's boundary, batch by batch, for a reduction.
   * With turns numbered as in every reachable session, it gets all of them and no error.
   */
  method EligibleTurns(s: Session, boundary: nat, through: nat) returns (r: Option<seq<Turn>>)
    ensures Numbered(s.turns) && boundary <= through <= |s.turns| ==> r == Some(s.turns[boundary..through])
  {
    var eligible: seq<Turn> := [];
    var cursor := boundary;
    ghost var good := Numbered(s.turns) && boundary <= through <= |s.turns|;
    while cursor < through
      invariant boundary <= through ==> boundary <= cursor <= through
      invariant good ==> eligible == s.turns[boundary..cursor]
      decreases through - cursor
    {
      var batch := NextBatch(s.turns, cursor, through);
      if batch == [] {
        return None;
      }
      var ok := CheckBatch(batch, cursor, through);
      if !ok {
        return None;
      }
      assert Next(batch[|batch| - 1], cursor + (|batch| - 1) + 1, through);
      assert good ==> s.turns[boundary..cursor] + batch == s.turns[boundary..cursor + |batch|];
      eligible := eligible + batch;
      cursor := cursor + |batch|;
    }
    return Some(eligible);
  }

  predicate Next(row: Turn, sequence: nat, through: nat) {
    row.sequence == sequence <= through
  }

  /** The rows of a batch follow the cursor one by one and stay within the boundary. */
  method CheckBatch(batch: seq<Turn>, after: nat, through: nat) returns (ok: bool)
    ensures ok <==> forall i :: 0 <= i < |batch| ==> Next(batch[i], after + i + 1, through)
  {
    var cursor := after;
    for i := 0 to |batch|
      invariant cursor == after + i
      invariant forall j :: 0 <= j < i ==> Next(batch[j], after + j + 1, through)
    {
      if batch[i].sequence != cursor + 1 || batch[i].sequence > through {
        assert !Next(batch[i], after + i + 1, through);
        return false;
      }
      cursor := batch[i].sequence;
    }
    return true;
  }

  /** Reads the next rows, at most 128 at a time. */
  method NextBatch(turns: seq<Turn>, cursor: nat, through: nat) returns (batch: seq<Turn>)
    requires cursor < through
    ensures |batch| <= 128
    ensures Numbered(turns) && through <= |turns| ==>
              && batch != [] && cursor + |batch| <= through && batch == turns[cursor..cursor + |batch|]
              && forall i :: 0 <= i < |batch| ==> Next(batch[i], cursor + i + 1, through)
  {
    var rows := TurnsBetween(turns, cursor, through);
    batch := if |rows| > BATCH then rows[..BATCH] else rows;
    if Numbered(turns) && through <= |turns| {
      RowsBetween(turns, cursor, through);
      assert batch == rows[..|batch|];
      BatchOf(turns, cursor, through, |batch|);
    }
  }

  lemma RowsBetween(turns: seq<Turn>, cursor: nat, through: nat)
    requires Numbered(turns) && cursor < through <= |turns|
    ensures TurnsBetween(turns, cursor, through) == turns[cursor..through]
  {
    forall i | 0 <= i < |turns| ensures turns[i].sequence == i + 1 {
      assert TurnOk(turns[i], i);
    }
    TurnsBetweenIs(turns, cursor, through);
  }

  lemma BatchOf(turns: seq<Turn>, cursor: nat, through: nat, n: nat)
    requires Numbered(turns) && cursor + n <= through <= |turns|
    ensures var batch := turns[cursor..cursor + n];
            && turns[cursor..through][..n] == batch
            && forall i :: 0 <= i < n ==> Next(batch[i], cursor + i + 1, through)
  {
    var batch := turns[cursor..cursor + n];
    forall i | 0 <= i < n ensures Next(batch[i], cursor + i + 1, through) {
      assert TurnOk(turns[cursor + i], cursor + i);
    }
  }

  /** A reduction for a claimed turn can always store its generation over everything before the turn. */
  lemma {:induction false} ReductionStores(ops: seq<Operation>, k: nat, id: string, key: string, kind: string,
                                           version: string, payload: string)
    requires k < |Run(ops).turns| && Run(ops).turns[k].state.Claimed?
    requires key != "" && kind != "" && version != "" && id != ""
    requires FindKey(Run(ops).generations, key).None? && FindGeneration(Run(ops).generations, id).None?
    ensures CreateGeneration(Run(ops), id, |Run(ops).generations|, k, key, kind, version, payload).1.Made?
  {
    RunKeeps(ops);
    BoundaryAllowed(Run(ops), k);
  }

  lemma {:induction false} BoundaryAllowed(s: Session, k: nat)
    requires Ordered(s) && Chained(s) && k < |s.turns| && s.turns[k].state.Claimed?
    ensures FinishedThrough(s.turns, k)
    ensures LatestGeneration(s).Some? ==>
              LatestGeneration(s).value.through <= k && LatestGeneration(s).value.number == |s.generations|
  {
    var f: nat :| Shape(s, f);
    assert f == k;
    forall i | 0 <= i < k ensures s.turns[i].sequence == i + 1 {
      assert TurnOk(s.turns[i], i);
    }
    if s.generations != [] {
      GenerationsBehind(s, k, |s.generations| - 1);
      assert GenerationOk(s.turns, s.generations[|s.generations| - 1], |s.generations| - 1);
    }
  }

  // ----- provider continuations --------------------------------------------------------------

  /** What a bound run is given for a provider: its own candidate, else its own snapshot. */
  function LoadContinuation(s: Session, runId: string, provider: string): Option<Continuation>
    requires runId in s.snapshots
  {
    if provider in CandidatesOf(s, runId) then Some(CandidatesOf(s, runId)[provider]) else
    if provider in s.snapshots[runId].continuations then Some(s.snapshots[runId].continuations[provider]) else None
  }

  /** Turn j succeeded and its run handed over state for the provider. */
  ghost predicate HandsOver(turns: seq<Turn>, promoted: map<string, Continuations>, j: nat, provider: string)
    requires j < |turns|
  {
    turns[j].state.Succeeded? && turns[j].runId in promoted && provider in promoted[turns[j].runId]
  }

  /** Turn j is the last of the first n that hands over. */
  ghost predicate LatestHandover(turns: seq<Turn>, promoted: map<string, Continuations>, n: nat, j: nat,
                                 provider: string)
    requires n <= |turns|
  {
    && j < n && HandsOver(turns, promoted, j, provider)
    && forall i :: j < i < n ==> !HandsOver(turns, promoted, i, provider)
  }

  lemma {:induction false} AccumulatedLatest(turns: seq<Turn>, promoted: map<string, Continuations>, n: nat,
                                             provider: string)
    requires n <= |turns|
    ensures provider in Accumulated(turns, promoted, n) <==>
            exists j: nat :: LatestHandover(turns, promoted, n, j, provider)
    ensures forall j: nat :: LatestHandover(turns, promoted, n, j, provider) ==>
              provider in Accumulated(turns, promoted, n) &&
              Accumulated(turns, promoted, n)[provider] == promoted[turns[j].runId][provider]
  {
    if n > 0 {
      var m: nat := n - 1;
      AccumulatedLatest(turns, promoted, m, provider);
      if HandsOver(turns, promoted, m, provider) {
        assert LatestHandover(turns, promoted, n, m, provider);
      } else {
        if j: nat :| LatestHandover(turns, promoted, n, j, provider) {
          assert LatestHandover(turns, promoted, m, j, provider);
        }
        if j: nat :| LatestHandover(turns, promoted, m, j, provider) {
          assert LatestHandover(turns, promoted, n, j, provider);
        }
        forall j: nat | LatestHandover(turns, promoted, n, j, provider)
          ensures LatestHandover(turns, promoted, m, j, provider)
        {
        }
      }
    }
  }

  /** The run's snapshot holds, for the provider, what the latest earlier turn to hand over did, if any. */
  ghost predicate HoldsLatest(s: Session, runId: string, provider: string) {
    && runId in s.snapshots
    && var n := s.snapshots[runId].turnSequence - 1;
       && 0 <= n <= |s.turns|
       && (provider in s.snapshots[runId].continuations <==>
           exists j: nat :: LatestHandover(s.turns, s.promoted, n, j, provider))
       && (forall j: nat :: LatestHandover(s.turns, s.promoted, n, j, provider) ==>
             provider in s.snapshots[runId].continuations &&
             s.snapshots[runId].continuations[provider] == s.promoted[s.turns[j].runId][provider])
  }

  /**
   * The continuation snapshotted for a turn is the one of the latest earlier succeeded turn that
   * staged that provider, and there is none exactly when no earlier succeeded turn did.
   */
  lemma {:induction false} SnapshotIsLatest(ops: seq<Operation>, runId: string, provider: string)
    requires runId in Run(ops).snapshots
    ensures HoldsLatest(Run(ops), runId, provider)
  {
    RunKeeps(ops);
    SnapshotLatest(Run(ops), runId, provider);
  }

  lemma {:induction false} SnapshotLatest(s: Session, runId: string, provider: string)
    requires Continued(s) && runId in s.snapshots
    ensures HoldsLatest(s, runId, provider)
  {
    assert SeesPast(s, runId);
    AccumulatedLatest(s.turns, s.promoted, s.snapshots[runId].turnSequence - 1, provider);
  }

  /** What the checkpoints of a run have staged, later ones overriding earlier ones. */
  function StagedIn(ops: seq<Operation>, runId: string): Continuations {
    if ops == [] then map[] else
    var before := StagedIn(ops[..|ops| - 1], runId);
    match ops[|ops| - 1]
    case DoStage(r, staged) => if r == runId then before + staged else before
    case _ => before
  }

  /** Some turn of the run is over. */
  ghost predicate Over(s: Session, runId: string) {
    exists i :: 0 <= i < |s.turns| && s.turns[i].runId == runId && Final(s.turns[i].state)
  }

  lemma {:induction false} OverStays(s: Session, t: Session, runId: string)
    requires Extends(s, t) && runId != "" && Over(s, runId)
    ensures Over(t, runId)
  {
    var i :| 0 <= i < |s.turns| && s.turns[i].runId == runId && Final(s.turns[i].state);
    assert TurnKept(s.turns[i], t.turns[i]);
  }

  lemma {:induction false} CandidatesAreStaged(ops: seq<Operation>, runId: string)
    requires runId != "" && !Over(Run(ops), runId)
    ensures CandidatesOf(Run(ops), runId) == StagedIn(ops, runId)
  {
    if ops != [] {
      var front := ops[..|ops| - 1];
      RunKeeps(front);
      StepKeeps(Run(front), ops[|ops| - 1]);
      if Over(Run(front), runId) {
        OverStays(Run(front), Run(ops), runId);
      }
      CandidatesAreStaged(front, runId);
      CandidatesStep(Run(front), ops[|ops| - 1], runId);
    }
  }

  /** Only a run's own checkpoints touch its candidates. */
  lemma {:induction false} CandidatesStep(s: Session, op: Operation, runId: string)
    requires !Over(Apply(s, op), runId)
    ensures CandidatesOf(Apply(s, op), runId) ==
            if op.DoStage? && op.runId == runId then CandidatesOf(s, runId) + op.staged else CandidatesOf(s, runId)
  {
    if op.DoCommit? {
      if op.runId == runId && Apply(s, op) != s {
        CommitEnds(s, op);
      }
    } else if !op.DoStage? {
      OthersApart(s, op);
    }
  }

  /** Only checkpoints touch the continuations. */
  lemma {:induction false} OthersApart(s: Session, op: Operation)
    requires !op.DoCommit? && !op.DoStage?
    ensures Apply(s, op).candidates == s.candidates && Apply(s, op).promoted == s.promoted
  {
    match op
    case DoSubmit(id, key, input, elsewhere) => SubmitApart(s, id, key, input, elsewhere);
    case DoClaim(owner, fence, leaseCurrent) => ClaimApart(s, owner, fence, leaseCurrent);
    case DoBind(turnId, runId, owner, fence, leaseCurrent, bound) =>
      BindApart(s, turnId, runId, owner, fence, leaseCurrent, bound);
    case DoClose => CloseApart(s);
    case DoGenerate(id, expected, through, key, kind, version, payload) =>
  }

  lemma SubmitApart(s: Session, id: string, key: string, input: string, elsewhere: bool)
    ensures var t := Submit(s, id, key, input, elsewhere).0; t.candidates == s.candidates && t.promoted == s.promoted
  {
  }

  lemma ClaimApart(s: Session, owner: string, fence: nat, leaseCurrent: bool)
    ensures var t := Claim(s, owner, fence, leaseCurrent).0; t.candidates == s.candidates && t.promoted == s.promoted
  {
  }

  lemma BindApart(s: Session, turnId: string, runId: string, owner: string, fence: nat, leaseCurrent: bool, bound: bool)
    ensures var t := Bind(s, turnId, runId, owner, fence, leaseCurrent, bound).0;
            t.candidates == s.candidates && t.promoted == s.promoted
  {
  }

  lemma {:induction false} CommitEnds(s: Session, op: Operation)
    requires op.DoCommit? && Apply(s, op) != s
    ensures Over(Apply(s, op), op.runId)
  {
    var t := Apply(s, op);
    var i := Find(s.turns, op.turnId).value;
    assert t.turns[i].runId == op.runId && Final(t.turns[i].state);
  }

  lemma {:induction false} LoopApart(s: Session, i: nat, claimedToo: bool)
    requires i <= |s.turns|
    ensures CancelWaiting(s, i, claimedToo).candidates == s.candidates
    ensures CancelWaiting(s, i, claimedToo).promoted == s.promoted
    decreases |s.turns| - i
  {
    if i < |s.turns| {
      LoopApart(s, i + 1, claimedToo);
      LoopApart(CancelledAt(s, i), i + 1, claimedToo);
    }
  }

  /** Closing leaves the continuations alone. */
  lemma {:induction false} CloseApart(s: Session)
    ensures Close(s).0.candidates == s.candidates
    ensures Close(s).0.promoted == s.promoted
  {
    if s.state.Open? {
      if s.activeRun != "" {
        CloseRunningApart(s);
      } else {
        LoopApart(Freed(Announced(s, Closed)), 0, true);
      }
    }
  }

  lemma {:induction false} CloseRunningApart(s: Session)
    requires s.state.Open? && s.activeRun != ""
    ensures Close(s).0.candidates == s.candidates
    ensures Close(s).0.promoted == s.promoted
  {
    var closing := Announced(s, Closing);
    if s.activeTurn == "" {
      LoopApart(closing, 0, false);
    } else {
      var f := Find(closing.turns, s.activeTurn);
      if f.Some? {
        LoopApart(Asked(closing, f.value), 0, false);
      }
    }
  }

  /** Operation n is the checkpoint that completes the run, and it took effect. */
  ghost predicate CompletedBy(ops: seq<Operation>, n: nat, runId: string) {
    && n < |ops|
    && ops[n].DoCommit? && ops[n].runId == runId && ops[n].outcome.Completed?
    && runId !in Run(ops[..n]).promoted
    && runId in Run(ops[..n + 1]).promoted
  }

  /** A run hands over what its own checkpoints staged, and only by completing. */
  lemma {:induction false} HandedOverIsStaged(ops: seq<Operation>, runId: string) returns (n: nat)
    requires runId in Run(ops).promoted
    ensures CompletedBy(ops, n, runId)
    ensures Run(ops).promoted[runId] == StagedIn(ops[..n], runId) + ops[n].staged
  {
    var front := ops[..|ops| - 1];
    var op := ops[|ops| - 1];
    if runId in Run(front).promoted {
      n := HandedOverIsStaged(front, runId);
      assert front[..n] == ops[..n] && front[..n + 1] == ops[..n + 1];
      RunKeeps(front);
      PromotedStays(Run(front), op, runId);
    } else {
      n := |ops| - 1;
      assert ops[..n + 1] == ops;
      RunKeeps(front);
      HandingStaged(front, op, runId);
    }
  }

  lemma {:induction false} PromotedStays(s: Session, op: Operation, runId: string)
    requires Inv(s) && runId in s.promoted
    ensures runId in Apply(s, op).promoted && Apply(s, op).promoted[runId] == s.promoted[runId]
  {
    StepKeeps(s, op);
  }

  lemma {:induction false} HandingStaged(front: seq<Operation>, op: Operation, runId: string)
    requires Inv(Run(front)) && runId !in Run(front).promoted && runId in Apply(Run(front), op).promoted
    ensures op.DoCommit? && op.runId == runId && op.outcome.Completed?
    ensures Apply(Run(front), op).promoted[runId] == StagedIn(front, runId) + op.staged
  {
    Handing(Run(front), op, runId);
    CandidatesAreStaged(front, runId);
  }

  lemma {:induction false} Handing(s: Session, op: Operation, runId: string)
    requires Inv(s) && runId !in s.promoted && runId in Apply(s, op).promoted
    ensures op.DoCommit? && op.runId == runId && op.outcome.Completed? && runId != "" && !Over(s, runId)
    ensures Apply(s, op).promoted[runId] == CandidatesOf(s, runId) + op.staged
  {
    PromotedStep(s, op, runId);
    var i := Find(s.turns, op.turnId).value;
    assert TurnOk(s.turns[i], i);
    NotOver(s, i);
  }

  lemma {:induction false} PromotedStep(s: Session, op: Operation, runId: string)
    requires runId !in s.promoted && runId in Apply(s, op).promoted
    ensures op.DoCommit? && op.runId == runId && op.outcome.Completed? && s.activeRun == runId
    ensures Find(s.turns, op.turnId).Some?
    ensures var t := s.turns[Find(s.turns, op.turnId).value]; t.runId == runId && t.state.Running?
    ensures Apply(s, op).promoted[runId] == CandidatesOf(s, runId) + op.staged
  {
    if op.DoCommit? {
      CommitPromotes(s, op.runId, op.turnId, op.outcome, op.staged, op.ownerCurrent, runId);
    } else if !op.DoStage? {
      OthersApart(s, op);
    }
  }

  lemma CommitPromotes(s: Session, r: string, turnId: string, o: Outcome, staged: Continuations, ownerCurrent: bool,
                       runId: string)
    requires runId !in s.promoted && runId in CommitRun(s, r, turnId, o, staged, ownerCurrent).0.promoted
    ensures r == runId && o.Completed? && s.activeRun == runId && Find(s.turns, turnId).Some?
    ensures var t := s.turns[Find(s.turns, turnId).value]; t.runId == runId && t.state.Running?
    ensures CommitRun(s, r, turnId, o, staged, ownerCurrent).0.promoted[runId] == CandidatesOf(s, runId) + staged
  {
  }

  lemma {:induction false} NotOver(s: Session, i: nat)
    requires BoundOnce(s) && i < |s.turns| && s.turns[i].state.Running? && s.turns[i].runId != ""
    ensures !Over(s, s.turns[i].runId)
  {
    forall j | 0 <= j < |s.turns| && s.turns[j].runId == s.turns[i].runId ensures j == i {
      assert HasSnapshot(s, i) && HasSnapshot(s, j);
    }
  }

  /** No operation of another run, and none of the session, changes what a running run is given. */
  lemma {:induction false} OthersUnseen(s: Session, op: Operation, runId: string, provider: string)
    requires Inv(s) && runId in s.snapshots && !Over(Apply(s, op), runId)
    requires !(op.DoStage? && op.runId == runId)
    ensures runId in Apply(s, op).snapshots
    ensures LoadContinuation(Apply(s, op), runId, provider) == LoadContinuation(s, runId, provider)
  {
    StepKeeps(s, op);
    CandidatesStep(s, op, runId);
  }

  /** What the run is to be given: its own latest staging, else the latest earlier hand-over, else nothing. */
  ghost predicate Gives(ops: seq<Operation>, runId: string, provider: string, r: Option<Continuation>)
    requires runId in Run(ops).snapshots
  {
    var s := Run(ops);
    var n := s.snapshots[runId].turnSequence - 1;
    && 0 <= n <= |s.turns|
    && if provider in StagedIn(ops, runId) then r == Some(StagedIn(ops, runId)[provider])
       else if exists j: nat :: LatestHandover(s.turns, s.promoted, n, j, provider) then
         exists j: nat :: LatestHandover(s.turns, s.promoted, n, j, provider) &&
                          r == Some(s.promoted[s.turns[j].runId][provider])
       else r.None?
  }

  /**
   * In every history a bound run that is not over is given what its own checkpoints staged last for the
   * provider, else what the latest earlier turn to hand it over did, else nothing.
   */
  lemma {:induction false} ReadsOwnElseLatest(ops: seq<Operation>, runId: string, provider: string)
    requires runId in Run(ops).snapshots && !Over(Run(ops), runId)
    ensures Gives(ops, runId, provider, LoadContinuation(Run(ops), runId, provider))
  {
    RunKeeps(ops);
    assert SnapshotOk(Run(ops), runId, Run(ops).snapshots[runId]);
    CandidatesAreStaged(ops, runId);
    SnapshotIsLatest(ops, runId, provider);
  }
}
