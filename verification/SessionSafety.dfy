/**
 * What every history of session operations keeps: the order of the turns, the exact event log,
 * the chain of context generations and the flow of provider continuations.
 */
module SessionSafety {
  import opened Options
  import opened Sessions

  // ----- the event log, read back per turn ---------------------------------------------------

  datatype Mark = Mark(kind: EventKind, runId: string)

  /** The log's events about one turn (or, for "", about the session itself), in order. */
  function History(events: seq<Event>, id: string): seq<Mark> {
    if events == [] then [] else
    var last := events[|events| - 1];
    History(events[..|events| - 1], id) + (if last.turn == id then [Mark(last.kind, last.runId)] else [])
  }

  function OutcomeMark(t: Turn): Mark {
    Mark(match t.state case Succeeded => ExecutionCompleted case Failed => ExecutionFailed case _ => ExecutionCancelled,
         t.runId)
  }

  /** The history that a turn's row calls for. */
  function Expected(t: Turn): seq<Mark> {
    [Mark(InputAccepted, "")]
    + seq(t.attempt, _ => Mark(ExecutionClaimed, ""))
    + (if t.runId != "" then [Mark(ExecutionStarted, t.runId)] else [])
    + (if t.cancelRequested then [Mark(CancelRequested, t.runId)] else [])
    + (if Final(t.state) then [OutcomeMark(t)] else [])
  }

  function ExpectedOfSession(state: SessionState): seq<Mark> {
    match state
    case Open => []
    case Closing => [Mark(SessionClosing, "")]
    case Closed => [Mark(SessionClosing, ""), Mark(SessionClosed, "")]
  }

  // ----- the invariant -----------------------------------------------------------------------

  ghost predicate TurnOk(t: Turn, i: nat) {
    && t.sequence == i + 1
    && t.id != ""
    && (t.state.Queued? || t.state.Claimed? ==> t.runId == "")
    && (t.state.Running? || t.state.Succeeded? || t.state.Failed? ==> t.runId != "")
    && (t.runId == "" ==> !t.cancelRequested)
  }

  ghost predicate Numbered(turns: seq<Turn>) {
    && (forall i :: 0 <= i < |turns| ==> TurnOk(turns[i], i))
    && (forall i, j :: 0 <= i < j < |turns| ==> turns[i].id != turns[j].id)
  }

  /** Every turn up to k is over, and the states from k on are those the session's state allows. */
  ghost predicate Shape(s: Session, k: nat) {
    && k <= |s.turns|
    && (forall i :: 0 <= i < k ==> Final(s.turns[i].state))
    && match s.state
       case Open =>
         if s.activeTurn == "" then
           s.activeRun == "" && forall i :: k <= i < |s.turns| ==> s.turns[i].state.Queued?
         else
           && k < |s.turns|
           && s.turns[k].id == s.activeTurn
           && s.activeRun == s.turns[k].runId
           && (s.turns[k].state.Claimed? || (s.turns[k].state.Running? && !s.turns[k].cancelRequested))
           && forall i :: k < i < |s.turns| ==> s.turns[i].state.Queued?
       case Closing =>
         && k < |s.turns|
         && s.turns[k].id == s.activeTurn
         && s.activeRun == s.turns[k].runId
         && s.turns[k].state.Running?
         && s.turns[k].cancelRequested
         && forall i :: k < i < |s.turns| ==> s.turns[i].state.Cancelled? && s.turns[i].runId == ""
       case Closed =>
         k == |s.turns| && s.activeTurn == "" && s.activeRun == ""
  }

  ghost predicate Ordered(s: Session) {
    Numbered(s.turns) && exists k: nat :: Shape(s, k)
  }

  ghost predicate Unknown(turns: seq<Turn>, id: string) {
    forall i :: 0 <= i < |turns| ==> turns[i].id != id
  }

  /** The log is numbered without gaps and says exactly what the rows say. */
  ghost predicate Logged(s: Session) {
    && s.nextSequence == |s.events| + 1
    && (forall i :: 0 <= i < |s.events| ==> s.events[i].sequence == i + 1)
    && (forall i :: 0 <= i < |s.turns| ==> History(s.events, s.turns[i].id) == Expected(s.turns[i]))
    && (forall id {:trigger Unknown(s.turns, id)} :: id != "" && Unknown(s.turns, id) ==> History(s.events, id) == [])
  }

  ghost predicate LoggedSession(s: Session) {
    && History(s.events, "") == ExpectedOfSession(s.state)
    && (s.state.Closed? ==> s.events != [] && s.events[|s.events| - 1].kind.SessionClosed?)
    && (forall i :: 0 <= i < |s.events| - 1 ==> !s.events[i].kind.SessionClosed?)
    && (!s.state.Closed? ==> forall i :: 0 <= i < |s.events| ==> !s.events[i].kind.SessionClosed?)
  }

  ghost predicate SnapshotOk(s: Session, runId: string, p: Snapshot) {
    && 1 <= p.turnSequence <= |s.turns|
    && s.turns[p.turnSequence - 1].id == p.turnId
    && s.turns[p.turnSequence - 1].runId == runId
    && runId != ""
    && p.through < p.turnSequence
    && if p.generationId == "" then p.generation == 0 && p.through == 0 else
       && 1 <= p.generation <= |s.generations|
       && s.generations[p.generation - 1].id == p.generationId
       && s.generations[p.generation - 1].through == p.through
  }

  /** A turn with a run has that run's snapshot. */
  ghost predicate HasSnapshot(s: Session, i: nat)
    requires i < |s.turns|
  {
    s.turns[i].runId != "" ==>
      s.turns[i].runId in s.snapshots && s.snapshots[s.turns[i].runId].turnSequence == i + 1
  }

  /** Runs and started turns belong to each other one to one, through the run's snapshot. */
  ghost predicate BoundOnce(s: Session) {
    && (forall r {:trigger SnapshotOk(s, r, s.snapshots[r])} :: r in s.snapshots ==> SnapshotOk(s, r, s.snapshots[r]))
    && (forall i {:trigger HasSnapshot(s, i)} :: 0 <= i < |s.turns| ==> HasSnapshot(s, i))
  }

  ghost predicate Succeeds(g: Generation, h: Generation) {
    h.predecessor == g.id && g.through <= h.through
  }

  ghost predicate GenerationOk(turns: seq<Turn>, g: Generation, i: nat) {
    g.number == i + 1 && g.id != "" && FinishedThrough(turns, g.through)
  }

  ghost predicate Chained(s: Session) {
    && (forall i :: 0 <= i < |s.generations| ==> GenerationOk(s.turns, s.generations[i], i))
    && (forall i, j :: 0 <= i < j < |s.generations| ==> s.generations[i].id != s.generations[j].id)
    && (forall i, j {:trigger Succeeds(s.generations[i], s.generations[j])} ::
          0 <= i && j == i + 1 && j < |s.generations| ==> Succeeds(s.generations[i], s.generations[j]))
    && (s.generations != [] ==> s.generations[0].predecessor == "")
  }

  /** What the first n turns hand over: later successes override earlier ones, provider by provider. */
  function Accumulated(turns: seq<Turn>, promoted: map<string, Continuations>, n: nat): Continuations
    requires n <= |turns|
  {
    if n == 0 then map[] else
    var before := Accumulated(turns, promoted, n - 1);
    if turns[n - 1].state.Succeeded? && turns[n - 1].runId in promoted then before + promoted[turns[n - 1].runId]
    else before
  }

  /** The run was bound to what the turns before its own hand over. */
  ghost predicate SeesPast(s: Session, r: string)
    requires r in s.snapshots
  {
    && 1 <= s.snapshots[r].turnSequence <= |s.turns|
    && s.snapshots[r].continuations == Accumulated(s.turns, s.promoted, s.snapshots[r].turnSequence - 1)
  }

  ghost predicate Continued(s: Session) {
    && s.current == Accumulated(s.turns, s.promoted, |s.turns|)
    && (forall r {:trigger SeesPast(s, r)} :: r in s.snapshots ==> SeesPast(s, r))
    && (forall i :: 0 <= i < |s.turns| && !Final(s.turns[i].state) ==> s.turns[i].runId !in s.promoted)
    && (forall i :: 0 <= i < |s.turns| && s.turns[i].state.Succeeded? ==> s.turns[i].runId in s.promoted)
    && "" !in s.promoted
    && s.promoted.Keys <= s.snapshots.Keys
  }

  ghost predicate Inv(s: Session) {
    Ordered(s) && Logged(s) && LoggedSession(s) && Linked(s)
  }

  // ----- what one operation may change -------------------------------------------------------

  ghost predicate TurnKept(t: Turn, u: Turn) {
    && t.id == u.id && t.key == u.key && t.input == u.input && t.sequence == u.sequence
    && (t.runId != "" ==> u.runId == t.runId)
    && (Final(t.state) ==> u == t)
  }

  function Age(state: SessionState): nat {
    match state case Open => 0 case Closing => 1 case Closed => 2
  }

  /** Nothing that was committed is taken back. */
  ghost predicate Extends(s: Session, t: Session) {
    && s.events <= t.events
    && s.generations <= t.generations
    && |s.turns| <= |t.turns|
    && (forall i :: 0 <= i < |s.turns| ==> TurnKept(s.turns[i], t.turns[i]))
    && (forall r :: r in s.snapshots ==> r in t.snapshots && t.snapshots[r] == s.snapshots[r])
    && (forall r :: r in s.promoted ==> r in t.promoted && t.promoted[r] == s.promoted[r])
    && Age(s.state) <= Age(t.state)
  }

  // ----- helpers -----------------------------------------------------------------------------

  lemma {:induction false} HistoryAppend(events: seq<Event>, e: Event, id: string)
    ensures History(events + [e], id) == History(events, id) + (if e.turn == id then [Mark(e.kind, e.runId)] else [])
  {
    assert (events + [e])[..|events|] == events;
  }

  /** Rewriting turn i and appending one event about it keeps the log exact, if the row calls for that event. */
  lemma {:induction false} LoggedSet(s: Session, i: nat, t: Turn, kind: EventKind, runId: string, after: Session)
    requires Logged(s) && Numbered(s.turns)
    requires i < |s.turns| && t.id == s.turns[i].id
    requires Expected(t) == Expected(s.turns[i]) + [Mark(kind, runId)]
    requires after.turns == s.turns[i := t]
    requires after.events == s.events + [Event(s.nextSequence, kind, t.id, runId)]
    requires after.nextSequence == s.nextSequence + 1
    ensures Logged(after)
  {
    var e := Event(s.nextSequence, kind, t.id, runId);
    forall j | 0 <= j < |after.turns|
      ensures History(after.events, after.turns[j].id) == Expected(after.turns[j])
    {
      HistoryAppend(s.events, e, after.turns[j].id);
      assert s.turns[j].id == after.turns[j].id;
    }
    forall id {:trigger Unknown(after.turns, id)} | id != "" && Unknown(after.turns, id)
      ensures History(after.events, id) == []
    {
      assert after.turns[i].id != id;
      HistoryAppend(s.events, e, id);
      assert Unknown(s.turns, id) by {
        forall j | 0 <= j < |s.turns| ensures s.turns[j].id != id {
          assert after.turns[j].id != id;
        }
      }
    }
  }

  /** An event about the session itself keeps the turns' histories exact. */
  lemma {:induction false} LoggedNote(s: Session, kind: EventKind, after: Session)
    requires Logged(s) && Numbered(s.turns)
    requires after.turns == s.turns
    requires after.events == s.events + [Event(s.nextSequence, kind, "", "")]
    requires after.nextSequence == s.nextSequence + 1
    ensures Logged(after)
    ensures History(after.events, "") == History(s.events, "") + [Mark(kind, "")]
  {
    var e := Event(s.nextSequence, kind, "", "");
    forall j | 0 <= j < |after.turns|
      ensures History(after.events, after.turns[j].id) == Expected(after.turns[j])
    {
      assert TurnOk(s.turns[j], j);
      HistoryAppend(s.events, e, after.turns[j].id);
    }
    forall id {:trigger Unknown(after.turns, id)} | id != "" && Unknown(after.turns, id)
      ensures History(after.events, id) == []
    {
      assert Unknown(s.turns, id);
      HistoryAppend(s.events, e, id);
    }
    HistoryAppend(s.events, e, "");
  }

  lemma {:induction false} AccumulatedSame(
    turns: seq<Turn>, promoted: map<string, Continuations>, turns': seq<Turn>, promoted': map<string, Continuations>,
    n: nat)
    requires n <= |turns| && n <= |turns'|
    requires forall i :: 0 <= i < n ==>
      (turns[i].state.Succeeded? <==> turns'[i].state.Succeeded?) &&
      (turns[i].state.Succeeded? ==>
         && turns[i].runId == turns'[i].runId
         && turns[i].runId in promoted && turns[i].runId in promoted'
         && promoted[turns[i].runId] == promoted'[turns[i].runId])
    ensures Accumulated(turns, promoted, n) == Accumulated(turns', promoted', n)
  {
    if n > 0 {
      AccumulatedSame(turns, promoted, turns', promoted', n - 1);
    }
  }

  lemma {:induction false} AccumulatedRest(turns: seq<Turn>, promoted: map<string, Continuations>, m: nat, n: nat)
    requires m <= n <= |turns|
    requires forall i :: m <= i < n ==> !turns[i].state.Succeeded?
    ensures Accumulated(turns, promoted, n) == Accumulated(turns, promoted, m)
  {
    if m < n {
      AccumulatedRest(turns, promoted, m, n - 1);
    }
  }

  lemma {:induction false} LastSequenceIs(turns: seq<Turn>)
    requires forall i :: 0 <= i < |turns| ==> turns[i].sequence == i + 1
    ensures LastSequence(turns) == |turns|
  {
    if turns != [] {
      LastSequenceIs(turns[..|turns| - 1]);
    }
  }

  lemma {:induction false} FindIs(turns: seq<Turn>, i: nat)
    requires Numbered(turns) && i < |turns|
    ensures Find(turns, turns[i].id) == Some(i)
  {
    var f := Find(turns, turns[i].id);
    assert f.Some?;
    assert !(f.value < i) && !(i < f.value);
  }

  // ----- what survives a change of the rows --------------------------------------------------

  /** Rows change only as TurnKept allows, no success appears or goes, and new rows are not yet bound. */
  ghost predicate RowsKept(s: Session, t: Session) {
    && |s.turns| <= |t.turns|
    && (forall i :: 0 <= i < |s.turns| ==> TurnKept(s.turns[i], t.turns[i]))
    && (forall i :: 0 <= i < |s.turns| ==> (t.turns[i].state.Succeeded? <==> s.turns[i].state.Succeeded?))
    && (forall i :: |s.turns| <= i < |t.turns| ==> !t.turns[i].state.Succeeded? && t.turns[i].runId == "")
  }

  ghost predicate RunsKept(s: Session, t: Session) {
    && (forall i :: 0 <= i < |s.turns| && i < |t.turns| ==> t.turns[i].runId == s.turns[i].runId)
    && t.snapshots == s.snapshots
  }

  lemma {:induction false} BoundKept(s: Session, t: Session)
    requires BoundOnce(s) && RowsKept(s, t) && RunsKept(s, t) && s.generations <= t.generations
    ensures BoundOnce(t)
  {
    forall r {:trigger SnapshotOk(t, r, t.snapshots[r])} | r in t.snapshots ensures SnapshotOk(t, r, t.snapshots[r]) {
      assert SnapshotOk(s, r, s.snapshots[r]);
    }
    forall i {:trigger HasSnapshot(t, i)} | 0 <= i < |t.turns| ensures HasSnapshot(t, i) {
      if i < |s.turns| {
        assert HasSnapshot(s, i);
      }
    }
  }

  lemma {:induction false} ChainKept(s: Session, t: Session)
    requires Chained(s) && |s.turns| <= |t.turns| && t.generations == s.generations
    requires forall i :: 0 <= i < |s.turns| ==> TurnKept(s.turns[i], t.turns[i])
    ensures Chained(t)
  {
    forall i | 0 <= i < |t.generations| ensures GenerationOk(t.turns, t.generations[i], i) {
      assert GenerationOk(s.turns, s.generations[i], i);
    }
    forall i, j {:trigger Succeeds(t.generations[i], t.generations[j])} |
      0 <= i && j == i + 1 && j < |t.generations| ensures Succeeds(t.generations[i], t.generations[j])
    {
      assert Succeeds(s.generations[i], s.generations[j]);
    }
  }

  lemma {:induction false} ContinuationsKept(s: Session, t: Session)
    requires Continued(s) && RowsKept(s, t) && RunsKept(s, t)
    requires t.promoted == s.promoted && t.current == s.current
    requires forall i :: 0 <= i < |s.turns| && !Final(t.turns[i].state) ==> !Final(s.turns[i].state)
    ensures Continued(t)
  {
    AccumulatedSame(s.turns, s.promoted, t.turns, t.promoted, |s.turns|);
    AccumulatedRest(t.turns, t.promoted, |s.turns|, |t.turns|);
    forall r {:trigger SeesPast(t, r)} | r in t.snapshots ensures SeesPast(t, r) {
      assert SeesPast(s, r);
      AccumulatedSame(s.turns, s.promoted, t.turns, t.promoted, s.snapshots[r].turnSequence - 1);
    }
  }

  /** The parts of the invariant that only look at runs, generations and continuations. */
  ghost predicate Linked(s: Session) {
    BoundOnce(s) && Chained(s) && Continued(s)
  }

  /** An operation that binds no run, ends no run and makes no generation. */
  ghost predicate Quiet(s: Session, t: Session) {
    && RowsKept(s, t) && RunsKept(s, t)
    && t.generations == s.generations && t.promoted == s.promoted && t.current == s.current
    && s.events <= t.events
    && Age(s.state) <= Age(t.state)
    && forall i :: 0 <= i < |s.turns| && !Final(t.turns[i].state) ==> !Final(s.turns[i].state)
  }

  lemma {:induction false} QuietKeeps(s: Session, t: Session)
    requires Linked(s) && Quiet(s, t)
    ensures Linked(t) && Extends(s, t)
  {
    BoundKept(s, t);
    ChainKept(s, t);
    ContinuationsKept(s, t);
  }

  // ----- one lemma per operation -------------------------------------------------------------

  lemma {:induction false} InitialInv()
    ensures Inv(NewSession())
  {
    assert Shape(NewSession(), 0);
  }

  lemma ExtendsSelf(s: Session)
    ensures Extends(s, s)
  {
  }

  lemma {:induction false} SubmitKeeps(s: Session, id: string, key: string, input: string, elsewhere: bool)
    requires Inv(s)
    ensures Inv(Submit(s, id, key, input, elsewhere).0) && Extends(s, Submit(s, id, key, input, elsewhere).0)
  {
    var t := Submit(s, id, key, input, elsewhere).0;
    if t != s {
      var turn := SubmitEffect(s, id, key, input, elsewhere);
      Accepted(s, turn, t);
    }
  }

  lemma {:induction false} SubmitEffect(s: Session, id: string, key: string, input: string, elsewhere: bool)
    returns (turn: Turn)
    requires Numbered(s.turns) && Submit(s, id, key, input, elsewhere).0 != s
    ensures s.state.Open? && Unknown(s.turns, turn.id) && TurnOk(turn, |s.turns|) && turn.state.Queued?
    ensures Expected(turn) == [Mark(InputAccepted, "")]
    ensures Submit(s, id, key, input, elsewhere).0 ==
            Append(s.(turns := s.turns + [turn]), InputAccepted, turn.id, "")
  {
    forall i | 0 <= i < |s.turns| ensures s.turns[i].sequence == i + 1 {
      assert TurnOk(s.turns[i], i);
    }
    LastSequenceIs(s.turns);
    turn := Turn(id, key, input, |s.turns| + 1, Queued, "", "", 0, 0, false, "");
  }

  lemma {:induction false} Accepted(s: Session, turn: Turn, t: Session)
    requires Inv(s) && s.state.Open? && Unknown(s.turns, turn.id) && TurnOk(turn, |s.turns|) && turn.state.Queued?
    requires Expected(turn) == [Mark(InputAccepted, "")]
    requires t == Append(s.(turns := s.turns + [turn]), InputAccepted, turn.id, "")
    ensures Inv(t) && Extends(s, t)
  {
    SubmitLogged(s, turn, t);
    SubmitOrdered(s, turn, t);
    SubmitQuiet(s, turn, t);
    QuietKeeps(s, t);
  }

  lemma SubmitQuiet(s: Session, turn: Turn, t: Session)
    requires turn.state.Queued? && turn.runId == ""
    requires t == Append(s.(turns := s.turns + [turn]), InputAccepted, turn.id, "")
    ensures Quiet(s, t)
  {
  }

  lemma {:induction false} SubmitOrdered(s: Session, turn: Turn, t: Session)
    requires Ordered(s) && s.state.Open? && Unknown(s.turns, turn.id) && TurnOk(turn, |s.turns|) && turn.state.Queued?
    requires t == Append(s.(turns := s.turns + [turn]), InputAccepted, turn.id, "")
    ensures Ordered(t)
  {
    var k: nat :| Shape(s, k);
    assert Shape(t, k);
  }

  lemma {:induction false} SubmitLogged(s: Session, turn: Turn, t: Session)
    requires Logged(s) && LoggedSession(s) && Unknown(s.turns, turn.id) && turn.id != ""
    requires s.state.Open?
    requires Expected(turn) == [Mark(InputAccepted, "")]
    requires t == Append(s.(turns := s.turns + [turn]), InputAccepted, turn.id, "")
    ensures Logged(t) && LoggedSession(t)
  {
    var e := Event(s.nextSequence, InputAccepted, turn.id, "");
    forall j | 0 <= j < |t.turns| ensures History(t.events, t.turns[j].id) == Expected(t.turns[j]) {
      HistoryAppend(s.events, e, t.turns[j].id);
    }
    forall id {:trigger Unknown(t.turns, id)} | id != "" && Unknown(t.turns, id) ensures History(t.events, id) == [] {
      SubmitUnknown(s, turn, t, id);
      HistoryAppend(s.events, e, id);
    }
    HistoryAppend(s.events, e, "");
  }

  lemma {:induction false} SubmitUnknown(s: Session, turn: Turn, t: Session, id: string)
    requires t.turns == s.turns + [turn] && Unknown(t.turns, id)
    ensures Unknown(s.turns, id) && turn.id != id
  {
    assert t.turns[|s.turns|] == turn;
    forall j | 0 <= j < |s.turns| ensures s.turns[j].id != id {
      assert t.turns[j] == s.turns[j];
    }
  }

  /** Turn i, not over yet, is rewritten without touching its run, with one event about it. */
  ghost predicate Rewrites(s: Session, i: nat, turn: Turn, kind: EventKind, runId: string, t: Session) {
    && i < |s.turns|
    && !Final(s.turns[i].state)
    && TurnKept(s.turns[i], turn)
    && t.turns == s.turns[i := turn]
    && t.events == s.events + [Event(s.nextSequence, kind, turn.id, runId)]
    && t.nextSequence == s.nextSequence + 1
    && Age(s.state) <= Age(t.state)
  }

  lemma {:induction false} RewriteQuiet(s: Session, i: nat, turn: Turn, kind: EventKind, runId: string, t: Session)
    requires Rewrites(s, i, turn, kind, runId, t)
    requires turn.runId == s.turns[i].runId && !turn.state.Succeeded?
    requires t.snapshots == s.snapshots && t.generations == s.generations && t.promoted == s.promoted
    requires t.current == s.current
    ensures Quiet(s, t)
  {
    forall j | 0 <= j < |s.turns| ensures TurnKept(s.turns[j], t.turns[j]) {
    }
  }

  lemma {:induction false} RewriteNumbered(s: Session, i: nat, turn: Turn, kind: EventKind, runId: string, t: Session)
    requires Rewrites(s, i, turn, kind, runId, t)
    requires Numbered(s.turns) && TurnOk(turn, i)
    ensures Numbered(t.turns)
  {
    forall j, l | 0 <= j < l < |t.turns| ensures t.turns[j].id != t.turns[l].id {
      assert s.turns[j].id != s.turns[l].id;
    }
  }

  lemma {:induction false} RewriteLogged(s: Session, i: nat, turn: Turn, kind: EventKind, runId: string, t: Session)
    requires Logged(s) && LoggedSession(s) && Numbered(s.turns)
    requires Rewrites(s, i, turn, kind, runId, t)
    requires Expected(turn) == Expected(s.turns[i]) + [Mark(kind, runId)]
    requires t.state == s.state && !s.state.Closed? && !kind.SessionClosed?
    ensures Logged(t) && LoggedSession(t)
  {
    LoggedSet(s, i, turn, kind, runId, t);
    assert TurnOk(s.turns[i], i);
    HistoryAppend(s.events, Event(s.nextSequence, kind, turn.id, runId), "");
  }

  lemma {:induction false} ClaimKeeps(s: Session, owner: string, fence: nat, leaseCurrent: bool)
    requires Inv(s)
    ensures Inv(Claim(s, owner, fence, leaseCurrent).0) && Extends(s, Claim(s, owner, fence, leaseCurrent).0)
  {
    var t := Claim(s, owner, fence, leaseCurrent).0;
    if t != s {
      var k: nat :| Shape(s, k);
      ClaimTarget(s, k, owner, fence, leaseCurrent);
      ClaimedAt(s, k, owner, if fence > 0 then fence else s.dispatchGeneration + 1);
    }
  }

  /** Only the first unfinished turn can be claimed. */
  lemma {:induction false} ClaimTarget(s: Session, k: nat, owner: string, fence: nat, leaseCurrent: bool)
    requires Numbered(s.turns) && Shape(s, k) && Claim(s, owner, fence, leaseCurrent).0 != s
    ensures s.state.Open? && k < |s.turns| && (s.turns[k].state.Queued? || s.turns[k].state.Claimed?)
    ensures s.activeTurn != "" ==> s.activeTurn == s.turns[k].id
    ensures Claim(s, owner, fence, leaseCurrent) ==
            ClaimAt(s, k, owner, if fence > 0 then fence else s.dispatchGeneration + 1)
  {
    if s.activeTurn != "" {
      FindIs(s.turns, k);
    } else {
      var f := FirstQueued(s.turns);
      assert f.value >= k;
      if k < |s.turns| {
        assert s.turns[k].state.Queued?;
      }
    }
  }

  lemma {:induction false} ClaimedAt(s: Session, k: nat, owner: string, fence: nat)
    requires Inv(s) && Shape(s, k) && s.state.Open? && k < |s.turns|
    requires s.turns[k].state.Queued? || s.turns[k].state.Claimed?
    ensures Inv(ClaimAt(s, k, owner, fence).0) && Extends(s, ClaimAt(s, k, owner, fence).0)
  {
    var turn := ClaimedTurn(s.turns[k], owner, fence);
    var t := ClaimAt(s, k, owner, fence).0;
    assert TurnOk(s.turns[k], k);
    ClaimExpected(s.turns[k], turn);
    RewriteQuiet(s, k, turn, ExecutionClaimed, "", t);
    RewriteNumbered(s, k, turn, ExecutionClaimed, "", t);
    RewriteLogged(s, k, turn, ExecutionClaimed, "", t);
    QuietKeeps(s, t);
    assert Shape(t, k);
  }

  lemma ClaimExpected(t: Turn, u: Turn)
    requires t.runId == "" && !t.cancelRequested && !Final(t.state) && !Final(u.state)
    requires u.runId == "" && !u.cancelRequested && u.attempt == t.attempt + 1
    ensures Expected(u) == Expected(t) + [Mark(ExecutionClaimed, "")]
  {
  }

  // ----- bind --------------------------------------------------------------------------------

  /** What a successful bind does: turn k starts under a new run with the given snapshot. */
  ghost predicate Binds(s: Session, k: nat, runId: string, p: Snapshot, t: Session) {
    && Shape(s, k) && k < |s.turns|
    && s.state.Open? && s.turns[k].state.Claimed?
    && runId != "" && runId !in s.snapshots
    && p.turnId == s.turns[k].id && p.turnSequence == s.turns[k].sequence && p.continuations == s.current
    && (match LatestGeneration(s)
        case Some(g) => p.generationId == g.id && p.generation == g.number && p.through == g.through
        case None => p.generationId == "" && p.generation == 0 && p.through == 0)
    && var running := s.turns[k].(state := Running, runId := runId, owner := "", fence := 0);
       t == Append(s.(turns := s.turns[k := running], activeRun := runId, snapshots := s.snapshots[runId := p]),
                   ExecutionStarted, s.turns[k].id, runId)
  }

  lemma {:induction false} BindKeeps(s: Session, turnId: string, runId: string, owner: string, fence: nat,
                                     leaseCurrent: bool, bound: bool)
    requires Inv(s)
    ensures var t := Bind(s, turnId, runId, owner, fence, leaseCurrent, bound).0; Inv(t) && Extends(s, t)
  {
    var t := Bind(s, turnId, runId, owner, fence, leaseCurrent, bound).0;
    if t != s {
      var k: nat :| Shape(s, k);
      FindIs(s.turns, k);
      var p := t.snapshots[runId];
      assert Binds(s, k, runId, p, t);
      BindOrdered(s, k, runId, p, t);
      BindLogged(s, k, runId, p, t);
      BindBound(s, k, runId, p, t);
      BindContinued(s, k, runId, p, t);
      BindExtends(s, k, runId, p, t);
      ChainKept(s, t);
    }
  }

  lemma {:induction false} BindOrdered(s: Session, k: nat, runId: string, p: Snapshot, t: Session)
    requires Numbered(s.turns) && Binds(s, k, runId, p, t)
    ensures Ordered(t)
  {
    assert TurnOk(s.turns[k], k);
    RewriteNumbered(s, k, t.turns[k], ExecutionStarted, runId, t);
    assert Shape(t, k);
  }

  lemma {:induction false} BindLogged(s: Session, k: nat, runId: string, p: Snapshot, t: Session)
    requires Numbered(s.turns) && Logged(s) && LoggedSession(s) && Binds(s, k, runId, p, t)
    ensures Logged(t) && LoggedSession(t)
  {
    assert TurnOk(s.turns[k], k);
    RewriteLogged(s, k, t.turns[k], ExecutionStarted, runId, t);
  }

  /** The latest generation never reaches the first unfinished turn. */
  lemma {:induction false} GenerationsBehind(s: Session, k: nat, i: nat)
    requires Chained(s) && k < |s.turns| && !Final(s.turns[k].state) && i < |s.generations|
    ensures s.generations[i].through <= k
  {
    assert GenerationOk(s.turns, s.generations[i], i);
  }

  lemma {:induction false} BindBound(s: Session, k: nat, runId: string, p: Snapshot, t: Session)
    requires Numbered(s.turns) && BoundOnce(s) && Chained(s) && Binds(s, k, runId, p, t)
    ensures BoundOnce(t)
  {
    assert TurnOk(s.turns[k], k);
    forall r {:trigger SnapshotOk(t, r, t.snapshots[r])} | r in t.snapshots ensures SnapshotOk(t, r, t.snapshots[r]) {
      if r != runId {
        assert SnapshotOk(s, r, s.snapshots[r]);
      } else if s.generations != [] {
        assert GenerationOk(s.turns, s.generations[|s.generations| - 1], |s.generations| - 1);
        GenerationsBehind(s, k, |s.generations| - 1);
      }
    }
    forall i {:trigger HasSnapshot(t, i)} | 0 <= i < |t.turns| ensures HasSnapshot(t, i) {
      assert HasSnapshot(s, i);
    }
  }

  lemma {:induction false} BindContinued(s: Session, k: nat, runId: string, p: Snapshot, t: Session)
    requires Numbered(s.turns) && Continued(s) && Binds(s, k, runId, p, t)
    ensures Continued(t)
  {
    BindCurrent(s, k, runId, p, t);
    forall r {:trigger SeesPast(t, r)} | r in t.snapshots ensures SeesPast(t, r) {
      if r != runId {
        BindSees(s, k, runId, p, t, r);
      }
    }
  }

  lemma {:induction false} BindCurrent(s: Session, k: nat, runId: string, p: Snapshot, t: Session)
    requires Numbered(s.turns) && Continued(s) && Binds(s, k, runId, p, t)
    ensures t.current == Accumulated(t.turns, t.promoted, |t.turns|) && SeesPast(t, runId)
    ensures t.promoted == s.promoted && |t.turns| == |s.turns|
    ensures forall i :: 0 <= i < |t.turns| && !Final(t.turns[i].state) ==> t.turns[i].runId !in t.promoted
    ensures forall i :: 0 <= i < |t.turns| && t.turns[i].state.Succeeded? ==> t.turns[i].runId in t.promoted
  {
    assert TurnOk(s.turns[k], k);
    AccumulatedSame(s.turns, s.promoted, t.turns, t.promoted, |s.turns|);
    AccumulatedRest(t.turns, t.promoted, k, |t.turns|);
  }

  lemma {:induction false} BindSees(s: Session, k: nat, runId: string, p: Snapshot, t: Session, r: string)
    requires Continued(s) && Binds(s, k, runId, p, t) && r in s.snapshots && r != runId
    ensures SeesPast(t, r)
  {
    assert SeesPast(s, r);
    AccumulatedSame(s.turns, s.promoted, t.turns, t.promoted, s.snapshots[r].turnSequence - 1);
  }

  lemma {:induction false} BindExtends(s: Session, k: nat, runId: string, p: Snapshot, t: Session)
    requires Numbered(s.turns) && Binds(s, k, runId, p, t)
    ensures Extends(s, t)
  {
    assert TurnOk(s.turns[k], k);
    forall i | 0 <= i < |s.turns| ensures TurnKept(s.turns[i], t.turns[i]) {
    }
  }

  // ----- a run ends --------------------------------------------------------------------------

  /** What a terminal checkpoint does before a closing session is closed. */
  ghost predicate Ends(s: Session, k: nat, o: Outcome, handed: Continuations, t: Session) {
    && Shape(s, k) && k < |s.turns|
    && s.turns[k].state.Running?
    && (!o.Completed? ==> handed == map[])
    && t == EndedSession(s, k, o, handed)
  }

  lemma {:induction false} CommitKeeps(s: Session, runId: string, turnId: string, o: Outcome, staged: Continuations,
                                       ownerCurrent: bool)
    requires Inv(s)
    ensures var t := CommitRun(s, runId, turnId, o, staged, ownerCurrent).0; Inv(t) && Extends(s, t)
  {
    var t := CommitRun(s, runId, turnId, o, staged, ownerCurrent).0;
    if t != s {
      var k: nat :| Shape(s, k);
      var i := Find(s.turns, turnId).value;
      assert TurnOk(s.turns[i], i);
      if k < |s.turns| {
        FindIs(s.turns, k);
      }
      var handed := if o.Completed? then CandidatesOf(s, runId) + staged else map[];
      var mid := EndedSession(s, k, o, handed);
      assert t == CloseIfClosing(mid);
      Ended(s, k, o, handed, mid, t);
    }
  }

  lemma {:induction false} Ended(s: Session, k: nat, o: Outcome, handed: Continuations, mid: Session, t: Session)
    requires Inv(s) && Ends(s, k, o, handed, mid) && t == CloseIfClosing(mid)
    ensures Inv(t) && Extends(s, t)
  {
    EndNumbered(s, k, o, handed, mid);
    EndLogged(s, k, o, handed, mid);
    EndClosed(s, k, o, handed, mid, t);
    EndLinked(s, k, o, handed, mid);
    LinkedSame(mid, t);
    EndExtends(s, k, o, handed, mid, t);
  }

  lemma {:induction false} EndNumbered(s: Session, k: nat, o: Outcome, handed: Continuations, mid: Session)
    requires Numbered(s.turns) && Ends(s, k, o, handed, mid)
    ensures Numbered(mid.turns)
  {
    assert TurnOk(s.turns[k], k);
    RewriteNumbered(s, k, mid.turns[k], OutcomeEvent(o), s.turns[k].runId, mid);
  }

  lemma {:induction false} EndLogged(s: Session, k: nat, o: Outcome, handed: Continuations, mid: Session)
    requires Numbered(s.turns) && Logged(s) && LoggedSession(s) && Ends(s, k, o, handed, mid)
    ensures Logged(mid) && LoggedSession(mid)
  {
    assert TurnOk(s.turns[k], k);
    RewriteLogged(s, k, mid.turns[k], OutcomeEvent(o), s.turns[k].runId, mid);
  }

  lemma {:induction false} EndClosed(s: Session, k: nat, o: Outcome, handed: Continuations, mid: Session, t: Session)
    requires Numbered(mid.turns) && Logged(mid) && LoggedSession(mid) && Ends(s, k, o, handed, mid)
    requires t == CloseIfClosing(mid)
    ensures Ordered(t) && Logged(t) && LoggedSession(t)
  {
    if s.state.Closing? {
      LoggedNote(mid, SessionClosed, t);
      assert Shape(t, |t.turns|);
    } else {
      assert Shape(t, k + 1);
    }
  }

  lemma {:induction false} EndLinked(s: Session, k: nat, o: Outcome, handed: Continuations, mid: Session)
    requires Numbered(s.turns) && Linked(s) && Ends(s, k, o, handed, mid)
    ensures Linked(mid)
  {
    assert TurnOk(s.turns[k], k);
    EndRows(s, k, o, handed, mid);
    ChainKept(s, mid);
    EndBound(s, k, o, handed, mid);
    EndContinued(s, k, o, handed, mid);
  }

  lemma {:induction false} EndRows(s: Session, k: nat, o: Outcome, handed: Continuations, mid: Session)
    requires Ends(s, k, o, handed, mid)
    ensures |mid.turns| == |s.turns| && forall i :: 0 <= i < |s.turns| ==> TurnKept(s.turns[i], mid.turns[i])
    ensures forall i :: 0 <= i < |s.turns| ==> mid.turns[i].runId == s.turns[i].runId
  {
  }

  lemma {:induction false} EndBound(s: Session, k: nat, o: Outcome, handed: Continuations, mid: Session)
    requires BoundOnce(s) && Ends(s, k, o, handed, mid)
    ensures BoundOnce(mid)
  {
    EndRows(s, k, o, handed, mid);
    forall r {:trigger SnapshotOk(mid, r, mid.snapshots[r])} | r in mid.snapshots
      ensures SnapshotOk(mid, r, mid.snapshots[r])
    {
      assert SnapshotOk(s, r, s.snapshots[r]);
    }
    forall i {:trigger HasSnapshot(mid, i)} | 0 <= i < |mid.turns| ensures HasSnapshot(mid, i) {
      assert HasSnapshot(s, i);
    }
  }

  /** The ended run hands over exactly when it completed, and no earlier snapshot notices. */
  lemma {:induction false} EndContinued(s: Session, k: nat, o: Outcome, handed: Continuations, mid: Session)
    requires Numbered(s.turns) && BoundOnce(s) && Continued(s) && Ends(s, k, o, handed, mid)
    ensures Continued(mid)
  {
    EndCurrent(s, k, o, handed, mid);
    forall r {:trigger SeesPast(mid, r)} | r in mid.snapshots ensures SeesPast(mid, r) {
      EndSees(s, k, o, handed, mid, r);
    }
    EndDistinct(s, k, o, handed, mid);
    EndPromoted(s, k, o, handed, mid);
  }

  lemma {:induction false} EndSees(s: Session, k: nat, o: Outcome, handed: Continuations, mid: Session, r: string)
    requires Numbered(s.turns) && BoundOnce(s) && Continued(s) && Ends(s, k, o, handed, mid) && r in s.snapshots
    ensures SeesPast(mid, r)
  {
    assert SeesPast(s, r) && SnapshotOk(s, r, s.snapshots[r]);
    StartedWithin(s, k, s.snapshots[r].turnSequence - 1);
    EndPrefix(s, k, o, handed, mid, s.snapshots[r].turnSequence - 1);
  }

  lemma {:induction false} EndPromoted(s: Session, k: nat, o: Outcome, handed: Continuations, mid: Session)
    requires Numbered(s.turns) && BoundOnce(s) && Continued(s) && Ends(s, k, o, handed, mid)
    ensures forall i :: 0 <= i < |mid.turns| && mid.turns[i].state.Succeeded? ==> mid.turns[i].runId in mid.promoted
    ensures "" !in mid.promoted && mid.promoted.Keys <= mid.snapshots.Keys
  {
    assert TurnOk(s.turns[k], k);
    assert HasSnapshot(s, k);
  }

  /** Only turns up to the first unfinished one have a run. */
  lemma {:induction false} StartedWithin(s: Session, k: nat, i: nat)
    requires Numbered(s.turns) && Shape(s, k) && i < |s.turns| && s.turns[i].runId != ""
    ensures i <= k
  {
    assert TurnOk(s.turns[i], i);
  }

  lemma {:induction false} EndPrefix(s: Session, k: nat, o: Outcome, handed: Continuations, mid: Session, n: nat)
    requires Numbered(s.turns) && BoundOnce(s) && Continued(s) && Ends(s, k, o, handed, mid) && n <= k
    ensures Accumulated(mid.turns, mid.promoted, n) == Accumulated(s.turns, s.promoted, n)
  {
    forall i | 0 <= i < n && s.turns[i].state.Succeeded? ensures s.turns[i].runId != s.turns[k].runId {
      RunsDiffer(s, i, k);
    }
    AccumulatedSame(s.turns, s.promoted, mid.turns, mid.promoted, n);
  }

  /** No two turns share a run. */
  lemma {:induction false} RunsDiffer(s: Session, i: nat, j: nat)
    requires BoundOnce(s) && i < j < |s.turns| && s.turns[j].runId != ""
    ensures s.turns[i].runId != s.turns[j].runId
  {
    assert HasSnapshot(s, i) && HasSnapshot(s, j);
  }

  lemma {:induction false} EndCurrent(s: Session, k: nat, o: Outcome, handed: Continuations, mid: Session)
    requires Numbered(s.turns) && BoundOnce(s) && Continued(s) && Ends(s, k, o, handed, mid)
    ensures mid.current == Accumulated(mid.turns, mid.promoted, |mid.turns|)
  {
    EndPrefix(s, k, o, handed, mid, k);
    RestUnsuccessful(s, k);
    EndLast(s, k, o, handed, mid);
  }

  lemma {:induction false} RestUnsuccessful(s: Session, k: nat)
    requires Continued(s) && Shape(s, k) && k < |s.turns| && s.turns[k].state.Running?
    ensures s.current == Accumulated(s.turns, s.promoted, k)
    ensures forall i :: k < i < |s.turns| ==> !s.turns[i].state.Succeeded?
  {
    AccumulatedRest(s.turns, s.promoted, k, |s.turns|);
  }

  lemma {:induction false} EndLast(s: Session, k: nat, o: Outcome, handed: Continuations, mid: Session)
    requires k < |s.turns| && mid == EndedSession(s, k, o, handed) && (!o.Completed? ==> handed == map[])
    requires forall i :: k < i < |s.turns| ==> !s.turns[i].state.Succeeded?
    requires s.current == Accumulated(s.turns, s.promoted, k) == Accumulated(mid.turns, mid.promoted, k)
    ensures mid.current == Accumulated(mid.turns, mid.promoted, |mid.turns|)
  {
    AccumulatedRest(mid.turns, mid.promoted, k + 1, |mid.turns|);
  }

  lemma {:induction false} EndDistinct(s: Session, k: nat, o: Outcome, handed: Continuations, mid: Session)
    requires Numbered(s.turns) && BoundOnce(s) && Continued(s) && Ends(s, k, o, handed, mid)
    ensures forall i :: 0 <= i < |mid.turns| && !Final(mid.turns[i].state) ==> mid.turns[i].runId !in mid.promoted
  {
    assert TurnOk(s.turns[k], k);
    forall i | 0 <= i < |mid.turns| && !Final(mid.turns[i].state) ensures mid.turns[i].runId !in mid.promoted {
      assert TurnOk(s.turns[i], i);
    }
  }

  /** The links look at neither the log nor the session's state. */
  lemma {:induction false} LinkedSame(s: Session, t: Session)
    requires Linked(s)
    requires t.turns == s.turns && t.generations == s.generations && t.snapshots == s.snapshots
    requires t.promoted == s.promoted && t.current == s.current
    ensures Linked(t)
  {
    forall r {:trigger SnapshotOk(t, r, t.snapshots[r])} | r in t.snapshots ensures SnapshotOk(t, r, t.snapshots[r]) {
      assert SnapshotOk(s, r, s.snapshots[r]);
    }
    forall i {:trigger HasSnapshot(t, i)} | 0 <= i < |t.turns| ensures HasSnapshot(t, i) {
      assert HasSnapshot(s, i);
    }
    forall r {:trigger SeesPast(t, r)} | r in t.snapshots ensures SeesPast(t, r) {
      assert SeesPast(s, r);
    }
  }

  lemma {:induction false} EndExtends(s: Session, k: nat, o: Outcome, handed: Continuations, mid: Session, t: Session)
    requires Continued(s) && Ends(s, k, o, handed, mid) && t == CloseIfClosing(mid)
    ensures Extends(s, t)
  {
    EndRows(s, k, o, handed, mid);
    assert s.events <= mid.events;
  }

  // ----- close -------------------------------------------------------------------------------

  /** A waiting turn was never bound to a run. */
  ghost predicate Waiting(t: Turn) {
    t.state.Queued? || t.state.Claimed?
  }

  lemma {:induction false} CancelOne(s: Session, i: nat, t: Session)
    requires Numbered(s.turns) && Logged(s) && i < |s.turns| && Waiting(s.turns[i])
    requires t == CancelledAt(s, i)
    ensures LoopKept(s, t)
  {
    var turn := CancelledTurn(s.turns[i]);
    assert TurnOk(s.turns[i], i);
    assert Rewrites(s, i, turn, ExecutionCancelled, "", t);
    RewriteNumbered(s, i, turn, ExecutionCancelled, "", t);
    RewriteQuiet(s, i, turn, ExecutionCancelled, "", t);
    CancelExpected(s.turns[i]);
    LoggedSet(s, i, turn, ExecutionCancelled, "", t);
    HistoryAppend(s.events, Event(s.nextSequence, ExecutionCancelled, turn.id, ""), "");
  }

  lemma CancelExpected(t: Turn)
    requires Waiting(t) && t.runId == "" && !t.cancelRequested
    ensures Expected(CancelledTurn(t)) == Expected(t) + [Mark(ExecutionCancelled, "")]
  {
  }

  /** No event added since says the session is closed. */
  ghost predicate NotClosedSince(s: Session, t: Session) {
    |s.events| <= |t.events| && forall i :: |s.events| <= i < |t.events| ==> !t.events[i].kind.SessionClosed?
  }

  ghost predicate Hit(t: Turn, claimedToo: bool) {
    t.state.Queued? || (claimedToo && t.state.Claimed?)
  }

  /** The loop over the rows: what waits from index i on is cancelled, and nothing else changes. */
  ghost predicate Cancels(s: Session, i: nat, claimedToo: bool, t: Session) {
    && |t.turns| == |s.turns|
    && t.state == s.state && t.activeTurn == s.activeTurn && t.activeRun == s.activeRun
    && (forall j :: 0 <= j < |s.turns| ==>
          (t.turns[j] == if i <= j && Hit(s.turns[j], claimedToo) then CancelledTurn(s.turns[j]) else s.turns[j]))
  }

  lemma {:induction false} CancelLoopRows(s: Session, i: nat, claimedToo: bool)
    requires i <= |s.turns|
    ensures Cancels(s, i, claimedToo, CancelWaiting(s, i, claimedToo))
    decreases |s.turns| - i
  {
    if i < |s.turns| {
      if Hit(s.turns[i], claimedToo) {
        CancelLoopRows(CancelledAt(s, i), i + 1, claimedToo);
      } else {
        CancelLoopRows(s, i + 1, claimedToo);
      }
    }
  }

  function CancelledAt(s: Session, i: nat): Session
    requires i < |s.turns|
  {
    Append(s.(turns := s.turns[i := CancelledTurn(s.turns[i])]), ExecutionCancelled, s.turns[i].id, "")
  }

  ghost predicate LoopKept(s: Session, t: Session) {
    && Numbered(t.turns) && Logged(t) && Quiet(s, t) && History(t.events, "") == History(s.events, "")
    && NotClosedSince(s, t)
  }

  lemma {:induction false} CancelLoopKeeps(s: Session, i: nat, claimedToo: bool)
    requires Numbered(s.turns) && Logged(s) && i <= |s.turns|
    ensures LoopKept(s, CancelWaiting(s, i, claimedToo))
    decreases |s.turns| - i
  {
    CancelUnfold(s, i, claimedToo);
    if i == |s.turns| {
      LoopKeptSelf(s);
    } else if Hit(s.turns[i], claimedToo) {
      CancelledRest(s, i, claimedToo);
    } else {
      CancelLoopKeeps(s, i + 1, claimedToo);
    }
  }

  lemma {:induction false} CancelledRest(s: Session, i: nat, claimedToo: bool)
    requires Numbered(s.turns) && Logged(s) && i < |s.turns| && Waiting(s.turns[i])
    ensures LoopKept(s, CancelWaiting(CancelledAt(s, i), i + 1, claimedToo))
    decreases |s.turns| - i, 0
  {
    var u := CancelledAt(s, i);
    CancelOne(s, i, u);
    CancelLoopKeeps(u, i + 1, claimedToo);
    LoopKeptTrans(s, u, CancelWaiting(u, i + 1, claimedToo));
  }

  lemma CancelUnfold(s: Session, i: nat, claimedToo: bool)
    requires i <= |s.turns|
    ensures CancelWaiting(s, i, claimedToo) ==
            if i == |s.turns| then s
            else if Hit(s.turns[i], claimedToo) then CancelWaiting(CancelledAt(s, i), i + 1, claimedToo)
            else CancelWaiting(s, i + 1, claimedToo)
  {
  }

  lemma LoopKeptSelf(s: Session)
    requires Numbered(s.turns) && Logged(s)
    ensures LoopKept(s, s)
  {
  }

  lemma {:induction false} LoopKeptTrans(s: Session, t: Session, u: Session)
    requires LoopKept(s, t) && LoopKept(t, u)
    ensures LoopKept(s, u)
  {
    QuietTrans(s, t, u);
    forall i | |s.events| <= i < |u.events| ensures !u.events[i].kind.SessionClosed? {
      assert i < |t.events| ==> t.events[i] == u.events[i];
    }
  }

  lemma {:induction false} QuietTrans(s: Session, t: Session, u: Session)
    requires Quiet(s, t) && Quiet(t, u)
    ensures Quiet(s, u)
  {
    forall i | 0 <= i < |s.turns| ensures TurnKept(s.turns[i], u.turns[i]) {
      assert TurnKept(s.turns[i], t.turns[i]) && TurnKept(t.turns[i], u.turns[i]);
    }
    forall i | |s.turns| <= i < |u.turns| ensures !u.turns[i].state.Succeeded? && u.turns[i].runId == "" {
      if i < |t.turns| {
        assert TurnKept(t.turns[i], u.turns[i]);
      }
    }
  }

  lemma {:induction false} NoteQuiet(s: Session, state: SessionState, kind: EventKind, t: Session)
    requires t == Append(s.(state := state), kind, "", "") && Age(s.state) <= Age(state)
    ensures Quiet(s, t)
  {
  }

  lemma {:induction false} CloseKeeps(s: Session)
    requires Inv(s)
    ensures Inv(Close(s).0) && Extends(s, Close(s).0)
  {
    if s.state.Open? {
      var k: nat :| Shape(s, k);
      if s.activeRun != "" {
        FindIs(s.turns, k);
        CloseRunning(s, k);
      } else {
        CloseIdle(s, k);
      }
    }
  }

  function Announced(s: Session, state: SessionState): Session {
    Append(s.(state := state), SessionClosing, "", "")
  }

  function Asked(s: Session, k: nat): Session
    requires k < |s.turns|
  {
    Append(s.(turns := s.turns[k := s.turns[k].(cancelRequested := true)]), CancelRequested, s.activeTurn, s.activeRun)
  }

  /** Facts that hold at every point of closing, after the announcement. */
  ghost predicate Underway(s: Session, t: Session) {
    && Numbered(t.turns) && Logged(t) && Quiet(s, t)
    && History(t.events, "") == [Mark(SessionClosing, "")]
    && (forall i :: 0 <= i < |t.events| ==> !t.events[i].kind.SessionClosed?)
  }

  lemma {:induction false} Announcement(s: Session, state: SessionState)
    requires Numbered(s.turns) && Logged(s) && LoggedSession(s) && s.state.Open?
    ensures Underway(s, Announced(s, state))
  {
    var t := Announced(s, state);
    LoggedNote(s, SessionClosing, t);
    NoteQuiet(s, state, SessionClosing, t);
  }

  lemma {:induction false} UnderwayLoop(s: Session, t: Session, u: Session)
    requires Underway(s, t) && LoopKept(t, u)
    ensures Underway(s, u)
  {
    QuietTrans(s, t, u);
    forall i | 0 <= i < |u.events| ensures !u.events[i].kind.SessionClosed? {
      assert i < |t.events| ==> t.events[i] == u.events[i];
    }
  }

  lemma {:induction false} AskedKept(s: Session, k: nat)
    requires Numbered(s.turns) && Logged(s) && k < |s.turns| && s.turns[k].state.Running? && !s.turns[k].cancelRequested
    requires s.activeTurn == s.turns[k].id && s.activeRun == s.turns[k].runId
    ensures LoopKept(s, Asked(s, k))
  {
    var t := Asked(s, k);
    var turn := t.turns[k];
    assert TurnOk(s.turns[k], k);
    assert Rewrites(s, k, turn, CancelRequested, s.activeRun, t);
    RewriteNumbered(s, k, turn, CancelRequested, s.activeRun, t);
    RewriteQuiet(s, k, turn, CancelRequested, s.activeRun, t);
    LoggedSet(s, k, turn, CancelRequested, s.activeRun, t);
    HistoryAppend(s.events, Event(s.nextSequence, CancelRequested, turn.id, s.activeRun), "");
  }

  lemma {:induction false} CloseRunning(s: Session, k: nat)
    requires Inv(s) && s.state.Open? && Shape(s, k) && s.activeRun != "" && Find(s.turns, s.activeTurn) == Some(k)
    ensures Inv(Close(s).0) && Extends(s, Close(s).0)
  {
    var announced := Announced(s, Closing);
    var asked := Asked(announced, k);
    var t := CancelWaiting(asked, 0, false);
    assert Close(s).0 == t;
    assert TurnOk(s.turns[k], k);
    Announcement(s, Closing);
    AskedKept(announced, k);
    UnderwayLoop(s, announced, asked);
    CancelLoopKeeps(asked, 0, false);
    UnderwayLoop(s, asked, t);
    CancelLoopRows(asked, 0, false);
    ClosingShape(s, k, asked, t);
    QuietKeeps(s, t);
  }

  lemma {:induction false} ClosingShape(s: Session, k: nat, asked: Session, t: Session)
    requires Numbered(s.turns) && s.state.Open? && Shape(s, k) && s.activeRun != "" && s.activeTurn != ""
    requires asked == Asked(Announced(s, Closing), k) && Cancels(asked, 0, false, t)
    ensures Shape(t, k)
  {
    assert TurnOk(s.turns[k], k);
    forall i | k < i < |t.turns| ensures t.turns[i].state.Cancelled? && t.turns[i].runId == "" {
      assert TurnOk(s.turns[i], i);
    }
  }

  /** The session without a run: its claimed turn, if any, goes first. */
  function Freed(s: Session): Session {
    if s.activeTurn != "" then CancelActive(s) else s
  }

  lemma {:induction false} FreedKept(s: Session, k: nat)
    requires Numbered(s.turns) && Logged(s) && k <= |s.turns|
    requires s.activeTurn != "" ==> k < |s.turns| && s.turns[k].id == s.activeTurn && s.turns[k].state.Claimed?
    ensures LoopKept(s, Freed(s)) && Freed(s).activeTurn == ""
    ensures |Freed(s).turns| == |s.turns|
    ensures Freed(s).activeRun == s.activeRun && Freed(s).state == s.state
    ensures forall i :: 0 <= i < |s.turns| ==>
              Freed(s).turns[i] == s.turns[i] || (Waiting(s.turns[i]) && Freed(s).turns[i] == CancelledTurn(s.turns[i]))
  {
    if s.activeTurn != "" {
      FindIs(s.turns, k);
      CancelOne(s, k, CancelledAt(s, k));
      assert Freed(s) == CancelledAt(s, k).(activeTurn := "");
    } else {
      LoopKeptSelf(s);
    }
  }

  lemma {:induction false} CloseIdle(s: Session, k: nat)
    requires Inv(s) && s.state.Open? && Shape(s, k) && s.activeRun == ""
    ensures Inv(Close(s).0) && Extends(s, Close(s).0)
  {
    var swept := CancelWaiting(Freed(Announced(s, Closed)), 0, true);
    var t := Append(swept, SessionClosed, "", "");
    assert Close(s).0 == t;
    Swept(s, k, swept);
    Sealed(s, swept, t);
    QuietKeeps(s, t);
  }

  /** Before the final event, every turn is over. */
  lemma {:induction false} Swept(s: Session, k: nat, swept: Session)
    requires Numbered(s.turns) && Logged(s) && LoggedSession(s) && s.state.Open? && Shape(s, k) && s.activeRun == ""
    requires swept == CancelWaiting(Freed(Announced(s, Closed)), 0, true)
    ensures Underway(s, swept) && swept.state.Closed? && swept.activeTurn == "" && swept.activeRun == ""
    ensures forall i :: 0 <= i < |swept.turns| ==> Final(swept.turns[i].state)
  {
    var announced := Announced(s, Closed);
    var freed := Freed(announced);
    if s.activeTurn != "" {
      ClaimedActive(s, k);
    }
    Announcement(s, Closed);
    FreedKept(announced, k);
    UnderwayLoop(s, announced, freed);
    CancelLoopKeeps(freed, 0, true);
    UnderwayLoop(s, freed, swept);
    CancelLoopRows(freed, 0, true);
    RunningBound(s);
    ClosedRows(s, k, freed, swept);
  }

  lemma {:induction false} RunningBound(s: Session)
    requires Numbered(s.turns)
    ensures forall i :: 0 <= i < |s.turns| && s.turns[i].state.Running? ==> s.turns[i].runId != ""
  {
    forall i | 0 <= i < |s.turns| && s.turns[i].state.Running? ensures s.turns[i].runId != "" {
      assert TurnOk(s.turns[i], i);
    }
  }

  lemma {:induction false} ClaimedActive(s: Session, k: nat)
    requires Numbered(s.turns) && s.state.Open? && Shape(s, k) && s.activeRun == "" && s.activeTurn != ""
    ensures k < |s.turns| && s.turns[k].id == s.activeTurn && s.turns[k].state.Claimed?
  {
    assert TurnOk(s.turns[k], k);
  }

  lemma {:induction false} ClosedRows(s: Session, k: nat, freed: Session, swept: Session)
    requires s.state.Open? && Shape(s, k) && s.activeRun == "" && |freed.turns| == |s.turns|
    requires forall i :: 0 <= i < |s.turns| ==>
               freed.turns[i] == s.turns[i] || (Waiting(s.turns[i]) && freed.turns[i] == CancelledTurn(s.turns[i]))
    requires forall i :: 0 <= i < |s.turns| && s.turns[i].state.Running? ==> s.turns[i].runId != ""
    requires Cancels(freed, 0, true, swept)
    ensures forall i :: 0 <= i < |swept.turns| ==> Final(swept.turns[i].state)
  {
    forall i | 0 <= i < |swept.turns| ensures Final(swept.turns[i].state) {
      assert freed.turns[i] == s.turns[i] || freed.turns[i] == CancelledTurn(s.turns[i]);
    }
  }

  lemma {:induction false} Sealed(s: Session, swept: Session, t: Session)
    requires Underway(s, swept) && swept.state.Closed? && t == Append(swept, SessionClosed, "", "")
    requires swept.activeTurn == "" && swept.activeRun == ""
    requires forall i :: 0 <= i < |swept.turns| ==> Final(swept.turns[i].state)
    ensures Ordered(t) && Logged(t) && LoggedSession(t) && Quiet(s, t)
  {
    LoggedNote(swept, SessionClosed, t);
    NoteQuiet(swept, Closed, SessionClosed, t);
    QuietTrans(s, swept, t);
    assert Shape(t, |t.turns|);
  }

  // ----- generations -------------------------------------------------------------------------

  lemma {:induction false} GenerateKeeps(s: Session, id: string, expected: nat, through: nat, key: string, kind: string,
                                         version: string, payload: string)
    requires Inv(s)
    ensures var t := CreateGeneration(s, id, expected, through, key, kind, version, payload).0; Inv(t) && Extends(s, t)
  {
    var t := CreateGeneration(s, id, expected, through, key, kind, version, payload).0;
    if t != s {
      GenerateEffect(s, id, expected, through, key, kind, version, payload);
      Generated(s, t);
    }
  }

  lemma {:induction false} GenerateEffect(s: Session, id: string, expected: nat, through: nat, key: string,
                                          kind: string, version: string, payload: string)
    requires CreateGeneration(s, id, expected, through, key, kind, version, payload).0 != s
    ensures Generates(s, CreateGeneration(s, id, expected, through, key, kind, version, payload).0)
  {
  }

  /** One generation is added, over finished turns, as the latest one's successor. */
  ghost predicate Generates(s: Session, t: Session) {
    && t == s.(generations := t.generations)
    && |t.generations| == |s.generations| + 1 && t.generations[..|s.generations|] == s.generations
    && var g := t.generations[|s.generations|];
       && g.number == (match LatestGeneration(s) case Some(l) => l.number + 1 case None => 1)
       && g.id != "" && FinishedThrough(t.turns, g.through)
       && (forall i :: 0 <= i < |s.generations| ==> s.generations[i].id != g.id)
       && match LatestGeneration(s)
          case Some(l) => g.predecessor == l.id && l.through <= g.through
          case None => g.predecessor == ""
  }

  lemma {:induction false} Generated(s: Session, t: Session)
    requires Inv(s) && Generates(s, t)
    ensures Inv(t) && Extends(s, t)
  {
    GenerateChained(s, t);
    GenerateLinked(s, t);
    GenerateRest(s, t);
  }

  lemma {:induction false} GenerateLinked(s: Session, t: Session)
    requires BoundOnce(s) && Continued(s) && Generates(s, t)
    ensures BoundOnce(t) && Continued(t) && s.generations <= t.generations
  {
    BoundKept(s, t);
    ContinuationsKept(s, t);
  }

  lemma {:induction false} GenerateChained(s: Session, t: Session)
    requires Chained(s) && Generates(s, t)
    ensures Chained(t)
  {
    forall i | 0 <= i < |t.generations| ensures GenerationOk(t.turns, t.generations[i], i) {
      if i < |s.generations| {
        assert GenerationOk(s.turns, s.generations[i], i);
      } else if i > 0 {
        assert GenerationOk(s.turns, s.generations[i - 1], i - 1);
      }
    }
    forall i, j {:trigger Succeeds(t.generations[i], t.generations[j])} |
      0 <= i && j == i + 1 && j < |t.generations| ensures Succeeds(t.generations[i], t.generations[j])
    {
      if j < |s.generations| {
        assert Succeeds(s.generations[i], s.generations[j]);
      }
    }
  }

  lemma {:induction false} GenerateRest(s: Session, t: Session)
    requires Ordered(s) && Logged(s) && LoggedSession(s) && s.generations <= t.generations
    requires t == s.(generations := t.generations)
    ensures Ordered(t) && Logged(t) && LoggedSession(t) && Extends(s, t)
  {
    var k: nat :| Shape(s, k);
    assert Shape(t, k);
  }

  lemma {:induction false} StageKeeps(s: Session, runId: string, staged: Continuations)
    requires Inv(s)
    ensures Inv(Stage(s, runId, staged)) && Extends(s, Stage(s, runId, staged))
  {
    var t := Stage(s, runId, staged);
    LinkedSame(s, t);
    StageRest(s, t);
  }

  lemma {:induction false} StageRest(s: Session, t: Session)
    requires Ordered(s) && Logged(s) && LoggedSession(s) && t == s.(candidates := t.candidates)
    ensures Ordered(t) && Logged(t) && LoggedSession(t) && Extends(s, t)
  {
    var k: nat :| Shape(s, k);
    assert Shape(t, k);
  }

  // ----- whole histories ---------------------------------------------------------------------

  /** Every operation keeps the invariant and takes nothing back. */
  lemma {:induction false} StepKeeps(s: Session, op: Operation)
    requires Inv(s)
    ensures Inv(Apply(s, op)) && Extends(s, Apply(s, op))
  {
    match op
    case DoSubmit(id, key, input, elsewhere) => SubmitKeeps(s, id, key, input, elsewhere);
    case DoClaim(owner, fence, leaseCurrent) => ClaimKeeps(s, owner, fence, leaseCurrent);
    case DoBind(turnId, runId, owner, fence, leaseCurrent, bound) =>
      BindKeeps(s, turnId, runId, owner, fence, leaseCurrent, bound);
    case DoStage(runId, staged) => StageKeeps(s, runId, staged);
    case DoCommit(runId, turnId, outcome, staged, ownerCurrent) =>
      CommitKeeps(s, runId, turnId, outcome, staged, ownerCurrent);
    case DoClose => CloseKeeps(s);
    case DoGenerate(id, expected, through, key, kind, version, payload) =>
      GenerateKeeps(s, id, expected, through, key, kind, version, payload);
  }

  /** Every reachable session satisfies the invariant. */
  lemma {:induction false} RunKeeps(ops: seq<Operation>)
    ensures Inv(Run(ops))
  {
    if ops == [] {
      InitialInv();
    } else {
      RunKeeps(ops[..|ops| - 1]);
      StepKeeps(Run(ops[..|ops| - 1]), ops[|ops| - 1]);
    }
  }

  lemma {:induction false} ExtendsTrans(s: Session, t: Session, u: Session)
    requires Extends(s, t) && Extends(t, u)
    ensures Extends(s, u)
  {
    forall i | 0 <= i < |s.turns| ensures TurnKept(s.turns[i], u.turns[i]) {
      assert TurnKept(s.turns[i], t.turns[i]) && TurnKept(t.turns[i], u.turns[i]);
    }
  }

  /** What a session has committed after n operations is still there at the end. */
  lemma {:induction false} CommittedForever(ops: seq<Operation>, n: nat)
    requires n <= |ops|
    ensures Extends(Run(ops[..n]), Run(ops))
  {
    if n == |ops| {
      assert ops[..n] == ops;
      ExtendsSelf(Run(ops));
    } else {
      var rest := ops[..|ops| - 1];
      assert rest[..n] == ops[..n];
      CommittedForever(rest, n);
      RunKeeps(rest);
      StepKeeps(Run(rest), ops[|ops| - 1]);
      ExtendsTrans(Run(ops[..n]), Run(rest), Run(ops));
    }
  }
}
