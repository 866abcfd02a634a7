/** The session operations as the store performs them: on one session's rows, in place. */
module SessionStore {
  import opened Options
  import S = Sessions

  class SessionRows {
    var state: S.SessionState
    var nextSequence: nat
    var activeTurn: string
    var activeRun: string
    var dispatchGeneration: nat
    var turns: seq<S.Turn>
    var events: seq<S.Event>
    var generations: seq<S.Generation>
    var snapshots: map<string, S.Snapshot>
    var candidates: map<string, S.Continuations>
    var current: S.Continuations
    /** What each completed run handed over; no operation reads it. */
    ghost var promoted: map<string, S.Continuations>

    ghost function State(): S.Session
      reads this
    {
      S.Session(state, nextSequence, activeTurn, activeRun, dispatchGeneration, turns, events, generations,
                snapshots, candidates, current, promoted)
    }

    constructor ()
      ensures State() == S.NewSession()
    {
      state, nextSequence, activeTurn, activeRun, dispatchGeneration := S.Open, 1, "", "", 0;
      turns, events, generations := [], [], [];
      snapshots, candidates, current, promoted := map[], map[], map[], map[];
    }

    method AppendEvent(kind: S.EventKind, turn: string, runId: string)
      modifies this`events, this`nextSequence
      ensures State() == S.Append(old(State()), kind, turn, runId)
    {
      var sequence := nextSequence;
      nextSequence := nextSequence + 1;
      events := events + [S.Event(sequence, kind, turn, runId)];
    }

    method Submit(id: string, key: string, input: string, elsewhere: bool) returns (r: S.Reply)
      modifies this
      ensures (State(), r) == S.Submit(old(State()), id, key, input, elsewhere)
    {
      if id == "" {
        return S.Refused(S.Validation);
      }
      var prior := S.Find(turns, id);
      if prior.Some? {
        if turns[prior.value].key != key || turns[prior.value].input != input {
          return S.Refused(S.Conflict);
        }
        return S.Unchanged;
      }
      if elsewhere || state != S.Open {
        return S.Refused(S.Conflict);
      }
      turns := turns + [S.Turn(id, key, input, S.LastSequence(turns) + 1, S.Queued, "", "", 0, 0, false, "")];
      AppendEvent(S.InputAccepted, id, "");
      return S.Done;
    }

    method ClaimNext(owner: string, fence: nat, leaseCurrent: bool) returns (r: S.Reply)
      modifies this
      ensures (State(), r) == S.Claim(old(State()), owner, fence, leaseCurrent)
    {
      if owner == "" {
        return S.Refused(S.Validation);
      }
      if fence > 0 && !leaseCurrent {
        return S.Refused(S.Conflict);
      }
      var claimFence := if fence > 0 then fence else dispatchGeneration + 1;
      if state != S.Open {
        return S.Unchanged;
      }
      var at: nat;
      if activeTurn != "" {
        var active := S.Find(turns, activeTurn);
        if active.None? {
          return S.Refused(S.Storage);
        }
        at := active.value;
        if turns[at].state != S.Claimed || turns[at].runId != "" {
          return S.Unchanged;
        }
        if turns[at].owner == owner && turns[at].fence == (if fence > 0 then fence else dispatchGeneration) {
          return S.Turned(turns[at]);
        }
        if fence > 0 && fence <= turns[at].fence {
          return S.Unchanged;
        }
      } else {
        var queued := S.FirstQueued(turns);
        if queued.None? {
          return S.Unchanged;
        }
        at := queued.value;
        activeTurn := turns[at].id;
      }
      var turn := turns[at].(state := S.Claimed, owner := owner, fence := claimFence, attempt := turns[at].attempt + 1);
      dispatchGeneration := dispatchGeneration + 1;
      turns := turns[at := turn];
      AppendEvent(S.ExecutionClaimed, turn.id, "");
      return S.Turned(turn);
    }

    method BindRun(turnId: string, runId: string, owner: string, fence: nat, leaseCurrent: bool, bound: bool)
      returns (r: S.Reply)
      modifies this
      ensures (State(), r) == S.Bind(old(State()), turnId, runId, owner, fence, leaseCurrent, bound)
    {
      if turnId == "" || owner == "" {
        return S.Refused(S.Validation);
      }
      if fence > 0 && !leaseCurrent {
        return S.Refused(S.Conflict);
      }
      var found := S.Find(turns, turnId);
      if found.None? {
        return S.Refused(S.Missing);
      }
      var turn := turns[found.value];
      var expectedFence := if fence > 0 then fence else dispatchGeneration;
      if turn.state == S.Running && turn.runId == runId {
        return S.Unchanged;
      }
      if state != S.Open || activeTurn != turnId || turn.state != S.Claimed || turn.owner != owner ||
         turn.fence != expectedFence || turn.runId != "" {
        return S.Refused(S.Conflict);
      }
      if runId == "" {
        return S.Refused(S.Validation);
      }
      var snapshot := S.Snapshot(turnId, turn.sequence, "", 0, 0, current);
      if generations != [] {
        var generation := generations[|generations| - 1];
        if generation.through >= turn.sequence {
          return S.Refused(S.Conflict);
        }
        snapshot := snapshot.(generationId := generation.id, generation := generation.number,
                              through := generation.through);
      }
      if bound || runId in snapshots {
        return S.Refused(S.Conflict);
      }
      snapshots := snapshots[runId := snapshot];
      turns := turns[found.value := turn.(state := S.Running, runId := runId, owner := "", fence := 0)];
      activeRun := runId;
      AppendEvent(S.ExecutionStarted, turnId, runId);
      return S.Done;
    }

    method StageCandidates(runId: string, staged: S.Continuations)
      modifies this`candidates
      ensures State() == S.Stage(old(State()), runId, staged)
    {
      var before := if runId in candidates then candidates[runId] else map[];
      candidates := candidates[runId := before + staged];
    }

    method CommitRun(runId: string, turnId: string, o: S.Outcome, staged: S.Continuations, ownerCurrent: bool)
      returns (r: S.Reply)
      modifies this
      ensures (State(), r) == S.CommitRun(old(State()), runId, turnId, o, staged, ownerCurrent)
    {
      if !ownerCurrent {
        return S.Refused(S.Conflict);
      }
      var found := S.Find(turns, turnId);
      if found.None? {
        return S.Refused(S.Missing);
      }
      var turn := turns[found.value];
      if turn.state == S.TurnOutcome(o) && turn.runId == runId {
        return S.Unchanged;
      }
      if activeRun != runId || activeTurn != turnId || turn.runId != runId || turn.state != S.Running {
        return S.Refused(S.Conflict);
      }
      var handed: S.Continuations := map[];
      if o == S.Completed {
        handed := (if runId in candidates then candidates[runId] else map[]) + staged;
      }
      EndTurn(found.value, o, handed);
      if state == S.Closing {
        state := S.Closed;
        AppendEvent(S.SessionClosed, "", "");
      }
      return S.Done;
    }

    method EndTurn(i: nat, o: S.Outcome, handed: S.Continuations)
      requires i < |turns|
      modifies this
      ensures State() == S.EndedSession(old(State()), i, o, handed)
    {
      var turn := turns[i];
      turns := turns[i := turn.(state := S.TurnOutcome(o), error := S.OutcomeError(o), owner := "", fence := 0)];
      activeTurn, activeRun := "", "";
      current := current + handed;
      candidates := candidates - {turn.runId};
      promoted := if o == S.Completed then promoted[turn.runId := handed] else promoted;
      AppendEvent(S.OutcomeEvent(o), turn.id, turn.runId);
    }

    method Close() returns (r: S.Reply)
      modifies this
      ensures (State(), r) == S.Close(old(State()))
    {
      if state == S.Closed {
        return S.Unchanged;
      }
      if state == S.Closing {
        return S.Done;
      }
      if activeRun != "" {
        r := CloseAroundRun();
      } else {
        CloseAtOnce();
        r := S.Done;
      }
    }

    /** Asks the active run to stop and cancels what is queued behind it. */
    method CloseAroundRun() returns (r: S.Reply)
      requires state == S.Open && activeRun != ""
      modifies this
      ensures (State(), r) == S.Close(old(State()))
    {
      var active := S.Find(turns, activeTurn);
      if activeTurn != "" && active.None? {
        return S.Refused(S.Storage);
      }
      state := S.Closing;
      AppendEvent(S.SessionClosing, "", "");
      if activeTurn != "" {
        turns := turns[active.value := turns[active.value].(cancelRequested := true)];
        AppendEvent(S.CancelRequested, activeTurn, activeRun);
      }
      SweepWaiting(false);
      return S.Done;
    }

    /** Cancels the claimed turn and everything queued. */
    method CloseAtOnce()
      requires state == S.Open && activeRun == ""
      modifies this
      ensures State() == S.Close(old(State())).0
    {
      state := S.Closed;
      AppendEvent(S.SessionClosing, "", "");
      if activeTurn != "" {
        CancelActive();
      }
      SweepWaiting(true);
      AppendEvent(S.SessionClosed, "", "");
    }

    method CancelActive()
      modifies this`turns, this`events, this`nextSequence, this`activeTurn
      ensures State() == S.CancelActive(old(State()))
    {
      var active := S.Find(turns, activeTurn);
      if active.Some? && (turns[active.value].state == S.Claimed || turns[active.value].state == S.Queued) {
        CancelTurn(active.value);
      }
      activeTurn := "";
    }

    method CancelTurn(i: nat)
      requires i < |turns|
      modifies this`turns, this`events, this`nextSequence
      ensures State() ==
              S.Append(old(State()).(turns := old(turns)[i := S.CancelledTurn(old(turns)[i])]),
                       S.ExecutionCancelled, old(turns)[i].id, "")
    {
      turns := turns[i := turns[i].(state := S.Cancelled, error := "session_closed", owner := "", fence := 0)];
      AppendEvent(S.ExecutionCancelled, turns[i].id, "");
    }

    method SweepWaiting(claimedToo: bool)
      modifies this`turns, this`events, this`nextSequence
      ensures State() == S.CancelWaiting(old(State()), 0, claimedToo)
    {
      var i := 0;
      while i < |turns|
        invariant 0 <= i <= |turns|
        invariant S.CancelWaiting(State(), i, claimedToo) == S.CancelWaiting(old(State()), 0, claimedToo)
      {
        if turns[i].state == S.Queued || (claimedToo && turns[i].state == S.Claimed) {
          CancelTurn(i);
        }
        i := i + 1;
      }
    }

    method CreateGeneration(id: string, expected: nat, through: nat, key: string, kind: string, version: string,
                            payload: string) returns (r: S.Reply)
      modifies this`generations
      ensures (State(), r) == S.CreateGeneration(old(State()), id, expected, through, key, kind, version, payload)
    {
      if key == "" || kind == "" || version == "" {
        return S.Refused(S.Validation);
      }
      var existing := S.FindKey(generations, key);
      if existing.Some? {
        var prior := generations[existing.value];
        if prior.through != through || prior.kind != kind || prior.version != version || prior.payload != payload {
          return S.Refused(S.Conflict);
        }
        return S.Made(prior);
      }
      var number, boundary, predecessor := 0, 0, "";
      if generations != [] {
        var latest := generations[|generations| - 1];
        number, boundary, predecessor := latest.number, latest.through, latest.id;
      }
      if expected != number || through < boundary {
        return S.Refused(S.Conflict);
      }
      var seen := 0;
      var rows := if through < |turns| then through else |turns|;
      while seen < rows
        invariant 0 <= seen <= rows && S.FinishedThrough(turns, seen)
        invariant State() == old(State())
      {
        if turns[seen].sequence != seen + 1 || !S.Final(turns[seen].state) {
          return S.Refused(S.Conflict);
        }
        seen := seen + 1;
      }
      if seen != through {
        return S.Refused(S.Validation);
      }
      if id == "" || exists i :: 0 <= i < |generations| && generations[i].id == id {
        return S.Refused(S.Storage);
      }
      var made := S.Generation(id, number + 1, predecessor, through, key, kind, version, payload);
      generations := generations + [made];
      return S.Made(made);
    }
  }
}
