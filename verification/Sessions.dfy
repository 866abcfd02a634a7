/**
 * The durable session protocol: submit, claim, bind, complete and close of turns, the event log,
 * context generations, run snapshots and provider continuations. Each operation is one
 * transaction on the session's rows.
 */
module Sessions {
  import opened Options

  datatype SessionState = Open | Closing | Closed

  datatype TurnState = Queued | Claimed | Running | Succeeded | Failed | Cancelled

  /** runId, owner and error are empty while unset. */
  datatype Turn = Turn(
    id: string, key: string, input: string, sequence: nat, state: TurnState, runId: string,
    owner: string, fence: nat, attempt: nat, cancelRequested: bool, error: string)

  datatype EventKind =
    | InputAccepted | ExecutionClaimed | ExecutionStarted
    | ExecutionCompleted | ExecutionFailed | ExecutionCancelled
    | CancelRequested | SessionClosing | SessionClosed

  /** A session-wide event has an empty turn. */
  datatype Event = Event(sequence: nat, kind: EventKind, turn: string, runId: string)

  /** A derived representation of the turns up to `through`. The first one has an empty predecessor. */
  datatype Generation = Generation(
    id: string, number: nat, predecessor: string, through: nat, key: string, kind: string, version: string,
    payload: string)

  /** The state an opaque provider handed back, with the provider's version. */
  datatype Continuation = Continuation(version: string, state: string)

  type Continuations = map<string, Continuation>

  /** What a run was bound to: its turn, the latest context generation (if any) and the current continuations. */
  datatype Snapshot = Snapshot(
    turnId: string, turnSequence: nat, generationId: string, generation: nat, through: nat,
    continuations: Continuations)

  /**
   * The rows of one session. `promoted` is a history of what each succeeded run handed over; no
   * operation reads it.
   */
  datatype Session = Session(
    state: SessionState, nextSequence: nat, activeTurn: string, activeRun: string, dispatchGeneration: nat,
    turns: seq<Turn>, events: seq<Event>, generations: seq<Generation>,
    snapshots: map<string, Snapshot>, candidates: map<string, Continuations>, current: Continuations,
    promoted: map<string, Continuations>)

  datatype Error = Validation | Conflict | Missing | Storage

  datatype Reply = Done | Unchanged | Turned(turn: Turn) | Made(generation: Generation) | Refused(error: Error)

  function NewSession(): Session {
    Session(Open, 1, "", "", 0, [], [], [], map[], map[], map[], map[])
  }

  predicate Final(state: TurnState) {
    state.Succeeded? || state.Failed? || state.Cancelled?
  }

  function Find(turns: seq<Turn>, id: string): (r: Option<nat>)
    ensures r.Some? ==> r.value < |turns| && turns[r.value].id == id
    ensures r.None? ==> forall i :: 0 <= i < |turns| ==> turns[i].id != id
  {
    if turns == [] then None else
    if turns[|turns| - 1].id == id then Some(|turns| - 1)
    else Find(turns[..|turns| - 1], id)
  }

  /** The first queued turn in sequence order. */
  function FirstQueued(turns: seq<Turn>): (r: Option<nat>)
    ensures r.Some? ==> r.value < |turns| && turns[r.value].state.Queued?
    ensures r.Some? ==> forall i :: 0 <= i < r.value ==> !turns[i].state.Queued?
    ensures r.None? ==> forall i :: 0 <= i < |turns| ==> !turns[i].state.Queued?
  {
    if turns == [] then None else
    match FirstQueued(turns[..|turns| - 1])
    case Some(i) => Some(i)
    case None => if turns[|turns| - 1].state.Queued? then Some(|turns| - 1) else None
  }

  function LastSequence(turns: seq<Turn>): nat {
    if turns == [] then 0 else
    var rest := LastSequence(turns[..|turns| - 1]);
    if turns[|turns| - 1].sequence > rest then turns[|turns| - 1].sequence else rest
  }

  /** Appends an event under the session's next sequence number. */
  function Append(s: Session, kind: EventKind, turn: string, runId: string): Session {
    s.(events := s.events + [Event(s.nextSequence, kind, turn, runId)], nextSequence := s.nextSequence + 1)
  }

  /** Accepts an input; `elsewhere` says that another session already uses the turn id. */
  function Submit(s: Session, id: string, key: string, input: string, elsewhere: bool): (Session, Reply) {
    if id == "" then (s, Refused(Validation)) else
    match Find(s.turns, id)
    case Some(i) =>
      if s.turns[i].key == key && s.turns[i].input == input then (s, Unchanged) else (s, Refused(Conflict))
    case None =>
      if elsewhere || !s.state.Open? then (s, Refused(Conflict)) else
      var turn := Turn(id, key, input, LastSequence(s.turns) + 1, Queued, "", "", 0, 0, false, "");
      (Append(s.(turns := s.turns + [turn]), InputAccepted, id, ""), Done)
  }

  function ClaimedTurn(t: Turn, owner: string, fence: nat): Turn {
    t.(state := Claimed, owner := owner, fence := fence, attempt := t.attempt + 1)
  }

  /** Marks turn i claimed by the owner. */
  function ClaimAt(s: Session, i: nat, owner: string, fence: nat): (Session, Reply)
    requires i < |s.turns|
  {
    var turn := ClaimedTurn(s.turns[i], owner, fence);
    (Append(s.(turns := s.turns[i := turn], activeTurn := turn.id, dispatchGeneration := s.dispatchGeneration + 1),
            ExecutionClaimed, turn.id, ""), Turned(turn))
  }

  /** Claims the active turn again or the first queued one. A fence of 0 means single-process dispatch. */
  function Claim(s: Session, owner: string, fence: nat, leaseCurrent: bool): (Session, Reply) {
    if owner == "" then (s, Refused(Validation)) else
    if fence > 0 && !leaseCurrent then (s, Refused(Conflict)) else
    if !s.state.Open? then (s, Unchanged) else
    var claimFence := if fence > 0 then fence else s.dispatchGeneration + 1;
    if s.activeTurn != "" then
      match Find(s.turns, s.activeTurn)
      case None => (s, Refused(Storage))
      case Some(i) =>
        var turn := s.turns[i];
        if !turn.state.Claimed? || turn.runId != "" then (s, Unchanged) else
        if turn.owner == owner && turn.fence == (if fence > 0 then fence else s.dispatchGeneration)
        then (s, Turned(turn)) else
        if fence > 0 && fence <= turn.fence then (s, Unchanged) else
        ClaimAt(s, i, owner, claimFence)
    else
      match FirstQueued(s.turns)
      case None => (s, Unchanged)
      case Some(i) => ClaimAt(s, i, owner, claimFence)
  }

  function LatestGeneration(s: Session): Option<Generation> {
    if s.generations == [] then None else Some(s.generations[|s.generations| - 1])
  }

  /** Binds the claimed turn to a run; `bound` says that some snapshot already names the run. */
  function Bind(s: Session, turnId: string, runId: string, owner: string, fence: nat, leaseCurrent: bool, bound: bool)
    : (Session, Reply)
  {
    if turnId == "" || owner == "" then (s, Refused(Validation)) else
    if fence > 0 && !leaseCurrent then (s, Refused(Conflict)) else
    match Find(s.turns, turnId)
    case None => (s, Refused(Missing))
    case Some(i) =>
      var turn := s.turns[i];
      if turn.state.Running? && turn.runId == runId then (s, Unchanged) else
      if !s.state.Open? || s.activeTurn != turnId || !turn.state.Claimed? || turn.owner != owner ||
         turn.fence != (if fence > 0 then fence else s.dispatchGeneration) || turn.runId != ""
      then (s, Refused(Conflict)) else
      if runId == "" then (s, Refused(Validation)) else
      var latest := LatestGeneration(s);
      if bound || runId in s.snapshots || (latest.Some? && latest.value.through >= turn.sequence)
      then (s, Refused(Conflict)) else
      var snapshot := match latest
        case Some(g) => Snapshot(turnId, turn.sequence, g.id, g.number, g.through, s.current)
        case None => Snapshot(turnId, turn.sequence, "", 0, 0, s.current);
      var running := turn.(state := Running, runId := runId, owner := "", fence := 0);
      (Append(s.(turns := s.turns[i := running], activeRun := runId, snapshots := s.snapshots[runId := snapshot]),
              ExecutionStarted, turnId, runId), Done)
  }

  /** A running node's checkpoint stages the continuations its provider returned. */
  function Stage(s: Session, runId: string, staged: Continuations): Session {
    s.(candidates := s.candidates[runId := CandidatesOf(s, runId) + staged])
  }

  function CandidatesOf(s: Session, runId: string): Continuations {
    if runId in s.candidates then s.candidates[runId] else map[]
  }

  datatype Outcome = Completed | Aborted | Stopped

  function TurnOutcome(o: Outcome): TurnState {
    match o
    case Completed => Succeeded
    case Stopped => Cancelled
    case Aborted => Failed
  }

  function OutcomeEvent(o: Outcome): EventKind {
    match o
    case Completed => ExecutionCompleted
    case Stopped => ExecutionCancelled
    case Aborted => ExecutionFailed
  }

  function OutcomeError(o: Outcome): string {
    match o
    case Completed => ""
    case Stopped => "execution_cancelled"
    case Aborted => "execution_failed"
  }

  /** Closes a closing session once its last run is over. */
  function CloseIfClosing(s: Session): Session {
    if s.state.Closing? then Append(s.(state := Closed), SessionClosed, "", "") else s
  }

  /** The run of turn k ends and hands over its continuations. */
  function EndedSession(s: Session, k: nat, o: Outcome, handed: Continuations): Session
    requires k < |s.turns|
  {
    var r := s.turns[k].runId;
    var ended := s.turns[k].(state := TurnOutcome(o), error := OutcomeError(o), owner := "", fence := 0);
    Append(s.(turns := s.turns[k := ended], activeTurn := "", activeRun := "", current := s.current + handed,
              candidates := s.candidates - {r},
              promoted := if o.Completed? then s.promoted[r := handed] else s.promoted),
           OutcomeEvent(o), s.turns[k].id, r)
  }

  /**
   * The terminal checkpoint of a run: the turn, the continuations and the session end together.
   * Aborted covers failed and timed-out runs.
   */
  function CommitRun(s: Session, runId: string, turnId: string, o: Outcome, staged: Continuations, ownerCurrent: bool)
    : (Session, Reply)
  {
    if !ownerCurrent then (s, Refused(Conflict)) else
    match Find(s.turns, turnId)
    case None => (s, Refused(Missing))
    case Some(i) =>
      var turn := s.turns[i];
      if turn.state == TurnOutcome(o) && turn.runId == runId then (s, Unchanged) else
      if s.activeRun != runId || s.activeTurn != turnId || turn.runId != runId || !turn.state.Running?
      then (s, Refused(Conflict)) else
      var handed := if o.Completed? then CandidatesOf(s, runId) + staged else map[];
      (CloseIfClosing(EndedSession(s, i, o, handed)), Done)
  }

  function CancelledTurn(t: Turn): Turn {
    t.(state := Cancelled, error := "session_closed", owner := "", fence := 0)
  }

  /** Cancels turns i.. that are still waiting, with one event each. */
  function CancelWaiting(s: Session, i: nat, claimedToo: bool): Session
    requires i <= |s.turns|
    decreases |s.turns| - i
  {
    if i == |s.turns| then s else
    var t := s.turns[i];
    if t.state.Queued? || (claimedToo && t.state.Claimed?) then
      CancelWaiting(Append(s.(turns := s.turns[i := CancelledTurn(t)]), ExecutionCancelled, t.id, ""), i + 1,
                    claimedToo)
    else CancelWaiting(s, i + 1, claimedToo)
  }

  function CancelActive(s: Session): Session {
    match Find(s.turns, s.activeTurn)
    case Some(i) =>
      if s.turns[i].state.Claimed? || s.turns[i].state.Queued? then
        Append(s.(turns := s.turns[i := CancelledTurn(s.turns[i])]), ExecutionCancelled, s.turns[i].id, "")
        .(activeTurn := "")
      else s.(activeTurn := "")
    case None => s.(activeTurn := "")
  }

  /** Asks for closing: cancels what waits, and closes at once unless a run is active. */
  function Close(s: Session): (Session, Reply) {
    if s.state.Closed? then (s, Unchanged) else
    if s.state.Closing? then (s, Done) else
    if s.activeRun != "" then
      var closing := Append(s.(state := Closing), SessionClosing, "", "");
      if s.activeTurn == "" then (CancelWaiting(closing, 0, false), Done) else
      match Find(closing.turns, s.activeTurn)
      case None => (s, Refused(Storage))
      case Some(i) =>
        var asked := Append(closing.(turns := closing.turns[i := closing.turns[i].(cancelRequested := true)]),
                            CancelRequested, s.activeTurn, s.activeRun);
        (CancelWaiting(asked, 0, false), Done)
    else
      var closing := Append(s.(state := Closed), SessionClosing, "", "");
      var freed := if s.activeTurn != "" then CancelActive(closing) else closing;
      (Append(CancelWaiting(freed, 0, true), SessionClosed, "", ""), Done)
  }

  function FindKey(generations: seq<Generation>, key: string): (r: Option<nat>)
    ensures r.Some? ==> r.value < |generations| && generations[r.value].key == key
  {
    if generations == [] then None else
    if generations[|generations| - 1].key == key then Some(|generations| - 1)
    else FindKey(generations[..|generations| - 1], key)
  }

  /** The first n turns are numbered 1..n and are over. */
  predicate FinishedThrough(turns: seq<Turn>, n: nat) {
    n <= |turns| && forall i :: 0 <= i < n ==> turns[i].sequence == i + 1 && Final(turns[i].state)
  }

  /** Adds a derived context generation, under a new id, over finished history. */
  function CreateGeneration(s: Session, id: string, expected: nat, through: nat, key: string, kind: string,
                            version: string, payload: string): (Session, Reply)
  {
    if key == "" || kind == "" || version == "" then (s, Refused(Validation)) else
    match FindKey(s.generations, key)
    case Some(i) =>
      var prior := s.generations[i];
      if prior.through == through && prior.kind == kind && prior.version == version && prior.payload == payload
      then (s, Made(prior)) else (s, Refused(Conflict))
    case None =>
      var latest := LatestGeneration(s);
      var number := if latest.Some? then latest.value.number else 0;
      var boundary := if latest.Some? then latest.value.through else 0;
      if expected != number || through < boundary then (s, Refused(Conflict)) else
      if !FinishedThrough(s.turns, if through < |s.turns| then through else |s.turns|) then (s, Refused(Conflict)) else
      if through > |s.turns| then (s, Refused(Validation)) else
      if id == "" || (exists i :: 0 <= i < |s.generations| && s.generations[i].id == id) then (s, Refused(Storage)) else
      var made := Generation(id, number + 1, if latest.Some? then latest.value.id else "",
                             through, key, kind, version, payload);
      (s.(generations := s.generations + [made]), Made(made))
  }

  datatype Operation =
    | DoSubmit(id: string, key: string, input: string, elsewhere: bool)
    | DoClaim(owner: string, fence: nat, leaseCurrent: bool)
    | DoBind(turnId: string, runId: string, owner: string, fence: nat, leaseCurrent: bool, bound: bool)
    | DoStage(runId: string, staged: Continuations)
    | DoCommit(runId: string, turnId: string, outcome: Outcome, staged: Continuations, ownerCurrent: bool)
    | DoClose
    | DoGenerate(id: string, expected: nat, through: nat, key: string, kind: string, version: string, payload: string)

  function Apply(s: Session, op: Operation): Session {
    match op
    case DoSubmit(id, key, input, elsewhere) => Submit(s, id, key, input, elsewhere).0
    case DoClaim(owner, fence, leaseCurrent) => Claim(s, owner, fence, leaseCurrent).0
    case DoBind(turnId, runId, owner, fence, leaseCurrent, bound) =>
      Bind(s, turnId, runId, owner, fence, leaseCurrent, bound).0
    case DoStage(runId, staged) => Stage(s, runId, staged)
    case DoCommit(runId, turnId, outcome, staged, ownerCurrent) =>
      CommitRun(s, runId, turnId, outcome, staged, ownerCurrent).0
    case DoClose => Close(s).0
    case DoGenerate(id, expected, through, key, kind, version, payload) =>
      CreateGeneration(s, id, expected, through, key, kind, version, payload).0
  }

  function Run(ops: seq<Operation>): Session {
    if ops == [] then NewSession() else Apply(Run(ops[..|ops| - 1]), ops[|ops| - 1])
  }
}
