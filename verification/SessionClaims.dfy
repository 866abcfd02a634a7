/**
 * Exactly when a session operation takes effect, in terms of the history that led to the session:
 * who claimed a turn last, which input was accepted under an id, and which run is under way.
 */
module SessionClaims {
  import opened Options
  import opened Sessions
  import opened SessionSafety

  // ----- claims in a history -----------------------------------------------------------------

  datatype Claimer = Claimer(owner: string, fence: nat)

  function ClaimReply(s: Session, op: Operation): Reply
    requires op.DoClaim?
  {
    Claim(s, op.owner, op.fence, op.leaseCurrent).1
  }

  /** The operation is a claim and returned the turn to its caller. */
  predicate Returned(s: Session, op: Operation, id: string) {
    op.DoClaim? && ClaimReply(s, op).Turned? && ClaimReply(s, op).turn.id == id
  }

  /** Who the turn was last returned to, and under which fence. */
  function LastClaim(ops: seq<Operation>, id: string): Option<Claimer> {
    if ops == [] then None else
    var front, last := ops[..|ops| - 1], ops[|ops| - 1];
    if Returned(Run(front), last, id) then Some(Claimer(last.owner, ClaimReply(Run(front), last).turn.fence))
    else LastClaim(front, id)
  }

  ghost predicate ClaimKnown(ops: seq<Operation>, t: Turn) {
    t.state.Claimed? ==> LastClaim(ops, t.id) == Some(Claimer(t.owner, t.fence))
  }

  /** Every claimed row names the claimer of the history. */
  ghost predicate ClaimsKnown(ops: seq<Operation>) {
    forall i :: 0 <= i < |Run(ops).turns| ==> ClaimKnown(ops, Run(ops).turns[i])
  }

  /** The row is claimed only if it was before, unchanged. */
  ghost predicate NotNewlyClaimed(s: Session, t: Session, i: nat) {
    i < |t.turns| && t.turns[i].state.Claimed? ==> i < |s.turns| && s.turns[i] == t.turns[i]
  }

  /** Nothing but a claim makes a claimed row or changes its claimer. */
  lemma {:induction false} OnlyClaims(s: Session, op: Operation, i: nat)
    requires Inv(s) && !op.DoClaim?
    ensures NotNewlyClaimed(s, Apply(s, op), i)
  {
    match op
    case DoSubmit(id, key, input, elsewhere) => SubmitRows(s, op);
    case DoBind(turnId, runId, owner, fence, leaseCurrent, bound) =>
      BindClaims(s, turnId, runId, owner, fence, leaseCurrent, bound, i);
    case DoStage(runId, staged) =>
    case DoCommit(runId, turnId, outcome, staged, ownerCurrent) =>
      CommitClaims(s, runId, turnId, outcome, staged, ownerCurrent, i);
    case DoClose => CloseClaims(s, i);
    case DoGenerate(id, expected, through, key, kind, version, payload) => GenerateRows(s, op);
  }

  lemma SubmitRows(s: Session, op: Operation)
    requires op.DoSubmit?
    ensures SubmitReply(s, op) != Done ==> Apply(s, op) == s
    ensures SubmitReply(s, op) == Done ==>
              |Apply(s, op).turns| == |s.turns| + 1 && Apply(s, op).turns[..|s.turns|] == s.turns &&
              Apply(s, op).turns[|s.turns|].id == op.id && Apply(s, op).turns[|s.turns|].key == op.key &&
              Apply(s, op).turns[|s.turns|].input == op.input && Apply(s, op).turns[|s.turns|].state.Queued?
  {
  }

  lemma GenerateRows(s: Session, op: Operation)
    requires op.DoGenerate?
    ensures Apply(s, op).turns == s.turns
  {
  }

  lemma BindClaims(s: Session, turnId: string, runId: string, owner: string, fence: nat, leaseCurrent: bool,
                   bound: bool, i: nat)
    ensures var t := Bind(s, turnId, runId, owner, fence, leaseCurrent, bound).0;
            NotNewlyClaimed(s, t, i) && |t.turns| == |s.turns|
  {
  }

  lemma CommitClaims(s: Session, runId: string, turnId: string, o: Outcome, staged: Continuations, ownerCurrent: bool,
                     i: nat)
    ensures var t := CommitRun(s, runId, turnId, o, staged, ownerCurrent).0;
            NotNewlyClaimed(s, t, i) && |t.turns| == |s.turns|
  {
  }

  lemma {:induction false} CloseClaims(s: Session, i: nat)
    requires Inv(s)
    ensures NotNewlyClaimed(s, Close(s).0, i)
  {
    CloseKeeps(s);
    CloseRows(s);
    if Close(s).0 != s {
      NotOpenStopping(Close(s).0);
    }
  }

  lemma {:induction false} CloseIdleRows(s: Session)
    requires s.state.Open? && s.activeRun == ""
    ensures |Close(s).0.turns| == |s.turns| && Close(s).0.state == Closed
  {
    var closing := Append(s.(state := Closed), SessionClosing, "", "");
    CancelLoopRows(if s.activeTurn != "" then CancelActive(closing) else closing, 0, true);
  }

  lemma {:induction false} CloseRunningRows(s: Session)
    requires s.state.Open? && s.activeRun != ""
    ensures |Close(s).0.turns| == |s.turns|
    ensures Close(s).0 == s <==> s.activeTurn != "" && Find(s.turns, s.activeTurn).None?
    ensures Close(s).0 != s ==> Close(s).0.state == Closing
  {
    var closing := Append(s.(state := Closing), SessionClosing, "", "");
    CancelLoopRows(closing, 0, false);
    if s.activeTurn != "" && Find(closing.turns, s.activeTurn).Some? {
      var i := Find(closing.turns, s.activeTurn).value;
      CancelLoopRows(Append(closing.(turns := closing.turns[i := closing.turns[i].(cancelRequested := true)]),
                            CancelRequested, s.activeTurn, s.activeRun), 0, false);
    }
  }

  lemma {:induction false} CloseRows(s: Session)
    ensures |Close(s).0.turns| == |s.turns|
    ensures Close(s).0 == s || Close(s).0.state == (if s.activeRun != "" then Closing else Closed)
    ensures Close(s).0 == s <==> !s.state.Open? || (s.activeRun != "" && s.activeTurn != "" &&
                                                    Find(s.turns, s.activeTurn).None?)
  {
    if s.state.Open? {
      if s.activeRun != "" {
        CloseRunningRows(s);
      } else {
        CloseIdleRows(s);
      }
    }
  }

  /** A claim that returns a turn leaves that row as returned, and every other row as it was. */
  lemma {:induction false} ClaimRows(s: Session, op: Operation)
    requires Inv(s) && op.DoClaim?
    ensures !ClaimReply(s, op).Turned? ==> Apply(s, op) == s
    ensures ClaimReply(s, op).Turned? ==> Claims(s, op, ClaimReply(s, op).turn, Apply(s, op))
  {
    if ClaimReply(s, op).Turned? {
      ClaimRow(s, op.owner, op.fence, op.leaseCurrent,
               if s.activeTurn != "" then Find(s.turns, s.activeTurn).value else FirstQueued(s.turns).value);
    } else {
      ClaimUnturned(s, op.owner, op.fence, op.leaseCurrent);
    }
  }

  /** The turn is the caller's, and its row is the only one that may have changed. */
  ghost predicate Claims(s: Session, op: Operation, turn: Turn, t: Session)
    requires op.DoClaim?
  {
    && turn.owner == op.owner && turn.state.Claimed?
    && exists k :: 0 <= k < |s.turns| && s.turns[k].id == turn.id && t.turns == s.turns[k := turn]
  }

  lemma ClaimRow(s: Session, owner: string, fence: nat, leaseCurrent: bool, k: nat)
    requires Claim(s, owner, fence, leaseCurrent).1.Turned?
    requires k == if s.activeTurn != "" then Find(s.turns, s.activeTurn).value else FirstQueued(s.turns).value
    ensures var (t, r) := Claim(s, owner, fence, leaseCurrent);
            && r.turn.owner == owner && r.turn.state.Claimed?
            && k < |s.turns| && s.turns[k].id == r.turn.id && t.turns == s.turns[k := r.turn]
  {
  }

  lemma ClaimUnturned(s: Session, owner: string, fence: nat, leaseCurrent: bool)
    requires !Claim(s, owner, fence, leaseCurrent).1.Turned?
    ensures Claim(s, owner, fence, leaseCurrent).0 == s
  {
  }

  lemma {:induction false} ClaimKnownStep(ops: seq<Operation>, i: nat)
    requires ops != [] && ClaimsKnown(ops[..|ops| - 1]) && i < |Run(ops).turns|
    ensures ClaimKnown(ops, Run(ops).turns[i])
  {
    var front, op := ops[..|ops| - 1], ops[|ops| - 1];
    var s, t := Run(front), Run(ops);
    RunKeeps(front);
    if t.turns[i].state.Claimed? {
      if op.DoClaim? {
        ClaimRows(s, op);
        if ClaimReply(s, op).Turned? {
          var turn := ClaimReply(s, op).turn;
          var k :| 0 <= k < |s.turns| && s.turns[k].id == turn.id && t.turns == s.turns[k := turn];
          if i != k {
            assert s.turns[i].id != s.turns[k].id;
            assert ClaimKnown(front, s.turns[i]);
          }
        } else {
          assert ClaimKnown(front, s.turns[i]);
        }
      } else {
        OnlyClaims(s, op, i);
        assert ClaimKnown(front, s.turns[i]);
      }
    }
  }

  lemma {:induction false} ClaimsAlwaysKnown(ops: seq<Operation>)
    ensures ClaimsKnown(ops)
  {
    if ops != [] {
      ClaimsAlwaysKnown(ops[..|ops| - 1]);
      forall i | 0 <= i < |Run(ops).turns| ensures ClaimKnown(ops, Run(ops).turns[i]) {
        ClaimKnownStep(ops, i);
      }
    }
  }

  // ----- claiming ----------------------------------------------------------------------------

  /** All turns before k are over and k is not. */
  ghost predicate NextTurn(s: Session, k: nat) {
    k < |s.turns| && !Final(s.turns[k].state) && forall i :: 0 <= i < k ==> Final(s.turns[i].state)
  }

  /** A claimed turn goes to its claimer again, to a local dispatcher, or to a newer lease. */
  ghost predicate MayTake(ops: seq<Operation>, op: Operation, id: string)
    requires op.DoClaim?
  {
    && LastClaim(ops, id).Some?
    && (op.fence == 0 || op.fence > LastClaim(ops, id).value.fence ||
        LastClaim(ops, id).value == Claimer(op.owner, op.fence))
  }

  ghost predicate Claimable(ops: seq<Operation>, op: Operation, k: nat)
    requires op.DoClaim?
  {
    && NextTurn(Run(ops), k)
    && (Run(ops).turns[k].state.Queued? ||
        (Run(ops).turns[k].state.Claimed? && MayTake(ops, op, Run(ops).turns[k].id)))
  }

  /** The fence that the caller stands for: its lease's, or the session's dispatch generation. */
  function Presented(s: Session, fence: nat): nat {
    if fence > 0 then fence else s.dispatchGeneration
  }

  /**
   * A claim returns a turn exactly when the caller is named, its lease is current, the session is open
   * and the next unfinished turn is queued, or claimed and free to take; it is then that turn.
   */
  lemma {:induction false} ClaimIff(ops: seq<Operation>, op: Operation)
    requires op.DoClaim?
    ensures ClaimReply(Run(ops), op).Turned? <==>
            && op.owner != "" && (op.fence > 0 ==> op.leaseCurrent) && Run(ops).state.Open?
            && exists k: nat :: Claimable(ops, op, k)
    ensures forall k: nat :: ClaimReply(Run(ops), op).Turned? && NextTurn(Run(ops), k) ==>
              Returned(Run(ops), op, Run(ops).turns[k].id)
  {
    var s := Run(ops);
    RunKeeps(ops);
    ClaimsAlwaysKnown(ops);
    var k: nat :| Shape(s, k);
    forall j: nat | NextTurn(s, j) && s.state.Open? ensures j == k {
      OpenAtNext(s, k);
    }
    if s.state.Open? && k < |s.turns| {
      OpenClaim(ops, op, k);
    }
  }

  lemma OpenAtNext(s: Session, k: nat)
    requires Shape(s, k) && s.state.Open?
    ensures k < |s.turns| ==> !Final(s.turns[k].state)
  {
  }

  predicate Entitled(op: Operation)
    requires op.DoClaim?
  {
    op.owner != "" && (op.fence > 0 ==> op.leaseCurrent)
  }

  lemma ClaimQueued(s: Session, op: Operation, k: nat)
    requires op.DoClaim? && s.state.Open? && s.activeTurn == "" && FirstQueued(s.turns) == Some(k)
    ensures ClaimReply(s, op).Turned? <==> Entitled(op)
    ensures ClaimReply(s, op).Turned? ==> ClaimReply(s, op).turn.id == s.turns[k].id
  {
  }

  lemma ClaimActive(s: Session, op: Operation, k: nat)
    requires op.DoClaim? && s.state.Open? && s.activeTurn != "" && Find(s.turns, s.activeTurn) == Some(k)
    requires s.turns[k].state.Claimed? ==> s.turns[k].runId == ""
    ensures ClaimReply(s, op).Turned? <==>
            && Entitled(op) && s.turns[k].state.Claimed?
            && (op.fence == 0 || op.fence > s.turns[k].fence ||
                Claimer(s.turns[k].owner, s.turns[k].fence) == Claimer(op.owner, op.fence))
    ensures ClaimReply(s, op).Turned? ==> ClaimReply(s, op).turn.id == s.turns[k].id
  {
  }

  lemma {:induction false} OpenClaim(ops: seq<Operation>, op: Operation, k: nat)
    requires op.DoClaim? && Inv(Run(ops)) && ClaimsKnown(ops)
    requires Shape(Run(ops), k) && Run(ops).state.Open? && k < |Run(ops).turns|
    ensures NextTurn(Run(ops), k)
    ensures ClaimReply(Run(ops), op).Turned? <==> Entitled(op) && Claimable(ops, op, k)
    ensures ClaimReply(Run(ops), op).Turned? ==> ClaimReply(Run(ops), op).turn.id == Run(ops).turns[k].id
  {
    var s := Run(ops);
    OpenAtNext(s, k);
    if s.activeTurn == "" {
      FirstIsNext(s, k);
      ClaimQueued(s, op, k);
    } else {
      FindIs(s.turns, k);
      assert TurnOk(s.turns[k], k) && ClaimKnown(ops, s.turns[k]);
      ClaimActive(s, op, k);
    }
  }

  lemma FirstIsNext(s: Session, k: nat)
    requires Shape(s, k) && s.state.Open? && s.activeTurn == "" && k < |s.turns|
    ensures s.turns[k].state.Queued? && FirstQueued(s.turns) == Some(k)
  {
    assert s.turns[k].state.Queued?;
    var f := FirstQueued(s.turns);
    assert f.Some? && !(f.value > k);
    assert f.value < k ==> Final(s.turns[f.value].state);
  }

  /** Claiming again with the same lease, or again locally with nothing in between, changes nothing. */
  lemma {:induction false} ClaimAgain(s: Session, owner: string, fence: nat, leaseCurrent: bool)
    requires Inv(s) && Claim(s, owner, fence, leaseCurrent).1.Turned?
    ensures var (t, r) := Claim(s, owner, fence, leaseCurrent); Claim(t, owner, fence, leaseCurrent) == (t, r)
  {
    if Claim(s, owner, fence, leaseCurrent).0 != s {
      var k: nat :| Shape(s, k);
      ClaimTarget(s, k, owner, fence, leaseCurrent);
      FreshClaim(s, k, owner, fence);
      HeldClaim(ClaimAt(s, k, owner, if fence > 0 then fence else s.dispatchGeneration + 1).0, k, owner, fence,
                leaseCurrent);
    }
  }

  lemma FreshClaim(s: Session, k: nat, owner: string, fence: nat)
    requires Numbered(s.turns) && k < |s.turns| && (s.turns[k].state.Queued? || s.turns[k].state.Claimed?)
    ensures var t := ClaimAt(s, k, owner, if fence > 0 then fence else s.dispatchGeneration + 1).0;
            && k < |t.turns| && t.activeTurn == t.turns[k].id != "" && Find(t.turns, t.activeTurn) == Some(k)
            && t.turns[k].state.Claimed? && t.turns[k].runId == "" && t.turns[k].owner == owner
            && t.turns[k].fence == Presented(t, fence)
  {
    assert TurnOk(s.turns[k], k);
    var t := ClaimAt(s, k, owner, if fence > 0 then fence else s.dispatchGeneration + 1).0;
    var f := Find(t.turns, t.turns[k].id);
    assert f.Some?;
    assert t.turns[f.value].id == s.turns[f.value].id && t.turns[k].id == s.turns[k].id;
  }

  lemma HeldClaim(t: Session, k: nat, owner: string, fence: nat, leaseCurrent: bool)
    requires owner != "" && (fence > 0 ==> leaseCurrent) && t.state.Open?
    requires k < |t.turns| && t.activeTurn == t.turns[k].id != "" && Find(t.turns, t.activeTurn) == Some(k)
    requires t.turns[k].state.Claimed? && t.turns[k].runId == "" && t.turns[k].owner == owner
    requires t.turns[k].fence == Presented(t, fence)
    ensures Claim(t, owner, fence, leaseCurrent) == (t, Turned(t.turns[k]))
  {
  }

  /** A lease takes a claimed turn over only with a larger fence than the claim it replaces. */
  lemma {:induction false} TakeoverFenced(ops: seq<Operation>, op: Operation, k: nat)
    requires op.DoClaim? && op.fence > 0 && Apply(Run(ops), op) != Run(ops)
    requires NextTurn(Run(ops), k) && Run(ops).turns[k].state.Claimed?
    ensures LastClaim(ops, Run(ops).turns[k].id).Some?
    ensures op.leaseCurrent && op.fence > LastClaim(ops, Run(ops).turns[k].id).value.fence
  {
    var s := Run(ops);
    RunKeeps(ops);
    ClaimsAlwaysKnown(ops);
    var f: nat :| Shape(s, f);
    ClaimTarget(s, f, op.owner, op.fence, op.leaseCurrent);
    assert f == k;
    FindIs(s.turns, k);
    assert ClaimKnown(ops, s.turns[k]);
  }

  // ----- binding -----------------------------------------------------------------------------

  ghost predicate InState(s: Session, id: string, state: TurnState) {
    exists i :: 0 <= i < |s.turns| && s.turns[i].id == id && s.turns[i].state == state
  }

  /** The reply of a bind. */
  function BindReply(s: Session, op: Operation): Reply
    requires op.DoBind?
  {
    Bind(s, op.turnId, op.runId, op.owner, op.fence, op.leaseCurrent, op.bound).1
  }

  /**
   * A bind starts the run exactly when the session is open, the turn is claimed and its last claim was
   * the caller's, under the fence the caller stands for, and the run is new.
   */
  lemma {:induction false} BindIff(ops: seq<Operation>, op: Operation)
    requires op.DoBind?
    ensures BindReply(Run(ops), op) == Done <==>
            && op.owner != "" && op.runId != "" && (op.fence > 0 ==> op.leaseCurrent)
            && Run(ops).state.Open? && InState(Run(ops), op.turnId, Claimed)
            && LastClaim(ops, op.turnId) == Some(Claimer(op.owner, Presented(Run(ops), op.fence)))
            && !op.bound && op.runId !in Run(ops).snapshots
  {
    var s := Run(ops);
    RunKeeps(ops);
    ClaimsAlwaysKnown(ops);
    var found := Find(s.turns, op.turnId);
    if found.Some? && s.turns[found.value].state.Claimed? {
      assert InState(s, op.turnId, Claimed);
      if s.state.Open? {
        ClaimedTurnFacts(ops, found.value);
        BindClaimed(s, op, found.value);
      }
    } else {
      if InState(s, op.turnId, Claimed) {
        FoundInState(s, op.turnId, Claimed);
      }
    }
  }

  lemma FoundInState(s: Session, id: string, state: TurnState)
    requires Numbered(s.turns) && InState(s, id, state)
    ensures Find(s.turns, id).Some? && s.turns[Find(s.turns, id).value].state == state
  {
    var i :| 0 <= i < |s.turns| && s.turns[i].id == id && s.turns[i].state == state;
    FindIs(s.turns, i);
  }

  lemma BindClaimed(s: Session, op: Operation, i: nat)
    requires op.DoBind? && s.state.Open? && Find(s.turns, op.turnId) == Some(i) && s.turns[i].state.Claimed?
    requires s.activeTurn == op.turnId != "" && s.turns[i].runId == ""
    requires LatestGeneration(s).Some? ==> LatestGeneration(s).value.through < s.turns[i].sequence
    ensures BindReply(s, op) == Done <==>
            && op.owner != "" && op.runId != "" && (op.fence > 0 ==> op.leaseCurrent)
            && Claimer(s.turns[i].owner, s.turns[i].fence) == Claimer(op.owner, Presented(s, op.fence))
            && !op.bound && op.runId !in s.snapshots
  {
  }

  lemma {:induction false} ClaimedTurnFacts(ops: seq<Operation>, i: nat)
    requires Inv(Run(ops)) && ClaimsKnown(ops) && Run(ops).state.Open?
    requires i < |Run(ops).turns| && Run(ops).turns[i].state.Claimed?
    ensures var s := Run(ops);
            && Find(s.turns, s.turns[i].id) == Some(i) && s.activeTurn == s.turns[i].id && s.turns[i].id != ""
            && s.turns[i].runId == ""
            && LastClaim(ops, s.turns[i].id) == Some(Claimer(s.turns[i].owner, s.turns[i].fence))
            && (LatestGeneration(s).Some? ==> LatestGeneration(s).value.through < s.turns[i].sequence)
  {
    var s := Run(ops);
    var k: nat :| Shape(s, k);
    assert i == k;
    FindIs(s.turns, i);
    assert TurnOk(s.turns[i], i) && ClaimKnown(ops, s.turns[i]);
    if s.generations != [] {
      GenerationsBehind(s, i, |s.generations| - 1);
    }
  }

  /** At operation j the turn was returned to the claimer, and no later operation returned it to anyone. */
  ghost predicate LastClaimAt(ops: seq<Operation>, j: nat, id: string, c: Claimer) {
    && j < |ops| && Returned(Run(ops[..j]), ops[j], id)
    && c == Claimer(ops[j].owner, ClaimReply(Run(ops[..j]), ops[j]).turn.fence)
    && forall k :: j < k < |ops| ==> !Returned(Run(ops[..k]), ops[k], id)
  }

  lemma {:induction false} LastClaimIndex(ops: seq<Operation>, id: string) returns (j: nat)
    requires LastClaim(ops, id).Some?
    ensures LastClaimAt(ops, j, id, LastClaim(ops, id).value)
  {
    var n := |ops| - 1;
    var front := ops[..n];
    if Returned(Run(front), ops[n], id) {
      j := n;
    } else {
      j := LastClaimIndex(front, id);
      assert front[..j] == ops[..j];
      forall k | j < k < |ops| ensures !Returned(Run(ops[..k]), ops[k], id) {
        if k < n {
          assert front[..k] == ops[..k];
        }
      }
    }
  }

  /**
   * In every history a run starts only for the claimer: an earlier claim by the same owner returned
   * the turn under the fence the bind stands for, and no operation in between claimed it for anyone.
   */
  lemma {:induction false} BoundByItsClaimer(ops: seq<Operation>, n: nat) returns (j: nat)
    requires n < |ops| && ops[n].DoBind? && BindReply(Run(ops[..n]), ops[n]) == Done
    ensures j < n && LastClaimAt(ops[..n], j, ops[n].turnId,
                                 Claimer(ops[n].owner, Presented(Run(ops[..n]), ops[n].fence)))
  {
    BindIff(ops[..n], ops[n]);
    j := LastClaimIndex(ops[..n], ops[n].turnId);
  }

  // ----- submitting --------------------------------------------------------------------------

  function SubmitReply(s: Session, op: Operation): Reply
    requires op.DoSubmit?
  {
    Submit(s, op.id, op.key, op.input, op.elsewhere).1
  }

  ghost predicate HasInput(s: Session, id: string, key: string, input: string) {
    exists i :: 0 <= i < |s.turns| && s.turns[i].id == id && s.turns[i].key == key && s.turns[i].input == input
  }

  /** The first accepted submission under the id. */
  function Accepted(ops: seq<Operation>, id: string): Option<(string, string)> {
    if ops == [] then None else
    var front, last := ops[..|ops| - 1], ops[|ops| - 1];
    if Accepted(front, id).Some? then Accepted(front, id)
    else if last.DoSubmit? && last.id == id && SubmitReply(Run(front), last) == Done then Some((last.key, last.input))
    else None
  }

  ghost predicate InputKnown(ops: seq<Operation>, id: string) {
    match Accepted(ops, id)
    case Some(a) => HasInput(Run(ops), id, a.0, a.1)
    case None => Unknown(Run(ops).turns, id)
  }

  lemma {:induction false} RowsStay(s: Session, op: Operation, id: string, key: string, input: string)
    requires Inv(s) && HasInput(s, id, key, input)
    ensures HasInput(Apply(s, op), id, key, input)
  {
    StepKeeps(s, op);
    var i :| 0 <= i < |s.turns| && s.turns[i].id == id && s.turns[i].key == key && s.turns[i].input == input;
    assert TurnKept(s.turns[i], Apply(s, op).turns[i]);
  }

  /** Every operation but an accepted submission keeps the number of rows. */
  lemma {:induction false} OnlySubmits(s: Session, op: Operation)
    requires !(op.DoSubmit? && SubmitReply(s, op) == Done)
    ensures |Apply(s, op).turns| == |s.turns|
  {
    match op
    case DoSubmit(id, key, input, elsewhere) => SubmitRows(s, op);
    case DoClaim(owner, fence, leaseCurrent) =>
    case DoBind(turnId, runId, owner, fence, leaseCurrent, bound) =>
      BindClaims(s, turnId, runId, owner, fence, leaseCurrent, bound, 0);
    case DoStage(runId, staged) =>
    case DoCommit(runId, turnId, outcome, staged, ownerCurrent) =>
      CommitClaims(s, runId, turnId, outcome, staged, ownerCurrent, 0);
    case DoClose => CloseRows(s);
    case DoGenerate(id, expected, through, key, kind, version, payload) => GenerateRows(s, op);
  }

  lemma {:induction false} StillUnknown(s: Session, op: Operation, id: string)
    requires Inv(s) && Unknown(s.turns, id) && !(op.DoSubmit? && op.id == id && SubmitReply(s, op) == Done)
    ensures Unknown(Apply(s, op).turns, id)
  {
    StepKeeps(s, op);
    var t := Apply(s, op);
    if op.DoSubmit? {
      SubmitRows(s, op);
    }
    if !(op.DoSubmit? && SubmitReply(s, op) == Done) {
      OnlySubmits(s, op);
    }
    forall i | 0 <= i < |t.turns| ensures t.turns[i].id != id {
      assert i < |s.turns| ==> TurnKept(s.turns[i], t.turns[i]);
    }
  }

  /** The row of an id holds the first input accepted under it, and there is none before that. */
  lemma {:induction false} InputsKnown(ops: seq<Operation>, id: string)
    ensures InputKnown(ops, id)
  {
    if ops != [] {
      var front, op := ops[..|ops| - 1], ops[|ops| - 1];
      InputsKnown(front, id);
      RunKeeps(front);
      if Accepted(front, id).Some? {
        RowsStay(Run(front), op, id, Accepted(front, id).value.0, Accepted(front, id).value.1);
      } else if Accepted(ops, id).Some? {
        SubmitRows(Run(front), op);
      } else {
        StillUnknown(Run(front), op, id);
      }
    }
  }

  /**
   * A submission is accepted exactly under a new id in an open session, repeated exactly when it is the
   * input accepted under the id, and otherwise a conflict; nothing but acceptance changes the session.
   */
  lemma {:induction false} SubmitIff(ops: seq<Operation>, op: Operation)
    requires op.DoSubmit? && op.id != ""
    ensures SubmitReply(Run(ops), op) == Done <==>
            Accepted(ops, op.id).None? && !op.elsewhere && Run(ops).state.Open?
    ensures SubmitReply(Run(ops), op) == Unchanged <==> Accepted(ops, op.id) == Some((op.key, op.input))
    ensures SubmitReply(Run(ops), op) in {Done, Unchanged, Refused(Conflict)}
    ensures SubmitReply(Run(ops), op) != Done ==> Apply(Run(ops), op) == Run(ops)
    ensures SubmitReply(Run(ops), op) == Done ==>
              HasInput(Apply(Run(ops), op), op.id, op.key, op.input) && InState(Apply(Run(ops), op), op.id, Queued)
  {
    RunKeeps(ops);
    InputsKnown(ops, op.id);
    Submitting(Run(ops), op, Accepted(ops, op.id));
  }

  lemma Submitting(s: Session, op: Operation, accepted: Option<(string, string)>)
    requires op.DoSubmit? && op.id != "" && Numbered(s.turns)
    requires match accepted case Some(a) => HasInput(s, op.id, a.0, a.1) case None => Unknown(s.turns, op.id)
    ensures SubmitReply(s, op) == Done <==> accepted.None? && !op.elsewhere && s.state.Open?
    ensures SubmitReply(s, op) == Unchanged <==> accepted == Some((op.key, op.input))
    ensures SubmitReply(s, op) in {Done, Unchanged, Refused(Conflict)}
    ensures SubmitReply(s, op) != Done ==> Apply(s, op) == s
    ensures SubmitReply(s, op) == Done ==>
              HasInput(Apply(s, op), op.id, op.key, op.input) && InState(Apply(s, op), op.id, Queued)
  {
    SubmitRows(s, op);
    if accepted.Some? {
      var a := accepted.value;
      var i :| 0 <= i < |s.turns| && s.turns[i].id == op.id && s.turns[i].key == a.0 && s.turns[i].input == a.1;
      FindIs(s.turns, i);
    } else {
      assert Find(s.turns, op.id).None?;
    }
  }

  // ----- ending a run ------------------------------------------------------------------------

  function CommitReply(s: Session, op: Operation): Reply
    requires op.DoCommit?
  {
    CommitRun(s, op.runId, op.turnId, op.outcome, op.staged, op.ownerCurrent).1
  }

  ghost predicate RunsTurn(s: Session, id: string, runId: string) {
    exists i :: 0 <= i < |s.turns| && s.turns[i].id == id && s.turns[i].state.Running? && s.turns[i].runId == runId
  }

  ghost predicate EndedAs(s: Session, id: string, runId: string, o: Outcome) {
    exists i ::
      0 <= i < |s.turns| && s.turns[i].id == id && s.turns[i].state == TurnOutcome(o) && s.turns[i].runId == runId
  }

  /**
   * A terminal checkpoint takes effect exactly when its owner is current and the run is the one the turn
   * is running under; the turn then has the outcome, no run is active and a closing session is closed.
   */
  lemma {:induction false} CommitIff(ops: seq<Operation>, op: Operation)
    requires op.DoCommit?
    ensures CommitReply(Run(ops), op) == Done <==> op.ownerCurrent && RunsTurn(Run(ops), op.turnId, op.runId)
    ensures CommitReply(Run(ops), op) != Done ==> Apply(Run(ops), op) == Run(ops)
    ensures CommitReply(Run(ops), op) == Done ==> Ended(Run(ops), op, Apply(Run(ops), op))
  {
    RunKeeps(ops);
    Committing(Run(ops), op);
  }

  /** The turn has the outcome, no run is active and a closing session is closed. */
  ghost predicate Ended(s: Session, op: Operation, t: Session)
    requires op.DoCommit?
  {
    && EndedAs(t, op.turnId, op.runId, op.outcome) && t.activeRun == "" && t.activeTurn == ""
    && CandidatesOf(t, op.runId) == map[]
    && t.state == if s.state.Closing? then Closed else s.state
  }

  lemma {:induction false} Committing(s: Session, op: Operation)
    requires op.DoCommit? && Ordered(s)
    ensures CommitReply(s, op) == Done <==> op.ownerCurrent && RunsTurn(s, op.turnId, op.runId)
    ensures CommitReply(s, op) != Done ==> Apply(s, op) == s
    ensures CommitReply(s, op) == Done ==> Ended(s, op, Apply(s, op))
  {
    if RunsTurn(s, op.turnId, op.runId) {
      var k: nat :| Shape(s, k);
      var i :| 0 <= i < |s.turns| && s.turns[i].id == op.turnId && s.turns[i].state.Running? &&
               s.turns[i].runId == op.runId;
      assert i == k;
      FindIs(s.turns, i);
    }
    if CommitReply(s, op) == Done {
      CommitDone(s, op, Find(s.turns, op.turnId).value);
    }
  }

  lemma CommitDone(s: Session, op: Operation, i: nat)
    requires op.DoCommit? && CommitReply(s, op) == Done && Find(s.turns, op.turnId) == Some(i)
    ensures RunsTurn(s, op.turnId, op.runId) && op.ownerCurrent && Ended(s, op, Apply(s, op))
  {
    assert s.turns[i].state.Running? && s.turns[i].runId == op.runId;
    var t := Apply(s, op);
    assert t.turns[i].id == op.turnId && t.turns[i].state == TurnOutcome(op.outcome) && t.turns[i].runId == op.runId;
  }

  // ----- what a row says of its end -----------------------------------------------------------

  /** The reason a row gives: none unless it failed or was cancelled, by its run or by the session. */
  function Reason(t: Turn): string {
    match t.state
    case Failed => "execution_failed"
    case Cancelled => if t.runId != "" then "execution_cancelled" else "session_closed"
    case _ => ""
  }

  /** The row gives that reason, and names an owner and a fence only while it is claimed. */
  ghost predicate RowExact(t: Turn) {
    t.error == Reason(t) && (!t.state.Claimed? ==> t.owner == "" && t.fence == 0)
  }

  ghost predicate Reasoned(s: Session) {
    forall i :: 0 <= i < |s.turns| ==> RowExact(s.turns[i])
  }

  /** Only a run's own end and the closing of the session give a reason. */
  lemma {:induction false} ReasonsStep(s: Session, op: Operation)
    requires Inv(s) && Reasoned(s)
    ensures Reasoned(Apply(s, op))
  {
    match op
    case DoSubmit(id, key, input, elsewhere) => SubmitReasons(s, id, key, input, elsewhere);
    case DoClaim(owner, fence, leaseCurrent) => ClaimReasons(s, owner, fence, leaseCurrent);
    case DoBind(turnId, runId, owner, fence, leaseCurrent, bound) =>
      BindReasons(s, turnId, runId, owner, fence, leaseCurrent, bound);
    case DoStage(runId, staged) =>
    case DoCommit(runId, turnId, outcome, staged, ownerCurrent) =>
      CommitReasons(s, runId, turnId, outcome, staged, ownerCurrent);
    case DoClose => CloseReasons(s);
    case DoGenerate(id, expected, through, key, kind, version, payload) => GenerateRows(s, op);
  }

  lemma SubmitReasons(s: Session, id: string, key: string, input: string, elsewhere: bool)
    requires Reasoned(s)
    ensures Reasoned(Submit(s, id, key, input, elsewhere).0)
  {
  }

  lemma ReasonedRow(s: Session, t: Session, i: nat)
    requires Reasoned(s) && i < |s.turns| == |t.turns| && t.turns == s.turns[i := t.turns[i]]
    requires RowExact(t.turns[i])
    ensures Reasoned(t)
  {
  }

  lemma ClaimReasons(s: Session, owner: string, fence: nat, leaseCurrent: bool)
    requires Inv(s) && Reasoned(s)
    ensures Reasoned(Claim(s, owner, fence, leaseCurrent).0)
  {
    var t := Claim(s, owner, fence, leaseCurrent).0;
    if t != s {
      var k: nat :| Shape(s, k);
      ClaimTarget(s, k, owner, fence, leaseCurrent);
      ReasonedRow(s, t, k);
    }
  }

  lemma BindReasons(s: Session, turnId: string, runId: string, owner: string, fence: nat, leaseCurrent: bool,
                    bound: bool)
    requires Reasoned(s)
    ensures Reasoned(Bind(s, turnId, runId, owner, fence, leaseCurrent, bound).0)
  {
    var t := Bind(s, turnId, runId, owner, fence, leaseCurrent, bound).0;
    if t != s {
      ReasonedRow(s, t, Find(s.turns, turnId).value);
    }
  }

  /** The row a terminal checkpoint leaves. */
  lemma CommitRow(s: Session, runId: string, turnId: string, o: Outcome, staged: Continuations, ownerCurrent: bool)
    requires CommitRun(s, runId, turnId, o, staged, ownerCurrent).0 != s
    ensures Find(s.turns, turnId).Some?
    ensures var i := Find(s.turns, turnId).value;
            var t := CommitRun(s, runId, turnId, o, staged, ownerCurrent).0;
            && s.turns[i].state.Running?
            && t.turns == s.turns[i := s.turns[i].(state := TurnOutcome(o), error := OutcomeError(o), owner := "",
                                                   fence := 0)]
  {
  }

  lemma CommitReasons(s: Session, runId: string, turnId: string, o: Outcome, staged: Continuations, ownerCurrent: bool)
    requires Numbered(s.turns) && Reasoned(s)
    ensures Reasoned(CommitRun(s, runId, turnId, o, staged, ownerCurrent).0)
  {
    var t := CommitRun(s, runId, turnId, o, staged, ownerCurrent).0;
    if t != s {
      CommitRow(s, runId, turnId, o, staged, ownerCurrent);
      var i := Find(s.turns, turnId).value;
      assert TurnOk(s.turns[i], i);
      ReasonedRow(s, t, i);
    }
  }

  lemma {:induction false} LoopReasons(s: Session, i: nat, claimedToo: bool)
    requires i <= |s.turns| && Reasoned(s) && Numbered(s.turns)
    ensures Reasoned(CancelWaiting(s, i, claimedToo))
  {
    CancelLoopRows(s, i, claimedToo);
    var t := CancelWaiting(s, i, claimedToo);
    forall j | 0 <= j < |t.turns| ensures RowExact(t.turns[j]) {
      assert TurnOk(s.turns[j], j);
    }
  }

  lemma {:induction false} CloseReasons(s: Session)
    requires Inv(s) && Reasoned(s)
    ensures Reasoned(Close(s).0)
  {
    if s.state.Open? {
      if s.activeRun != "" {
        var closing := Append(s.(state := Closing), SessionClosing, "", "");
        LoopReasons(closing, 0, false);
        if s.activeTurn != "" && Find(closing.turns, s.activeTurn).Some? {
          AskedReasons(s, closing, Find(closing.turns, s.activeTurn).value);
        }
      } else {
        IdleReasons(s);
      }
    }
  }

  lemma {:induction false} AskedReasons(s: Session, closing: Session, i: nat)
    requires Inv(s) && Reasoned(s) && s.state.Open? && s.activeRun != "" && s.activeTurn != ""
    requires closing == Append(s.(state := Closing), SessionClosing, "", "")
    requires i < |closing.turns| && Find(closing.turns, s.activeTurn) == Some(i)
    ensures Reasoned(Close(s).0)
  {
    var k: nat :| Shape(s, k);
    FindIs(s.turns, k);
    var asked := Append(closing.(turns := closing.turns[i := closing.turns[i].(cancelRequested := true)]),
                        CancelRequested, s.activeTurn, s.activeRun);
    forall j | 0 <= j < |asked.turns| ensures TurnOk(asked.turns[j], j) {
      assert TurnOk(s.turns[j], j);
    }
    LoopReasons(asked, 0, false);
    assert Close(s).0 == CancelWaiting(asked, 0, false);
  }

  lemma {:induction false} IdleReasons(s: Session)
    requires Inv(s) && Reasoned(s) && s.state.Open? && s.activeRun == ""
    ensures Reasoned(Close(s).0)
  {
    var closing := Append(s.(state := Closed), SessionClosing, "", "");
    var freed := if s.activeTurn != "" then CancelActive(closing) else closing;
    FreedReasons(s, closing);
    LoopReasons(freed, 0, true);
    assert Close(s).0 == Append(CancelWaiting(freed, 0, true), SessionClosed, "", "");
  }

  lemma {:induction false} FreedReasons(s: Session, closing: Session)
    requires Numbered(s.turns) && Reasoned(s) && closing.turns == s.turns
    ensures Reasoned(CancelActive(closing)) && Numbered(CancelActive(closing).turns)
  {
    var found := Find(closing.turns, closing.activeTurn);
    if found.Some? {
      FreedRow(s, closing, found.value);
      ReasonedRow(s, CancelActive(closing), found.value);
      NumberedRow(s.turns, found.value, CancelActive(closing).turns[found.value]);
    }
  }

  lemma FreedRow(s: Session, closing: Session, i: nat)
    requires Numbered(s.turns) && Reasoned(s) && closing.turns == s.turns
    requires Find(closing.turns, closing.activeTurn) == Some(i)
    ensures var freed := CancelActive(closing);
            && i < |freed.turns| == |s.turns| && freed.turns == s.turns[i := freed.turns[i]]
            && RowExact(freed.turns[i]) && TurnOk(freed.turns[i], i) && freed.turns[i].id == s.turns[i].id
  {
    assert TurnOk(s.turns[i], i) && RowExact(s.turns[i]);
    var t := s.turns[i];
    var after := if t.state.Claimed? || t.state.Queued? then CancelledTurn(t) else t;
    assert CancelActive(closing).turns == s.turns[i := after];
  }

  lemma NumberedRow(turns: seq<Turn>, i: nat, t: Turn)
    requires Numbered(turns) && i < |turns| && TurnOk(t, i) && t.id == turns[i].id
    ensures Numbered(turns[i := t])
  {
    var after := turns[i := t];
    forall j | 0 <= j < |after| ensures TurnOk(after[j], j) {
      assert TurnOk(turns[j], j);
    }
  }

  /** In every history a row's reason is the one its end calls for, and only claimed rows have an owner. */
  lemma {:induction false} ReasonsExact(ops: seq<Operation>)
    ensures Reasoned(Run(ops))
  {
    if ops != [] {
      ReasonsExact(ops[..|ops| - 1]);
      RunKeeps(ops[..|ops| - 1]);
      ReasonsStep(Run(ops[..|ops| - 1]), ops[|ops| - 1]);
    }
  }

  // ----- closing -----------------------------------------------------------------------------

  ghost predicate SomeRunning(s: Session) {
    exists i :: 0 <= i < |s.turns| && s.turns[i].state.Running?
  }

  /** Every turn but the running one is over, and the running one has been asked to stop. */
  ghost predicate Stopping(s: Session) {
    forall i :: 0 <= i < |s.turns| ==>
      Final(s.turns[i].state) || (s.turns[i].state.Running? && s.turns[i].cancelRequested)
  }

  lemma {:induction false} NotOpenStopping(s: Session)
    requires Ordered(s) && !s.state.Open?
    ensures Stopping(s)
  {
    var k: nat :| Shape(s, k);
  }

  /**
   * Closing an open session takes effect at once: it is closing exactly while a run is under way and
   * closed otherwise, and nothing is left to claim. Asking again changes nothing.
   */
  lemma {:induction false} CloseIff(ops: seq<Operation>)
    ensures var s, t := Run(ops), Close(Run(ops)).0;
            && (s.state.Open? ==> t.state == (if SomeRunning(s) then Closing else Closed) && Stopping(t))
            && (!s.state.Open? ==> t == s)
  {
    var s := Run(ops);
    RunKeeps(ops);
    CloseKeeps(s);
    CloseRows(s);
    if s.state.Open? {
      var k: nat :| Shape(s, k);
      ActiveRuns(s, k);
      NotOpenStopping(Close(s).0);
    }
  }

  lemma {:induction false} ActiveRuns(s: Session, k: nat)
    requires Numbered(s.turns) && Shape(s, k) && s.state.Open?
    ensures s.activeRun != "" <==> SomeRunning(s)
    ensures s.activeTurn != "" ==> Find(s.turns, s.activeTurn).Some?
  {
    if k < |s.turns| {
      FindIs(s.turns, k);
      assert TurnOk(s.turns[k], k);
    }
  }

  // ----- context generations -----------------------------------------------------------------

  function GenerateReply(s: Session, op: Operation): Reply
    requires op.DoGenerate?
  {
    CreateGeneration(s, op.id, op.expected, op.through, op.key, op.kind, op.version, op.payload).1
  }

  ghost predicate KeyUnused(s: Session, key: string) {
    forall i :: 0 <= i < |s.generations| ==> s.generations[i].key != key
  }

  ghost predicate IdUnused(s: Session, id: string) {
    forall i :: 0 <= i < |s.generations| ==> s.generations[i].id != id
  }

  /** The turns up to the boundary exist and are over, and the boundary is not behind the latest generation's. */
  ghost predicate Reducible(s: Session, through: nat) {
    && through <= |s.turns| && (forall i :: 0 <= i < through ==> Final(s.turns[i].state))
    && forall i :: 0 <= i < |s.generations| ==> s.generations[i].through <= through
  }

  ghost predicate SameRequest(g: Generation, op: Operation)
    requires op.DoGenerate?
  {
    && g.key == op.key && g.through == op.through
    && g.kind == op.kind && g.version == op.version && g.payload == op.payload
  }

  /** Every generation has a key of its own. */
  ghost predicate KeysDistinct(s: Session) {
    forall i, j :: 0 <= i < j < |s.generations| ==> s.generations[i].key != s.generations[j].key
  }

  lemma {:induction false} KeysAlwaysDistinct(ops: seq<Operation>)
    ensures KeysDistinct(Run(ops))
  {
    if ops != [] {
      var front, op := ops[..|ops| - 1], ops[|ops| - 1];
      KeysAlwaysDistinct(front);
      if op.DoGenerate? {
        GenerateIff(front, op);
      } else {
        OnlyGenerates(Run(front), op);
      }
    }
  }

  lemma {:induction false} OnlyGenerates(s: Session, op: Operation)
    requires !op.DoGenerate?
    ensures Apply(s, op).generations == s.generations
  {
    match op
    case DoSubmit(id, key, input, elsewhere) =>
    case DoClaim(owner, fence, leaseCurrent) => ClaimGenerations(s, owner, fence, leaseCurrent);
    case DoBind(turnId, runId, owner, fence, leaseCurrent, bound) =>
      BindGenerations(s, turnId, runId, owner, fence, leaseCurrent, bound);
    case DoStage(runId, staged) =>
    case DoCommit(runId, turnId, outcome, staged, ownerCurrent) =>
      CommitGenerations(s, runId, turnId, outcome, staged, ownerCurrent);
    case DoClose => CloseGenerations(s);
  }

  lemma ClaimGenerations(s: Session, owner: string, fence: nat, leaseCurrent: bool)
    ensures Claim(s, owner, fence, leaseCurrent).0.generations == s.generations
  {
  }

  lemma BindGenerations(s: Session, turnId: string, runId: string, owner: string, fence: nat, leaseCurrent: bool,
                        bound: bool)
    ensures Bind(s, turnId, runId, owner, fence, leaseCurrent, bound).0.generations == s.generations
  {
  }

  lemma CommitGenerations(s: Session, runId: string, turnId: string, o: Outcome, staged: Continuations,
                          ownerCurrent: bool)
    ensures CommitRun(s, runId, turnId, o, staged, ownerCurrent).0.generations == s.generations
  {
  }

  lemma {:induction false} LoopGenerations(s: Session, i: nat, claimedToo: bool)
    requires i <= |s.turns|
    ensures CancelWaiting(s, i, claimedToo).generations == s.generations
    decreases |s.turns| - i
  {
    if i < |s.turns| {
      LoopGenerations(s, i + 1, claimedToo);
      LoopGenerations(CancelledAt(s, i), i + 1, claimedToo);
    }
  }

  lemma {:induction false} CloseGenerations(s: Session)
    ensures Close(s).0.generations == s.generations
  {
    if s.state.Open? {
      if s.activeRun != "" {
        var closing := Append(s.(state := Closing), SessionClosing, "", "");
        LoopGenerations(closing, 0, false);
        if s.activeTurn != "" && Find(closing.turns, s.activeTurn).Some? {
          var i := Find(closing.turns, s.activeTurn).value;
          LoopGenerations(Append(closing.(turns := closing.turns[i := closing.turns[i].(cancelRequested := true)]),
                                 CancelRequested, s.activeTurn, s.activeRun), 0, false);
        }
      } else {
        var closing := Append(s.(state := Closed), SessionClosing, "", "");
        LoopGenerations(if s.activeTurn != "" then CancelActive(closing) else closing, 0, true);
      }
    }
  }

  /** A key in use is answered with its generation exactly when the request is the same, else with a conflict. */
  lemma {:induction false} GenerateAgain(ops: seq<Operation>, op: Operation, i: nat)
    requires op.DoGenerate? && op.key != "" && op.kind != "" && op.version != ""
    requires i < |Run(ops).generations| && Run(ops).generations[i].key == op.key
    ensures Apply(Run(ops), op) == Run(ops)
    ensures GenerateReply(Run(ops), op) ==
            if SameRequest(Run(ops).generations[i], op) then Made(Run(ops).generations[i]) else Refused(Conflict)
  {
    var s := Run(ops);
    KeysAlwaysDistinct(ops);
    KeyFound(s.generations, op.key);
    var f := FindKey(s.generations, op.key).value;
    assert f == i;
  }

  /** What the caller of a new generation asks for. */
  function Asked(s: Session, op: Operation): Generation
    requires op.DoGenerate?
  {
    Generation(op.id, |s.generations| + 1,
               if s.generations == [] then "" else s.generations[|s.generations| - 1].id,
               op.through, op.key, op.kind, op.version, op.payload)
  }

  /**
   * A generation is added exactly when its caller has seen the latest one, its key and id are new and
   * it covers finished turns only, no fewer than any before; it then carries what the caller gave.
   */
  lemma {:induction false} GenerateIff(ops: seq<Operation>, op: Operation)
    requires op.DoGenerate?
    ensures Apply(Run(ops), op) != Run(ops) <==>
            && op.key != "" && op.kind != "" && op.version != "" && op.id != ""
            && KeyUnused(Run(ops), op.key) && IdUnused(Run(ops), op.id)
            && op.expected == |Run(ops).generations| && Reducible(Run(ops), op.through)
    ensures Apply(Run(ops), op) != Run(ops) ==>
              Apply(Run(ops), op) == Run(ops).(generations := Run(ops).generations + [Asked(Run(ops), op)])
  {
    RunKeeps(ops);
    Generating(Run(ops), op);
  }

  lemma {:induction false} Generating(s: Session, op: Operation)
    requires op.DoGenerate? && Numbered(s.turns) && Chained(s)
    ensures Apply(s, op) != s <==>
            && op.key != "" && op.kind != "" && op.version != "" && op.id != ""
            && KeyUnused(s, op.key) && IdUnused(s, op.id)
            && op.expected == |s.generations| && Reducible(s, op.through)
    ensures Apply(s, op) != s ==> Apply(s, op) == s.(generations := s.generations + [Asked(s, op)])
  {
    KeyFound(s.generations, op.key);
    Boundary(s, op.through);
    LatestNumber(s);
    var t := Apply(s, op);
    var grown := s.(generations := s.generations + [Asked(s, op)]);
    assert |grown.generations| != |s.generations|;
    assert t == s || t == grown;
  }

  lemma LatestNumber(s: Session)
    requires Chained(s)
    ensures s.generations != [] ==> s.generations[|s.generations| - 1].number == |s.generations|
  {
    if s.generations != [] {
      assert GenerationOk(s.turns, s.generations[|s.generations| - 1], |s.generations| - 1);
    }
  }

  lemma {:induction false} Boundary(s: Session, through: nat)
    requires Numbered(s.turns) && Chained(s)
    ensures Reducible(s, through) <==>
            && through <= |s.turns| && FinishedThrough(s.turns, through)
            && (s.generations != [] ==> s.generations[|s.generations| - 1].through <= through)
  {
    forall i | 0 <= i < |s.turns| ensures s.turns[i].sequence == i + 1 {
      assert TurnOk(s.turns[i], i);
    }
    var n := |s.generations| - 1;
    forall i | 0 <= i <= n ensures s.generations[i].through <= s.generations[n].through {
      Growing(s, i, n);
    }
  }

  lemma {:induction false} KeyFound(generations: seq<Generation>, key: string)
    ensures FindKey(generations, key).Some? <==> exists i :: 0 <= i < |generations| && generations[i].key == key
  {
    if generations != [] {
      var n := |generations| - 1;
      KeyFound(generations[..n], key);
      if i :| 0 <= i < |generations| && generations[i].key == key {
        if i < n {
          assert generations[..n][i].key == key;
        }
      }
    }
  }

  lemma {:induction false} Growing(s: Session, i: nat, j: nat)
    requires Chained(s) && i <= j < |s.generations|
    ensures s.generations[i].through <= s.generations[j].through
    decreases j
  {
    if i < j {
      Growing(s, i, j - 1);
      assert Succeeds(s.generations[j - 1], s.generations[j]);
    }
  }
}
