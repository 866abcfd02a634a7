/**
 * What the records of distributed branch work say, over every schedule: which fields go with which
 * state, when a claim, a result, a closing write or a cancellation gets past its check, and that
 * attempts are counted and named afresh.
 */
module WorkRecords {
  import opened Options
  import opened Leases
  import opened Branches
  import opened NodeWork
  import opened NodeWorkSafety
  import M = TokenMachine

  // ---- The invariant ----

  /** The fields that go with a record's state; a claim is named by a positive attempt id. */
  ghost predicate RowOk(w: Work) {
    && (w.attemptId > 0 ==> w.attempt > 0)
    && (w.result.Some? <==> w.state.Completed?)
    && match w.state
       case Queued => w.attemptId == 0 && w.owner == "" && w.token == 0
       case Running => w.attemptId > 0 && w.token > 0
       case Completed => w.attemptId > 0 && w.token > 0 && w.error == ""
       case Failed => w.attemptId > 0
       case Cancelled => true
  }

  /** What a process carries was once such a record. */
  ghost predicate PhaseRow(phase: Phase, last: nat) {
    match phase
    case Claiming(seen) => RowOk(seen) && !Terminal(seen.state) && seen.attemptId <= last
    case Executing(work) => RowOk(work) && work.attemptId <= last
    case Completing(_, _, seen) => RowOk(seen) && seen.attemptId <= last
    case Closing(seen) => RowOk(seen) && seen.attemptId <= last
    case _ => true
  }

  ghost predicate ProcessRow(s: System, id: string, token: nat)
    requires (id, token) in s.processes
  {
    && token > 0 && PhaseRow(PhaseOf(s, id, token), s.lastAttempt)
    && (PhaseOf(s, id, token).Closing? && token == TokenOf(s.table, Resource(id)) && id in s.works ==>
          Terminal(s.works[id].state) || PhaseOf(s, id, token).seen == s.works[id])
  }

  ghost predicate WorkRow(s: System, w: Work) {
    RowOk(w) && w.attemptId <= s.lastAttempt
  }

  /** A cancellation read its record before any claim. */
  ghost predicate CancellationRow(k: Cancellation) {
    && RowOk(k.record) && k.record.state.Cancelled?
    && k.record.attemptId == 0 && k.record.owner == "" && k.record.token == 0
  }

  ghost predicate Rows(s: System) {
    && (forall id {:trigger WorkRow(s, s.works[id])} :: id in s.works ==> WorkRow(s, s.works[id]))
    && (forall id {:trigger WorkRow(s, s.open[id].record)} :: id in s.open ==> WorkRow(s, s.open[id].record))
    && (forall c {:trigger CancellationRow(s.cancellations[c])} ::
          c in s.cancellations ==> CancellationRow(s.cancellations[c]))
    && (forall id, token {:trigger ProcessRow(s, id, token)} :: (id, token) in s.processes ==> ProcessRow(s, id, token))
  }

  // ---- Steps ----

  /** Nothing appears, no token changes and no attempt is named. */
  ghost predicate Less(s: System, u: System) {
    && u.works == s.works && s.lastAttempt <= u.lastAttempt
    && (forall r :: TokenOf(u.table, r) == TokenOf(s.table, r))
    && (forall k :: k in u.processes ==> k in s.processes && u.processes[k] == s.processes[k])
    && (forall id :: id in u.open ==> id in s.open && u.open[id] == s.open[id])
    && (forall c :: c in u.cancellations ==>
          c in s.cancellations && u.cancellations[c].record == s.cancellations[c].record)
  }

  lemma LessKeeps(s: System, u: System)
    requires Rows(s) && Less(s, u)
    ensures Rows(u)
  {
    forall id {:trigger WorkRow(u, u.works[id])} | id in u.works ensures WorkRow(u, u.works[id]) {
      assert WorkRow(s, s.works[id]);
    }
    forall id {:trigger WorkRow(u, u.open[id].record)} | id in u.open ensures WorkRow(u, u.open[id].record) {
      assert WorkRow(s, s.open[id].record);
    }
    forall c {:trigger CancellationRow(u.cancellations[c])} | c in u.cancellations
      ensures CancellationRow(u.cancellations[c])
    {
      assert CancellationRow(s.cancellations[c]);
    }
    forall id, token {:trigger ProcessRow(u, id, token)} | (id, token) in u.processes ensures ProcessRow(u, id, token) {
      assert ProcessRow(s, id, token);
    }
  }

  lemma PhaseRows(s: System, id: string, token: nat, phase: Phase)
    requires Rows(s) && (id, token) in s.processes && PhaseRow(phase, s.lastAttempt)
    requires phase.Closing? && token == TokenOf(s.table, Resource(id)) && id in s.works ==>
               Terminal(s.works[id].state) || phase.seen == s.works[id]
    ensures Rows(SetPhase(s, id, token, phase))
  {
    var u := SetPhase(s, id, token, phase);
    assert ProcessRow(s, id, token);
    forall i {:trigger WorkRow(u, u.works[i])} | i in u.works ensures WorkRow(u, u.works[i]) {
      assert WorkRow(s, s.works[i]);
    }
    forall i {:trigger WorkRow(u, u.open[i].record)} | i in u.open ensures WorkRow(u, u.open[i].record) {
      assert WorkRow(s, s.open[i].record);
    }
    forall i, t {:trigger ProcessRow(u, i, t)} | (i, t) in u.processes ensures ProcessRow(u, i, t) {
      assert ProcessRow(s, i, t);
    }
  }

  lemma OpenRows(s: System, id: string, token: nat, record: Work)
    requires Rows(s) && WorkRow(s, record)
    ensures Rows(s.(open := s.open[id := Open(token, record)]))
  {
    var u := s.(open := s.open[id := Open(token, record)]);
    forall i {:trigger WorkRow(u, u.works[i])} | i in u.works ensures WorkRow(u, u.works[i]) {
      assert WorkRow(s, s.works[i]);
    }
    forall i {:trigger WorkRow(u, u.open[i].record)} | i in u.open ensures WorkRow(u, u.open[i].record) {
      assert i != id ==> WorkRow(s, s.open[i].record);
    }
    forall i, t {:trigger ProcessRow(u, i, t)} | (i, t) in u.processes ensures ProcessRow(u, i, t) {
      assert ProcessRow(s, i, t);
    }
  }

  /** A record is replaced; a process closing it under the current lease finds it over, or is gone. */
  lemma WriteRows(s: System, id: string, w: Work, u: System)
    requires Rows(s) && WorkRow(s, w) && u.works == s.works[id := w] && u.table == s.table
    requires u.lastAttempt == s.lastAttempt
    requires forall k :: k in u.processes && k.0 != id ==> k in s.processes && u.processes[k] == s.processes[k]
    requires forall t :: (id, t) in u.processes ==>
               && t > 0 && PhaseRow(PhaseOf(u, id, t), s.lastAttempt)
               && (PhaseOf(u, id, t).Closing? && t == TokenOf(s.table, Resource(id)) ==> Terminal(w.state))
    requires forall i :: i in u.open ==> i in s.open && u.open[i] == s.open[i]
    requires forall c :: c in u.cancellations ==> c in s.cancellations && u.cancellations[c] == s.cancellations[c]
    ensures Rows(u)
  {
    forall i {:trigger WorkRow(u, u.works[i])} | i in u.works ensures WorkRow(u, u.works[i]) {
      assert i != id ==> WorkRow(s, s.works[i]);
    }
    forall i {:trigger WorkRow(u, u.open[i].record)} | i in u.open ensures WorkRow(u, u.open[i].record) {
      assert WorkRow(s, s.open[i].record);
    }
    forall c {:trigger CancellationRow(u.cancellations[c])} | c in u.cancellations
      ensures CancellationRow(u.cancellations[c])
    {
      assert CancellationRow(s.cancellations[c]);
    }
    forall i, t {:trigger ProcessRow(u, i, t)} | (i, t) in u.processes ensures ProcessRow(u, i, t) {
      assert (i, t).0 == i;
      assert i != id ==> ProcessRow(s, i, t);
    }
  }

  lemma AcquireRows(f: Programs, s: System, id: string, instance: string, ttl: nat)
    requires Inv(f, s) && Rows(s)
    ensures Rows(ApplyAcquire(s, id, instance, ttl))
  {
    var u := ApplyAcquire(s, id, instance, ttl);
    forall i {:trigger WorkRow(u, u.works[i])} | i in u.works ensures WorkRow(u, u.works[i]) {
      assert WorkRow(s, s.works[i]);
    }
    forall i {:trigger WorkRow(u, u.open[i].record)} | i in u.open ensures WorkRow(u, u.open[i].record) {
      assert WorkRow(s, s.open[i].record);
    }
    forall i, t {:trigger ProcessRow(u, i, t)} | (i, t) in u.processes ensures ProcessRow(u, i, t) {
      if (i, t) in s.processes {
        assert ProcessRow(s, i, t) && ProcessOk(f, s, i, t);
        if Resource(i) == Resource(id) {
          ResourceInjective(i, id);
        }
      }
    }
  }

  lemma CommitRows(f: Programs, s: System, id: string)
    requires Inv(f, s) && Rows(s) && id in s.open
    ensures Rows(ApplyCommit(s, id))
  {
    var o := s.open[id];
    var u := ApplyCommit(s, id);
    assert OpenOk(f, s, id) && WorkRow(s, o.record);
    forall t | (id, t) in u.processes
      ensures t > 0 && PhaseRow(PhaseOf(u, id, t), s.lastAttempt)
      ensures PhaseOf(u, id, t).Closing? && t == TokenOf(s.table, Resource(id)) ==> Terminal(o.record.state)
    {
      assert ProcessRow(s, id, t);
    }
    WriteRows(s, id, o.record, u);
  }

  lemma CancelWriteRows(s: System, c: nat)
    requires Rows(s)
    ensures Rows(ApplyCancelWrite(s, c))
  {
    if c in s.cancellations && s.cancellations[c].checked {
      var k := s.cancellations[c];
      assert CancellationRow(k);
      forall t | (k.id, t) in s.processes ensures t > 0 && PhaseRow(PhaseOf(s, k.id, t), s.lastAttempt) {
        assert ProcessRow(s, k.id, t);
      }
      WriteRows(s, k.id, k.record, ApplyCancelWrite(s, c));
    }
  }

  lemma CancelReadRows(f: Programs, s: System, c: nat, id: string)
    requires Rows(s)
    ensures Rows(Apply(f, s, CancelRead(c, id)))
  {
    var u := Apply(f, s, CancelRead(c, id));
    if id in s.works {
      assert WorkRow(s, s.works[id]);
    }
    forall i {:trigger WorkRow(u, u.works[i])} | i in u.works ensures WorkRow(u, u.works[i]) {
      assert WorkRow(s, s.works[i]);
    }
    forall i {:trigger WorkRow(u, u.open[i].record)} | i in u.open ensures WorkRow(u, u.open[i].record) {
      assert WorkRow(s, s.open[i].record);
    }
    forall d {:trigger CancellationRow(u.cancellations[d])} | d in u.cancellations
      ensures CancellationRow(u.cancellations[d])
    {
      assert d in s.cancellations ==> CancellationRow(s.cancellations[d]);
    }
    forall i, t {:trigger ProcessRow(u, i, t)} | (i, t) in u.processes ensures ProcessRow(u, i, t) {
      assert ProcessRow(s, i, t);
    }
  }

  lemma CreateRows(f: Programs, s: System, e: Event)
    requires Inv(f, s) && Rows(s) && e.CreateGroup?
    ensures Rows(Apply(f, s, e))
  {
    var u := Apply(f, s, e);
    if CanCreate(s, e.group, e.ids, e.starts) {
      AddGroupContents(s.works, e.group, e.ids, e.join, e.starts);
      forall i {:trigger WorkRow(u, u.works[i])} | i in u.works ensures WorkRow(u, u.works[i]) {
        assert i in s.works ==> WorkRow(s, s.works[i]);
      }
      forall i {:trigger WorkRow(u, u.open[i].record)} | i in u.open ensures WorkRow(u, u.open[i].record) {
        assert WorkRow(s, s.open[i].record);
      }
      forall i, t {:trigger ProcessRow(u, i, t)} | (i, t) in u.processes ensures ProcessRow(u, i, t) {
        assert ProcessRow(s, i, t) && ProcessOk(f, s, i, t);
      }
    }
  }

  // ---- What gets past a check ----

  /** The process holds the lease of its work. */
  ghost predicate HoldsLease(s: System, id: string, token: nat)
    requires (id, token) in s.processes
  {
    Resource(id) in Held(s.table, s.processes[(id, token)].owner) && TokenOf(s.table, Resource(id)) == token
  }

  /** Both invariants. */
  ghost predicate Sound(f: Programs, s: System) {
    Inv(f, s) && Rows(s)
  }

  /** A claim goes on to be written exactly when its process holds the lease and the record is not over. */
  lemma ClaimCheckIff(f: Programs, s: System, id: string, token: nat)
    requires Sound(f, s) && Free(s, id, token) && PhaseOf(s, id, token).Claiming?
    ensures id in s.works
    ensures var u := ApplyCheckClaim(s, id, token);
            if HoldsLease(s, id, token) && !Terminal(s.works[id].state)
            then && id in u.open && u.open == s.open[id := u.open[id]] && u.open[id].token == token
                 && NextClaim(s.works[id], u.open[id].record, s.processes[(id, token)].owner, token, s.lastAttempt + 1)
            else u.open == s.open && (id, token) !in u.processes
    ensures ApplyCheckClaim(s, id, token).lastAttempt == s.lastAttempt + 1
  {
    assert ProcessOk(f, s, id, token) && ProcessRow(s, id, token);
    assert WorkRow(s, s.works[id]);
  }

  /** The record of a new claim on the work: running, counted, and named afresh. */
  ghost predicate NextClaim(w: Work, claim: Work, owner: string, token: nat, attemptId: nat) {
    && SameBranch(claim, w) && claim.state.Running? && claim.attempt == w.attempt + 1
    && claim.attemptId == attemptId && claim.owner == owner && claim.token == token && claim.result == w.result
  }

  /**
   * A result goes on to be written exactly when its process holds the lease and the record is not over;
   * the process is done exactly when this very result is there already, and otherwise unwinds.
   */
  lemma ResultCheckIff(f: Programs, s: System, id: string, token: nat)
    requires Sound(f, s) && Free(s, id, token) && PhaseOf(s, id, token).Completing?
    ensures id in s.works
    ensures var u := ApplyCheckResult(s, id, token);
            var phase := PhaseOf(s, id, token);
            var owner := s.processes[(id, token)].owner;
            var w := s.works[id];
            if HoldsLease(s, id, token) && !Terminal(w.state)
            then && id in u.open && u == s.(open := s.open[id := u.open[id]]) && u.open[id].token == token
                 && Finishes(w, u.open[id].record, owner, token, phase.output)
            else if HoldsLease(s, id, token) && Finishes(phase.seen, w, owner, token, phase.output)
            then u.open == s.open && (id, token) !in u.processes
            else u.open == s.open && (id, token) in u.processes && PhaseOf(u, id, token).Unwinding?
  {
    assert ProcessOk(f, s, id, token) && ProcessRow(s, id, token);
    assert WorkRow(s, s.works[id]);
  }

  /** The completed record of the work under the claim. */
  ghost predicate Finishes(w: Work, done: Work, owner: string, token: nat, output: Output) {
    && SameBranch(done, w) && done.state.Completed? && done.result == Some(output)
    && done.owner == owner && done.token == token && done.error == ""
    && done.attempt == w.attempt && done.attemptId == w.attemptId
  }

  /**
   * A requeue or a cancellation by the lease holder goes on to be written exactly when the record is not
   * over, a failure exactly when it is running; in any other case the process is gone.
   */
  lemma CloseCheckIff(f: Programs, s: System, id: string, token: nat, decision: Decision)
    requires Sound(f, s) && Free(s, id, token) && PhaseOf(s, id, token).Closing?
    ensures id in s.works
    ensures var u := ApplyCheckClose(s, id, token, decision);
            var w := s.works[id];
            if HoldsLease(s, id, token) && (if decision.Fail? then w.state.Running? else !Terminal(w.state))
            then && id in u.open && u == s.(open := s.open[id := u.open[id]]) && u.open[id].token == token
                 && Closes(w, u.open[id].record, s.processes[(id, token)].owner, token, decision)
            else u.open == s.open && (id, token) !in u.processes
  {
    assert ProcessOk(f, s, id, token) && ProcessRow(s, id, token);
    assert WorkRow(s, s.works[id]);
  }

  /**
   * A requeued record has no claim; a failed or cancelled one says why, and a stamped one names the process
   * that wrote it. Attempts stay counted.
   */
  ghost predicate Closes(w: Work, closed: Work, owner: string, token: nat, decision: Decision) {
    && SameBranch(closed, w) && closed.attempt == w.attempt && closed.result == w.result
    && match decision
       case Requeue => closed.state.Queued? && closed.attemptId == 0 && closed.owner == "" && closed.token == 0
       case Fail(error, stamped) =>
         && closed.state.Failed? && closed.error == error && closed.attemptId == w.attemptId
         && (closed.owner, closed.token) == if stamped then (owner, token) else (w.owner, w.token)
       case Cancel(error, stamped) =>
         && closed.state.Cancelled? && closed.error == error && closed.attemptId == w.attemptId
         && (closed.owner, closed.token) == if stamped then (owner, token) else (w.owner, w.token)
  }

  /** A lease holder goes on to claim exactly a record that is not over. */
  lemma ReadForClaimIff(f: Programs, s: System, id: string, token: nat)
    requires Sound(f, s) && !Idle(s, id, token) && PhaseOf(s, id, token).Leased?
    ensures id in s.works
    ensures var u := Apply(f, s, ReadForClaim(id, token));
            if Terminal(s.works[id].state) then (id, token) !in u.processes
            else (id, token) in u.processes && PhaseOf(u, id, token) == Claiming(s.works[id])
  {
    assert ProcessOk(f, s, id, token);
  }

  /** A cancellation takes up exactly queued work, and gets past its check exactly while the record is not over. */
  lemma CancelIff(f: Programs, s: System, c: nat, id: string)
    requires Sound(f, s)
    ensures c !in s.cancellations ==>
              (c in Apply(f, s, CancelRead(c, id)).cancellations <==> id in s.works && s.works[id].state.Queued?)
    ensures c in s.cancellations && !s.cancellations[c].checked ==>
              var k := s.cancellations[c];
              && k.id in s.works
              && (c in ApplyCancelCheck(s, c).cancellations <==> !Terminal(s.works[k.id].state))
              && (c in ApplyCancelCheck(s, c).cancellations ==> ApplyCancelCheck(s, c).cancellations[c].checked)
  {
    if c in s.cancellations {
      assert CancellationRow(s.cancellations[c]) && CancellationOk(s.works, s.cancellations[c]);
    }
  }

  // ---- Every schedule ----

  lemma ClaimRows(f: Programs, s: System, id: string, token: nat)
    requires Sound(f, s) && Free(s, id, token) && PhaseOf(s, id, token).Claiming?
    ensures Rows(ApplyCheckClaim(s, id, token))
  {
    var t := s.(lastAttempt := s.lastAttempt + 1);
    LessKeeps(s, t);
    LessKeeps(s, Drop(t, id, token));
    assert ProcessRow(s, id, token);
    var record := Claimed(PhaseOf(s, id, token).seen, s.processes[(id, token)].owner, token, t.lastAttempt);
    ClaimedRow(PhaseOf(s, id, token).seen, s.processes[(id, token)].owner, token, t.lastAttempt);
    OpenRows(t, id, token, record);
  }

  lemma ClaimedRow(seen: Work, owner: string, token: nat, attemptId: nat)
    requires RowOk(seen) && !Terminal(seen.state) && token > 0 && attemptId > 0
    ensures RowOk(Claimed(seen, owner, token, attemptId))
  {
  }

  lemma ResultRows(f: Programs, s: System, id: string, token: nat)
    requires Sound(f, s) && Free(s, id, token) && PhaseOf(s, id, token).Completing?
    ensures Rows(ApplyCheckResult(s, id, token))
  {
    assert ProcessOk(f, s, id, token) && ProcessRow(s, id, token) && WorkRow(s, s.works[id]);
    var phase := PhaseOf(s, id, token);
    PhaseRows(s, id, token, Unwinding);
    LessKeeps(s, Drop(s, id, token));
    var record := WithResult(phase.seen, s.processes[(id, token)].owner, token, phase.output);
    if Current(s.table, Resource(id), s.processes[(id, token)].owner, token) && Judge(s.works[id], record).Write? {
      OpenRows(s, id, token, record);
    }
  }

  lemma CloseRows(f: Programs, s: System, id: string, token: nat, decision: Decision)
    requires Sound(f, s) && Free(s, id, token) && PhaseOf(s, id, token).Closing?
    ensures Rows(ApplyCheckClose(s, id, token, decision))
  {
    assert ProcessOk(f, s, id, token) && ProcessRow(s, id, token) && WorkRow(s, s.works[id]);
    LessKeeps(s, Drop(s, id, token));
    var record := Closed(PhaseOf(s, id, token).seen, s.processes[(id, token)].owner, token, decision);
    if Current(s.table, Resource(id), s.processes[(id, token)].owner, token) && Judge(s.works[id], record).Write? {
      OpenRows(s, id, token, record);
    }
  }

  lemma CheckRows(f: Programs, s: System, e: Event)
    requires Sound(f, s) && (e.CheckClaim? || e.CheckResult? || e.CheckClose?)
    ensures Rows(Apply(f, s, e))
  {
    if Free(s, e.id, e.token) {
      var phase := PhaseOf(s, e.id, e.token);
      if e.CheckClaim? && phase.Claiming? {
        ClaimRows(f, s, e.id, e.token);
      } else if e.CheckResult? && phase.Completing? {
        ResultRows(f, s, e.id, e.token);
      } else if e.CheckClose? && phase.Closing? {
        CloseRows(f, s, e.id, e.token, e.decision);
      }
    }
  }

  lemma LocalRows(f: Programs, s: System, e: Event)
    requires Sound(f, s)
    requires e.ReadForClaim? || e.Produce? || e.ReadBack? || e.Unwind? || e.ReadForClose?
    ensures Rows(Apply(f, s, e))
  {
    if !Idle(s, e.id, e.token) {
      assert ProcessOk(f, s, e.id, e.token) && ProcessRow(s, e.id, e.token);
      assert WorkRow(s, s.works[e.id]);
      var phase := PhaseOf(s, e.id, e.token);
      if e.ReadForClaim? && phase.Leased? {
        LessKeeps(s, Drop(s, e.id, e.token));
        if !Terminal(s.works[e.id].state) {
          PhaseRows(s, e.id, e.token, Claiming(s.works[e.id]));
        }
      } else if e.Produce? && phase.Executing? {
        ProduceRows(f, s, e.id, e.token, e.allowance, e.staged);
      } else if e.ReadBack? && phase.Finished? {
        PhaseRows(s, e.id, e.token, Completing(phase.attemptId, phase.output, s.works[e.id]));
      } else if e.Unwind? {
        PhaseRows(s, e.id, e.token, Unwinding);
      } else if e.ReadForClose? && (phase.Leased? || phase.Unwinding?) {
        PhaseRows(s, e.id, e.token, Closing(s.works[e.id]));
      }
    }
  }

  lemma ProduceRows(f: Programs, s: System, id: string, token: nat, allowance: nat, staged: bool)
    requires Rows(s) && (id, token) in s.processes && PhaseOf(s, id, token).Executing?
    ensures Rows(ApplyProduce(f, s, id, token, allowance, staged))
  {
    var work := PhaseOf(s, id, token).work;
    var program := f(work.group);
    match RunToJoin(program.pipeline, program.behaviour, Fresh(work.start), allowance)
    case AtJoin(_, message) =>
      PhaseRows(s, id, token, Finished(work.attemptId, Output(message, Provenance(id, work.attemptId, token), staged)));
    case Stopped => PhaseRows(s, id, token, Unwinding);
  }

  lemma LeaseRows(f: Programs, s: System, e: Event)
    requires Rows(s) && (e.Tick? || e.SetInstance? || e.RenewWork? || e.ReleaseWork?)
    ensures Rows(Apply(f, s, e))
  {
    LessKeeps(s, Apply(f, s, e));
  }

  lemma CancelCheckRows(s: System, c: nat)
    requires Rows(s)
    ensures Rows(ApplyCancelCheck(s, c))
  {
    LessKeeps(s, ApplyCancelCheck(s, c));
  }

  lemma CrashRows(s: System, id: string, token: nat)
    requires Rows(s)
    ensures Rows(ApplyCrash(s, id, token))
  {
    LessKeeps(s, ApplyCrash(s, id, token));
  }

  lemma StepRows(f: Programs, s: System, e: Event)
    requires Sound(f, s)
    ensures Rows(Apply(f, s, e))
  {
    match e
    case Tick(elapsed) => LeaseRows(f, s, e);
    case SetInstance(instance, state) => LeaseRows(f, s, e);
    case RenewWork(id, token, ttl) => LeaseRows(f, s, e);
    case ReleaseWork(id, token) => LeaseRows(f, s, e);
    case CreateGroup(group, ids, join, starts) => CreateRows(f, s, e);
    case CancelRead(c, id) => CancelReadRows(f, s, c, id);
    case CancelCheck(c) => CancelCheckRows(s, c);
    case CancelWrite(c) => CancelWriteRows(s, c);
    case AcquireWork(id, instance, ttl) => if id !in s.open { AcquireRows(f, s, id, instance, ttl); }
    case Crash(id, token) => CrashRows(s, id, token);
    case Abort(id) => if id in s.open { CrashRows(s, id, s.open[id].token); }
    case Commit(id) => if id in s.open { CommitRows(f, s, id); }
    case CheckClaim(id, token) => CheckRows(f, s, e);
    case CheckResult(id, token) => CheckRows(f, s, e);
    case CheckClose(id, token, decision) => CheckRows(f, s, e);
    case _ => LocalRows(f, s, e);
  }

  /** In every schedule the records, pending writes and cancellations carry the fields their state calls for. */
  lemma {:induction false} RowsExact(f: Programs, events: seq<Event>)
    ensures Sound(f, Run(f, Start(), events))
  {
    if events != [] {
      var front := events[..|events| - 1];
      RowsExact(f, front);
      Reachable(f, events);
      StepRows(f, Run(f, Start(), front), events[|events| - 1]);
    } else {
      Reachable(f, events);
    }
  }

  // ---- Attempts ----

  /** The claim about to be written is named by no record and no other pending write. */
  lemma {:induction false} FreshAttempt(f: Programs, events: seq<Event>, id: string, token: nat, other: string)
    requires var s := Run(f, Start(), events); Free(s, id, token) && PhaseOf(s, id, token).Claiming?
    requires id in ApplyCheckClaim(Run(f, Start(), events), id, token).open
    ensures var s := Run(f, Start(), events);
            var a := ApplyCheckClaim(s, id, token).open[id].record.attemptId;
            && a > 0 && (other in s.works ==> s.works[other].attemptId != a)
            && (other in s.open ==> s.open[other].record.attemptId != a)
  {
    var s := Run(f, Start(), events);
    RowsExact(f, events);
    ClaimCheckIff(f, s, id, token);
    if other in s.works {
      assert WorkRow(s, s.works[other]);
    }
    if other in s.open {
      assert WorkRow(s, s.open[other].record);
    }
  }
}
