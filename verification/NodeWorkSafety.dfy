/** What every interleaving of the distributed branch work keeps. */
module NodeWorkSafety {
  import opened Options
  import opened Leases
  import opened Branches
  import opened NodeWork
  import M = TokenMachine

  /** The record is running under this claim. */
  ghost predicate Owned(w: Work, attemptId: nat, token: nat) {
    w.state.Running? && w.attemptId == attemptId && w.token == token
  }

  ghost predicate SameBranch(a: Work, b: Work) {
    a.group == b.group && a.index == b.index && a.start == b.start && a.join == b.join
  }

  /** The payload is what the branch of this work carries to its first join. */
  ghost predicate Brought(f: Programs, w: Work, payload: M.Value) {
    exists join :: Delivered(f(w.group).pipeline, f(w.group).behaviour, w.start, join, payload)
  }

  /** An output of this work's branch, stamped by the claim that executed it. */
  ghost predicate Genuine(f: Programs, w: Work, o: Output, id: string, attemptId: nat, token: nat) {
    o.producer == Provenance(id, attemptId, token) && Brought(f, w, o.payload)
  }

  /** What a phase knows whether or not its lease is still the current one. */
  ghost predicate PhaseOk(f: Programs, phase: Phase, id: string, token: nat, w: Work) {
    match phase
    case Claiming(seen) => SameBranch(seen, w)
    case Executing(work) => SameBranch(work, w)
    case Finished(a, output) => Genuine(f, w, output, id, a, token)
    case Completing(a, output, seen) => Genuine(f, w, output, id, a, token) && SameBranch(seen, w)
    case Closing(seen) => SameBranch(seen, w)
    case _ => true
  }

  /** What a phase knows while no later claim has taken the work over. */
  ghost predicate FreshPhase(phase: Phase, token: nat, w: Work) {
    Terminal(w.state) ||
    match phase
    case Claiming(seen) => seen == w
    case Executing(work) => Owned(w, work.attemptId, token)
    case Finished(a, _) => Owned(w, a, token)
    case Completing(a, _, seen) => seen == w && Owned(w, a, token)
    case _ => true
  }

  ghost predicate ProcessOk(f: Programs, s: System, id: string, token: nat)
    requires (id, token) in s.processes
  {
    && id in s.works && Resource(id) in s.table.rows
    && token <= TokenOf(s.table, Resource(id))
    && PhaseOk(f, PhaseOf(s, id, token), id, token, s.works[id])
    && (token == TokenOf(s.table, Resource(id)) ==> FreshPhase(PhaseOf(s, id, token), token, s.works[id]))
  }

  /** A record that says completed carries a genuine result of the claim it names. */
  ghost predicate ResultOk(f: Programs, id: string, w: Work) {
    w.state.Completed? ==> w.result.Some? && Genuine(f, w, w.result.value, id, w.attemptId, w.token)
  }

  /** An open write comes from the current claim and would leave a good record. */
  ghost predicate OpenOk(f: Programs, s: System, id: string)
    requires id in s.open
  {
    var o := s.open[id];
    && id in s.works && (id, o.token) in s.processes && o.token == TokenOf(s.table, Resource(id))
    && SameBranch(o.record, s.works[id]) && ResultOk(f, id, o.record)
    && (PhaseOf(s, id, o.token).Claiming? ==> o.record.state.Running? && o.record.token == o.token)
  }

  ghost predicate CancellationOk(works: map<string, Work>, k: Cancellation) {
    k.id in works && SameBranch(k.record, works[k.id]) && k.record.state.Cancelled?
  }

  /** Within a group, indices are used once each and without gaps. */
  ghost predicate Dense(works: map<string, Work>) {
    && (forall a, b :: a in works && b in works && works[a].group == works[b].group && works[a].index == works[b].index
          ==> a == b)
    && (forall a, i :: a in works && 0 <= i < works[a].index ==> HasBranch(works, works[a].group, i))
  }

  ghost predicate HasBranch(works: map<string, Work>, group: string, i: nat) {
    exists b :: b in works && works[b].group == group && works[b].index == i
  }

  ghost predicate Inv(f: Programs, s: System) {
    && (forall id, token {:trigger ProcessOk(f, s, id, token)} ::
          (id, token) in s.processes ==> ProcessOk(f, s, id, token))
    && (forall id {:trigger ResultOk(f, id, s.works[id])} :: id in s.works ==> ResultOk(f, id, s.works[id]))
    && (forall id {:trigger OpenOk(f, s, id)} :: id in s.open ==> OpenOk(f, s, id))
    && (forall c {:trigger CancellationOk(s.works, s.cancellations[c])} ::
          c in s.cancellations ==> CancellationOk(s.works, s.cancellations[c]))
    && Dense(s.works)
  }

  lemma ResourceInjective(a: string, b: string)
    requires Resource(a) == Resource(b)
    ensures a == b
  {
    assert Resource(a)[5..] == a && Resource(b)[5..] == b;
  }

  // ---- Steps that leave the records alone ----

  /** Processes, open writes and cancellations only get fewer, and no token changes. */
  ghost predicate Fewer(s: System, u: System) {
    && u.works == s.works
    && u.table.rows.Keys == s.table.rows.Keys
    && (forall r :: TokenOf(u.table, r) == TokenOf(s.table, r))
    && (forall k :: k in u.processes ==> k in s.processes && u.processes[k] == s.processes[k])
    && (forall id :: id in u.open ==>
          id in s.open && u.open[id] == s.open[id] && (id, u.open[id].token) in u.processes)
    && (forall c :: c in u.cancellations ==> c in s.cancellations && u.cancellations[c].id == s.cancellations[c].id
                                             && u.cancellations[c].record == s.cancellations[c].record)
  }

  lemma FewerKeeps(f: Programs, s: System, u: System)
    requires Inv(f, s) && Fewer(s, u)
    ensures Inv(f, u)
  {
    forall id, token {:trigger ProcessOk(f, u, id, token)} | (id, token) in u.processes
      ensures ProcessOk(f, u, id, token)
    {
      assert ProcessOk(f, s, id, token);
    }
    forall id {:trigger ResultOk(f, id, u.works[id])} | id in u.works ensures ResultOk(f, id, u.works[id]) {
      assert ResultOk(f, id, s.works[id]);
    }
    forall id {:trigger OpenOk(f, u, id)} | id in u.open ensures OpenOk(f, u, id) {
      assert OpenOk(f, s, id);
    }
    forall c {:trigger CancellationOk(u.works, u.cancellations[c])} | c in u.cancellations
      ensures CancellationOk(u.works, u.cancellations[c])
    {
      assert CancellationOk(s.works, s.cancellations[c]);
    }
  }

  /** A step of one process outside its transactions that changes no record. */
  lemma PhaseStep(f: Programs, s: System, id: string, token: nat, phase: Phase)
    requires Inv(f, s) && !Idle(s, id, token) && id in s.works
    requires PhaseOk(f, phase, id, token, s.works[id])
    requires token == TokenOf(s.table, Resource(id)) ==> FreshPhase(phase, token, s.works[id])
    ensures Inv(f, SetPhase(s, id, token, phase))
  {
    var u := SetPhase(s, id, token, phase);
    assert ProcessOk(f, s, id, token);
    forall i, t {:trigger ProcessOk(f, u, i, t)} | (i, t) in u.processes ensures ProcessOk(f, u, i, t) {
      assert ProcessOk(f, s, i, t);
    }
    forall i {:trigger ResultOk(f, i, u.works[i])} | i in u.works ensures ResultOk(f, i, u.works[i]) {
      assert ResultOk(f, i, s.works[i]);
    }
    forall i {:trigger OpenOk(f, u, i)} | i in u.open ensures OpenOk(f, u, i) {
      assert OpenOk(f, s, i);
    }
    forall c {:trigger CancellationOk(u.works, u.cancellations[c])} | c in u.cancellations
      ensures CancellationOk(u.works, u.cancellations[c])
    {
      assert CancellationOk(s.works, s.cancellations[c]);
    }
  }

  /** A grant starts a process under a new token, which retires every earlier claim on the work. */
  lemma AcquireStep(f: Programs, s: System, id: string, instance: string, ttl: nat)
    requires Inv(f, s) && id !in s.open
    ensures Inv(f, ApplyAcquire(s, id, instance, ttl))
  {
    var u := ApplyAcquire(s, id, instance, ttl);
    forall i, t {:trigger ProcessOk(f, u, i, t)} | (i, t) in u.processes ensures ProcessOk(f, u, i, t) {
      if (i, t) in s.processes {
        assert ProcessOk(f, s, i, t);
        if Resource(i) == Resource(id) {
          ResourceInjective(i, id);
        }
      }
    }
    forall i {:trigger ResultOk(f, i, u.works[i])} | i in u.works ensures ResultOk(f, i, u.works[i]) {
      assert ResultOk(f, i, s.works[i]);
    }
    forall i {:trigger OpenOk(f, u, i)} | i in u.open ensures OpenOk(f, u, i) {
      assert OpenOk(f, s, i);
      if Resource(i) == Resource(id) {
        ResourceInjective(i, id);
      }
    }
    forall c {:trigger CancellationOk(u.works, u.cancellations[c])} | c in u.cancellations
      ensures CancellationOk(u.works, u.cancellations[c])
    {
      assert CancellationOk(s.works, s.cancellations[c]);
    }
  }

  /** Opening a transaction for a record that would be good. */
  lemma OpenStep(f: Programs, s: System, id: string, token: nat, record: Work)
    requires Inv(f, s) && (id, token) in s.processes && id in s.works && id !in s.open
    requires token == TokenOf(s.table, Resource(id)) && SameBranch(record, s.works[id]) && ResultOk(f, id, record)
    requires PhaseOf(s, id, token).Claiming? ==> record.state.Running? && record.token == token
    ensures Inv(f, s.(open := s.open[id := Open(token, record)]))
  {
    var u := s.(open := s.open[id := Open(token, record)]);
    forall i, t {:trigger ProcessOk(f, u, i, t)} | (i, t) in u.processes ensures ProcessOk(f, u, i, t) {
      assert ProcessOk(f, s, i, t);
    }
    forall i {:trigger ResultOk(f, i, u.works[i])} | i in u.works ensures ResultOk(f, i, u.works[i]) {
      assert ResultOk(f, i, s.works[i]);
    }
    forall i {:trigger OpenOk(f, u, i)} | i in u.open ensures OpenOk(f, u, i) {
      if i != id {
        assert OpenOk(f, s, i);
      }
    }
    forall c {:trigger CancellationOk(u.works, u.cancellations[c])} | c in u.cancellations
      ensures CancellationOk(u.works, u.cancellations[c])
    {
      assert CancellationOk(s.works, s.cancellations[c]);
    }
  }

  lemma AttemptStep(f: Programs, s: System, n: nat)
    requires Inv(f, s)
    ensures Inv(f, s.(lastAttempt := n))
  {
    FewerStep(f, s, s.(lastAttempt := n));
  }

  lemma FewerStep(f: Programs, s: System, u: System)
    requires Inv(f, s) && u == s.(lastAttempt := u.lastAttempt)
    ensures Inv(f, u)
  {
    forall id | id in s.open ensures (id, s.open[id].token) in s.processes {
      assert OpenOk(f, s, id);
    }
    FewerKeeps(f, s, u);
  }

  /** A process outside any transaction ends. */
  lemma DropStep(f: Programs, s: System, id: string, token: nat)
    requires Inv(f, s)
    ensures Inv(f, ApplyCrash(s, id, token))
  {
    var u := ApplyCrash(s, id, token);
    forall i | i in u.open ensures i in s.open && u.open[i] == s.open[i] && (i, u.open[i].token) in u.processes {
      assert OpenOk(f, s, i);
    }
    FewerKeeps(f, s, u);
  }

  lemma DropIsCrash(s: System, id: string, token: nat)
    requires id !in s.open || s.open[id].token != token
    ensures Drop(s, id, token) == ApplyCrash(s, id, token)
  {
  }

  // ---- Checks ----

  lemma CheckClaimStep(f: Programs, s: System, id: string, token: nat)
    requires Inv(f, s) && Free(s, id, token) && PhaseOf(s, id, token).Claiming?
    ensures Inv(f, ApplyCheckClaim(s, id, token))
  {
    assert ProcessOk(f, s, id, token);
    var n := s.lastAttempt + 1;
    var t := s.(lastAttempt := n);
    AttemptStep(f, s, n);
    DropStep(f, t, id, token);
    var record := Claimed(PhaseOf(s, id, token).seen, s.processes[(id, token)].owner, token, n);
    if Current(s.table, Resource(id), s.processes[(id, token)].owner, token) && Judge(s.works[id], record).Write? {
      OpenStep(f, t, id, token, record);
    }
  }

  lemma CheckResultStep(f: Programs, s: System, id: string, token: nat)
    requires Inv(f, s) && Free(s, id, token) && PhaseOf(s, id, token).Completing?
    ensures Inv(f, ApplyCheckResult(s, id, token))
  {
    assert ProcessOk(f, s, id, token);
    var phase := PhaseOf(s, id, token);
    DropStep(f, s, id, token);
    PhaseStep(f, s, id, token, Unwinding);
    var record := WithResult(phase.seen, s.processes[(id, token)].owner, token, phase.output);
    if Current(s.table, Resource(id), s.processes[(id, token)].owner, token) && Judge(s.works[id], record).Write? {
      assert Genuine(f, record, phase.output, id, record.attemptId, token);
      OpenStep(f, s, id, token, record);
    }
  }

  lemma CheckCloseStep(f: Programs, s: System, id: string, token: nat, decision: Decision)
    requires Inv(f, s) && Free(s, id, token) && PhaseOf(s, id, token).Closing?
    ensures Inv(f, ApplyCheckClose(s, id, token, decision))
  {
    assert ProcessOk(f, s, id, token);
    DropStep(f, s, id, token);
    var record := Closed(PhaseOf(s, id, token).seen, s.processes[(id, token)].owner, token, decision);
    if Current(s.table, Resource(id), s.processes[(id, token)].owner, token) && Judge(s.works[id], record).Write? {
      OpenStep(f, s, id, token, record);
    }
  }

  // ---- Writes ----

  /** A write of the same branch keeps the branches dense. */
  lemma DenseKept(works: map<string, Work>, id: string, w: Work)
    requires Dense(works) && id in works && SameBranch(w, works[id])
    ensures Dense(works[id := w])
  {
    var u := works[id := w];
    forall a, i | a in u && 0 <= i < u[a].index ensures HasBranch(u, u[a].group, i) {
      assert HasBranch(works, works[a].group, i);
      var b :| b in works && works[b].group == works[a].group && works[b].index == i;
      assert b in u && u[b].group == u[a].group && u[b].index == i;
    }
  }

  /** What a process knows of its branch does not depend on the record's other fields. */
  lemma BranchKnowledge(f: Programs, phase: Phase, id: string, token: nat, v: Work, w: Work)
    requires PhaseOk(f, phase, id, token, v) && SameBranch(v, w)
    ensures PhaseOk(f, phase, id, token, w)
  {
  }

  /** Replacing a record. Only the current claim's process may need a new phase. */
  lemma WriteStep(f: Programs, s: System, id: string, w: Work, u: System)
    requires Inv(f, s) && id in s.works && SameBranch(w, s.works[id]) && ResultOk(f, id, w)
    requires u.works == s.works[id := w] && u.table == s.table
    requires forall k :: k in u.processes && k.0 != id ==> k in s.processes && u.processes[k] == s.processes[k]
    requires forall t :: (id, t) in u.processes ==>
               && (id, t) in s.processes && PhaseOk(f, PhaseOf(u, id, t), id, t, w)
               && (t == TokenOf(s.table, Resource(id)) ==> FreshPhase(PhaseOf(u, id, t), t, w))
    requires forall i :: i in u.open ==>
               && i in s.open && u.open[i] == s.open[i]
               && (i, s.open[i].token) in s.processes && (i, s.open[i].token) in u.processes
               && u.processes[(i, s.open[i].token)] == s.processes[(i, s.open[i].token)]
    requires forall c :: c in u.cancellations ==> c in s.cancellations && u.cancellations[c] == s.cancellations[c]
    ensures Inv(f, u)
  {
    forall i, t {:trigger ProcessOk(f, u, i, t)} | (i, t) in u.processes ensures ProcessOk(f, u, i, t) {
      assert (i, t).0 == i;
      assert ProcessOk(f, s, i, t);
    }
    forall i {:trigger ResultOk(f, i, u.works[i])} | i in u.works ensures ResultOk(f, i, u.works[i]) {
      assert i != id ==> ResultOk(f, i, s.works[i]);
    }
    forall i {:trigger OpenOk(f, u, i)} | i in u.open ensures OpenOk(f, u, i) {
      assert OpenOk(f, s, i);
    }
    forall c {:trigger CancellationOk(u.works, u.cancellations[c])} | c in u.cancellations
      ensures CancellationOk(u.works, u.cancellations[c])
    {
      assert CancellationOk(s.works, s.cancellations[c]);
    }
    DenseKept(s.works, id, w);
  }

  lemma CommitStep(f: Programs, s: System, id: string)
    requires Inv(f, s) && id in s.open
    ensures Inv(f, ApplyCommit(s, id))
  {
    assert OpenOk(f, s, id);
    var o := s.open[id];
    var u := ApplyCommit(s, id);
    forall t | (id, t) in u.processes
      ensures (id, t) in s.processes && PhaseOk(f, PhaseOf(u, id, t), id, t, o.record)
      ensures t == TokenOf(s.table, Resource(id)) ==> FreshPhase(PhaseOf(u, id, t), t, o.record)
    {
      assert ProcessOk(f, s, id, t);
      if t != o.token {
        BranchKnowledge(f, PhaseOf(s, id, t), id, t, s.works[id], o.record);
      }
    }
    forall i | i in u.open
      ensures i in s.open && u.open[i] == s.open[i] && (i, s.open[i].token) in s.processes
      ensures (i, s.open[i].token) in u.processes
      ensures u.processes[(i, s.open[i].token)] == s.processes[(i, s.open[i].token)]
    {
      assert OpenOk(f, s, i);
    }
    WriteStep(f, s, id, o.record, u);
  }

  lemma CancelWriteStep(f: Programs, s: System, c: nat)
    requires Inv(f, s)
    ensures Inv(f, ApplyCancelWrite(s, c))
  {
    if c in s.cancellations && s.cancellations[c].checked {
      var k := s.cancellations[c];
      var u := ApplyCancelWrite(s, c);
      assert CancellationOk(s.works, k);
      forall t | (k.id, t) in u.processes
        ensures PhaseOk(f, PhaseOf(u, k.id, t), k.id, t, k.record)
        ensures t == TokenOf(s.table, Resource(k.id)) ==> FreshPhase(PhaseOf(u, k.id, t), t, k.record)
      {
        assert ProcessOk(f, s, k.id, t);
        BranchKnowledge(f, PhaseOf(s, k.id, t), k.id, t, s.works[k.id], k.record);
      }
      forall i | i in u.open ensures (i, s.open[i].token) in s.processes {
        assert OpenOk(f, s, i);
      }
      WriteStep(f, s, k.id, k.record, u);
    }
  }

  // ---- Cancellations ----

  lemma CancelReadStep(f: Programs, s: System, c: nat, id: string)
    requires Inv(f, s)
    ensures Inv(f, Apply(f, s, CancelRead(c, id)))
  {
    var u := Apply(f, s, CancelRead(c, id));
    forall i, t {:trigger ProcessOk(f, u, i, t)} | (i, t) in u.processes ensures ProcessOk(f, u, i, t) {
      assert ProcessOk(f, s, i, t);
    }
    forall i {:trigger ResultOk(f, i, u.works[i])} | i in u.works ensures ResultOk(f, i, u.works[i]) {
      assert ResultOk(f, i, s.works[i]);
    }
    forall i {:trigger OpenOk(f, u, i)} | i in u.open ensures OpenOk(f, u, i) {
      assert OpenOk(f, s, i);
    }
    forall d {:trigger CancellationOk(u.works, u.cancellations[d])} | d in u.cancellations
      ensures CancellationOk(u.works, u.cancellations[d])
    {
      if d in s.cancellations {
        assert CancellationOk(s.works, s.cancellations[d]);
      }
    }
  }

  lemma CancelCheckStep(f: Programs, s: System, c: nat)
    requires Inv(f, s)
    ensures Inv(f, ApplyCancelCheck(s, c))
  {
    forall id | id in s.open ensures (id, s.open[id].token) in s.processes {
      assert OpenOk(f, s, id);
    }
    FewerKeeps(f, s, ApplyCancelCheck(s, c));
  }

  // ---- A fork's records ----

  lemma {:induction false} AddGroupContents(works: map<string, Work>, group: string, ids: seq<string>, join: string,
                                            starts: seq<Place>)
    requires |ids| == |starts|
    requires forall i, j :: 0 <= i < j < |ids| ==> ids[i] != ids[j]
    requires forall i :: 0 <= i < |ids| ==> ids[i] !in works
    ensures var u := AddGroup(works, group, ids, join, starts);
            && (forall id :: id in works ==> id in u && u[id] == works[id])
            && (forall i :: 0 <= i < |ids| ==> ids[i] in u && u[ids[i]] == NewWork(group, i, join, starts[i]))
            && (forall id :: id in u ==> id in works || id in ids)
  {
    if ids != [] {
      var n := |ids| - 1;
      AddGroupContents(works, group, ids[..n], join, starts[..n]);
      AddLast(AddGroup(works, group, ids[..n], join, starts[..n]), works, group, ids, join, starts, n);
    }
  }

  lemma AddLast(v: map<string, Work>, works: map<string, Work>, group: string, ids: seq<string>, join: string,
                starts: seq<Place>, n: nat)
    requires |ids| == |starts| == n + 1 && forall i :: 0 <= i < n ==> ids[i] != ids[n]
    requires ids[n] !in works && forall id :: id in works ==> id in v && v[id] == works[id]
    requires forall i :: 0 <= i < n ==> ids[..n][i] in v && v[ids[..n][i]] == NewWork(group, i, join, starts[..n][i])
    requires forall id :: id in v ==> id in works || id in ids[..n]
    ensures var u := v[ids[n] := NewWork(group, n, join, starts[n])];
            && (forall id :: id in works ==> id in u && u[id] == works[id])
            && (forall i :: 0 <= i < |ids| ==> ids[i] in u && u[ids[i]] == NewWork(group, i, join, starts[i]))
            && (forall id :: id in u ==> id in works || id in ids)
  {
    var u := v[ids[n] := NewWork(group, n, join, starts[n])];
    forall i | 0 <= i < |ids| ensures ids[i] in u && u[ids[i]] == NewWork(group, i, join, starts[i]) {
      if i < n {
        assert ids[..n][i] == ids[i] && starts[..n][i] == starts[i];
      }
    }
  }

  lemma CreateStep(f: Programs, s: System, group: string, ids: seq<string>, join: string, starts: seq<Place>)
    requires Inv(f, s) && CanCreate(s, group, ids, starts)
    ensures Inv(f, s.(works := AddGroup(s.works, group, ids, join, starts)))
  {
    var u := s.(works := AddGroup(s.works, group, ids, join, starts));
    AddGroupContents(s.works, group, ids, join, starts);
    forall i, t {:trigger ProcessOk(f, u, i, t)} | (i, t) in u.processes ensures ProcessOk(f, u, i, t) {
      assert ProcessOk(f, s, i, t);
    }
    forall i {:trigger ResultOk(f, i, u.works[i])} | i in u.works ensures ResultOk(f, i, u.works[i]) {
      assert i in s.works ==> ResultOk(f, i, s.works[i]);
    }
    forall i {:trigger OpenOk(f, u, i)} | i in u.open ensures OpenOk(f, u, i) {
      assert OpenOk(f, s, i);
    }
    forall c {:trigger CancellationOk(u.works, u.cancellations[c])} | c in u.cancellations
      ensures CancellationOk(u.works, u.cancellations[c])
    {
      assert CancellationOk(s.works, s.cancellations[c]);
    }
    CreateDense(s.works, group, ids, join, starts, u.works);
  }

  lemma CreateDense(works: map<string, Work>, group: string, ids: seq<string>, join: string, starts: seq<Place>,
                    u: map<string, Work>)
    requires Dense(works) && GroupUnused(works, group) && |ids| == |starts|
    requires forall id :: id in works ==> id in u && u[id] == works[id]
    requires forall i :: 0 <= i < |ids| ==> ids[i] in u && u[ids[i]] == NewWork(group, i, join, starts[i])
    requires forall id :: id in u ==> id in works || id in ids
    ensures Dense(u)
  {
    forall a, b | a in u && b in u && u[a].group == u[b].group && u[a].index == u[b].index ensures a == b {
      assert a in works <==> u[a].group != group by {
        if a !in works { var i :| 0 <= i < |ids| && ids[i] == a; }
      }
      assert b in works <==> u[b].group != group by {
        if b !in works { var i :| 0 <= i < |ids| && ids[i] == b; }
      }
      if a !in works {
        var i :| 0 <= i < |ids| && ids[i] == a;
        var j :| 0 <= j < |ids| && ids[j] == b;
      }
    }
    forall a, i | a in u && 0 <= i < u[a].index ensures HasBranch(u, u[a].group, i) {
      if a in works {
        assert HasBranch(works, works[a].group, i);
        var b :| b in works && works[b].group == works[a].group && works[b].index == i;
        assert b in u && u[b].group == u[a].group && u[b].index == i;
      } else {
        var k :| 0 <= k < |ids| && ids[k] == a;
        assert u[ids[i]] == NewWork(group, i, join, starts[i]);
      }
    }
  }

  // ---- All steps ----

  lemma StepKeeps(f: Programs, s: System, e: Event)
    requires Inv(f, s)
    ensures Inv(f, Apply(f, s, e))
  {
    match e
    case Tick(elapsed) => LeaseStep(f, s, e);
    case SetInstance(instance, state) => LeaseStep(f, s, e);
    case RenewWork(id, token, ttl) => LeaseStep(f, s, e);
    case ReleaseWork(id, token) => LeaseStep(f, s, e);
    case CreateGroup(group, ids, join, starts) =>
      if CanCreate(s, group, ids, starts) { CreateStep(f, s, group, ids, join, starts); }
    case CancelRead(c, id) => CancelReadStep(f, s, c, id);
    case CancelCheck(c) => CancelCheckStep(f, s, c);
    case CancelWrite(c) => CancelWriteStep(f, s, c);
    case AcquireWork(id, instance, ttl) => if id !in s.open { AcquireStep(f, s, id, instance, ttl); }
    case Crash(id, token) => DropStep(f, s, id, token);
    case Abort(id) => if id in s.open { DropStep(f, s, id, s.open[id].token); }
    case Commit(id) => if id in s.open { CommitStep(f, s, id); }
    case CheckClaim(id, token) => CheckStep(f, s, e);
    case CheckResult(id, token) => CheckStep(f, s, e);
    case CheckClose(id, token, decision) => CheckStep(f, s, e);
    case _ => LocalStep(f, s, e);
  }

  lemma LeaseStep(f: Programs, s: System, e: Event)
    requires Inv(f, s) && (e.Tick? || e.SetInstance? || e.RenewWork? || e.ReleaseWork?)
    ensures Inv(f, Apply(f, s, e))
  {
    TableStep(f, s, Apply(f, s, e));
  }

  lemma CheckStep(f: Programs, s: System, e: Event)
    requires Inv(f, s) && (e.CheckClaim? || e.CheckResult? || e.CheckClose?)
    ensures Inv(f, Apply(f, s, e))
  {
    if Free(s, e.id, e.token) {
      var phase := PhaseOf(s, e.id, e.token);
      if e.CheckClaim? && phase.Claiming? {
        CheckClaimStep(f, s, e.id, e.token);
      } else if e.CheckResult? && phase.Completing? {
        CheckResultStep(f, s, e.id, e.token);
      } else if e.CheckClose? && phase.Closing? {
        CheckCloseStep(f, s, e.id, e.token, e.decision);
      }
    }
  }

  /** A step that changes neither records nor tokens keeps everything. */
  lemma TableStep(f: Programs, s: System, u: System)
    requires Inv(f, s) && u == s.(table := u.table)
    requires forall resource :: TokenOf(u.table, resource) == TokenOf(s.table, resource)
    requires u.table.rows.Keys == s.table.rows.Keys
    ensures Inv(f, u)
  {
    forall id | id in s.open ensures (id, s.open[id].token) in s.processes {
      assert OpenOk(f, s, id);
    }
    FewerKeeps(f, s, u);
  }

  /** Reads and local progress of one process. */
  lemma LocalStep(f: Programs, s: System, e: Event)
    requires Inv(f, s)
    requires e.ReadForClaim? || e.Produce? || e.ReadBack? || e.Unwind? || e.ReadForClose?
    ensures Inv(f, Apply(f, s, e))
  {
    if !Idle(s, e.id, e.token) {
      assert ProcessOk(f, s, e.id, e.token);
      var phase := PhaseOf(s, e.id, e.token);
      if e.ReadForClaim? && phase.Leased? {
        DropStep(f, s, e.id, e.token);
        DropIsCrash(s, e.id, e.token);
        PhaseStep(f, s, e.id, e.token, Claiming(s.works[e.id]));
      } else if e.Produce? && phase.Executing? {
        ProduceStep(f, s, e.id, e.token, e.allowance, e.staged);
      } else if e.ReadBack? && phase.Finished? {
        PhaseStep(f, s, e.id, e.token, Completing(phase.attemptId, phase.output, s.works[e.id]));
      } else if e.Unwind? {
        PhaseStep(f, s, e.id, e.token, Unwinding);
      } else if e.ReadForClose? && (phase.Leased? || phase.Unwinding?) {
        PhaseStep(f, s, e.id, e.token, Closing(s.works[e.id]));
      }
    }
  }

  /** An execution that reaches a join brings what its branch delivers. */
  lemma ProduceStep(f: Programs, s: System, id: string, token: nat, allowance: nat, staged: bool)
    requires Inv(f, s) && !Idle(s, id, token) && PhaseOf(s, id, token).Executing?
    ensures Inv(f, ApplyProduce(f, s, id, token, allowance, staged))
  {
    assert ProcessOk(f, s, id, token);
    var work := PhaseOf(s, id, token).work;
    var program := f(work.group);
    var end := RunToJoin(program.pipeline, program.behaviour, Fresh(work.start), allowance);
    if end.AtJoin? {
      RunDelivers(program.pipeline, program.behaviour, work.start, Fresh(work.start), 0, allowance);
      var output := Output(end.message, Provenance(id, work.attemptId, token), staged);
      assert Brought(f, s.works[id], output.payload);
      PhaseStep(f, s, id, token, Finished(work.attemptId, output));
    } else {
      PhaseStep(f, s, id, token, Unwinding);
    }
  }

  lemma {:induction false} RunKeeps(f: Programs, s: System, events: seq<Event>)
    requires Inv(f, s)
    ensures Inv(f, NodeWork.Run(f, s, events))
  {
    if events != [] {
      RunKeeps(f, s, events[..|events| - 1]);
      StepKeeps(f, NodeWork.Run(f, s, events[..|events| - 1]), events[|events| - 1]);
    }
  }

  /** Every reachable state is consistent. */
  lemma {:induction false} Reachable(f: Programs, events: seq<Event>)
    ensures Inv(f, NodeWork.Run(f, Start(), events))
  {
    RunKeeps(f, Start(), events);
  }

  // ---- What the runtime relies on ----

  /** A record keeps its branch, its start and its join whatever happens. */
  lemma GroupFixed(f: Programs, s: System, e: Event, id: string)
    requires Inv(f, s) && id in s.works
    ensures id in Apply(f, s, e).works && SameBranch(Apply(f, s, e).works[id], s.works[id])
  {
    match e
    case CreateGroup(group, ids, join, starts) => CreateFixed(f, s, e, id);
    case Commit(i) => if i in s.open { CommitFixed(f, s, i, id); }
    case CancelWrite(c) =>
      if c in s.cancellations { assert CancellationOk(s.works, s.cancellations[c]); }
    case _ => OtherWorks(f, s, e);
  }

  lemma CreateFixed(f: Programs, s: System, e: Event, id: string)
    requires e.CreateGroup? && id in s.works
    ensures id in Apply(f, s, e).works && Apply(f, s, e).works[id] == s.works[id]
  {
    if CanCreate(s, e.group, e.ids, e.starts) {
      AddGroupContents(s.works, e.group, e.ids, e.join, e.starts);
    }
  }

  lemma CommitFixed(f: Programs, s: System, i: string, id: string)
    requires Inv(f, s) && i in s.open && id in s.works
    ensures id in ApplyCommit(s, i).works && SameBranch(ApplyCommit(s, i).works[id], s.works[id])
  {
    assert OpenOk(f, s, i);
  }

  /** Only forks, commits and cancellation writes touch the table. */
  lemma OtherWorks(f: Programs, s: System, e: Event)
    requires !e.CreateGroup? && !e.Commit? && !e.CancelWrite?
    ensures Apply(f, s, e).works == s.works
  {
  }

  /** Records only appear with a fork whose group was unused. */
  lemma NewIdsFresh(f: Programs, s: System, e: Event, id: string)
    requires Inv(f, s) && id !in s.works && id in Apply(f, s, e).works
    ensures GroupUnused(s.works, Apply(f, s, e).works[id].group)
  {
    match e
    case CreateGroup(group, ids, join, starts) =>
      AddGroupContents(s.works, group, ids, join, starts);
      var i :| 0 <= i < |ids| && ids[i] == id;
    case _ => KeysKept(f, s, e);
  }

  lemma KeysKept(f: Programs, s: System, e: Event)
    requires Inv(f, s) && !e.CreateGroup?
    ensures Apply(f, s, e).works.Keys == s.works.Keys
  {
    match e
    case Commit(i) => if i in s.open { assert OpenOk(f, s, i); }
    case CancelWrite(c) => if c in s.cancellations { assert CancellationOk(s.works, s.cancellations[c]); }
    case _ => OtherWorks(f, s, e);
  }

  /**
   * Every completed record names the attempt and the token of the claim that produced its result,
   * and the result is what the branch carries to its first join.
   */
  lemma CompletionProvenance(f: Programs, events: seq<Event>, id: string)
    requires id in NodeWork.Run(f, Start(), events).works
    requires NodeWork.Run(f, Start(), events).works[id].state.Completed?
    ensures var w := NodeWork.Run(f, Start(), events).works[id];
            && w.result.Some? && w.result.value.producer == Provenance(id, w.attemptId, w.token)
            && Brought(f, w, w.result.value.payload)
  {
    Reachable(f, events);
    assert ResultOk(f, id, NodeWork.Run(f, Start(), events).works[id]);
  }

  /** The records of a group are its branches: one per start, each with its own start and the fork's join. */
  ghost predicate BranchesOf(works: map<string, Work>, group: string, join: string, starts: seq<Place>) {
    && (forall id :: id in works && works[id].group == group ==>
          works[id].index < |starts| && works[id].start == starts[works[id].index] && works[id].join == join)
    && (forall i: nat :: i < |starts| ==> HasBranch(works, group, i))
  }

  lemma CreateBranches(s: System, group: string, ids: seq<string>, join: string, starts: seq<Place>)
    requires CanCreate(s, group, ids, starts)
    ensures BranchesOf(AddGroup(s.works, group, ids, join, starts), group, join, starts)
  {
    var u := AddGroup(s.works, group, ids, join, starts);
    AddGroupContents(s.works, group, ids, join, starts);
    forall id | id in u && u[id].group == group
      ensures u[id].index < |starts| && u[id].start == starts[u[id].index] && u[id].join == join
    {
      var i :| 0 <= i < |ids| && ids[i] == id;
    }
    forall i: nat | i < |starts| ensures HasBranch(u, group, i) {
      assert ids[i] in u && u[ids[i]].index == i;
    }
  }

  lemma BranchesStep(f: Programs, s: System, e: Event, group: string, join: string, starts: seq<Place>)
    requires Inv(f, s) && BranchesOf(s.works, group, join, starts) && starts != []
    ensures BranchesOf(Apply(f, s, e).works, group, join, starts)
  {
    var u := Apply(f, s, e);
    assert HasBranch(s.works, group, 0);
    forall id | id in u.works && u.works[id].group == group
      ensures u.works[id].index < |starts| && u.works[id].start == starts[u.works[id].index] && u.works[id].join == join
    {
      if id in s.works {
        GroupFixed(f, s, e, id);
      } else {
        NewIdsFresh(f, s, e, id);
      }
    }
    forall i: nat | i < |starts| ensures HasBranch(u.works, group, i) {
      assert HasBranch(s.works, group, i);
      var b :| b in s.works && s.works[b].group == group && s.works[b].index == i;
      GroupFixed(f, s, e, b);
    }
  }

  /** From the fork on, in every schedule, the group's records are exactly the fork's branches. */
  lemma {:induction false} BranchesForever(f: Programs, s: System, events: seq<Event>, group: string, join: string,
                                           starts: seq<Place>)
    requires Inv(f, s) && BranchesOf(s.works, group, join, starts) && starts != []
    ensures BranchesOf(NodeWork.Run(f, s, events).works, group, join, starts)
  {
    if events != [] {
      var front := events[..|events| - 1];
      BranchesForever(f, s, front, group, join, starts);
      RunKeeps(f, s, front);
      BranchesStep(f, NodeWork.Run(f, s, front), events[|events| - 1], group, join, starts);
    }
  }
}

/** Resuming a run from its finished distributed branches. */
module Reconciliation {
  import opened Options
  import opened Leases
  import opened Branches
  import opened NodeWork
  import opened NodeWorkSafety
  import M = TokenMachine

  datatype Row = Row(id: string, work: Work)

  datatype Resumed =
    | Joined(payloads: seq<M.Value>)
    | WorkMissing
    | BranchFailed(error: string)
    | ProvenanceMismatch

  /** The rows are the table's records, each once, in any order. */
  ghost predicate Lists(rows: seq<Row>, works: map<string, Work>) {
    && (forall i :: 0 <= i < |rows| ==> rows[i].id in works && works[rows[i].id] == rows[i].work)
    && (forall i, j :: 0 <= i < j < |rows| ==> rows[i].id != rows[j].id)
    && (forall id :: id in works ==> Listed(rows, id))
  }

  ghost predicate Listed(rows: seq<Row>, id: string) {
    exists i :: 0 <= i < |rows| && rows[i].id == id
  }

  /** The rows of one group, each once. */
  ghost predicate ListsGroup(rows: seq<Row>, works: map<string, Work>, group: string) {
    && (forall i :: 0 <= i < |rows| ==>
          rows[i].id in works && works[rows[i].id] == rows[i].work && rows[i].work.group == group)
    && (forall i, j :: 0 <= i < j < |rows| ==> rows[i].id != rows[j].id)
    && (forall id :: id in works && works[id].group == group ==> Listed(rows, id))
  }

  ghost predicate SortedByIndex(rows: seq<Row>) {
    forall i, j :: 0 <= i < j < |rows| ==> rows[i].work.index <= rows[j].work.index
  }

  method SelectGroup(rows: seq<Row>, group: string, ghost works: map<string, Work>) returns (picked: seq<Row>)
    requires Lists(rows, works)
    ensures ListsGroup(picked, works, group)
  {
    picked := [];
    for k := 0 to |rows|
      invariant Picked(rows, group, k, picked)
    {
      PickedNext(rows, works, group, k, picked);
      if rows[k].work.group == group {
        picked := picked + [rows[k]];
      }
    }
    PickedAll(rows, works, group, picked);
  }

  ghost predicate Among(rows: seq<Row>, k: nat, row: Row)
    requires k <= |rows|
  {
    exists j :: 0 <= j < k && rows[j] == row
  }

  /** The rows of the group among the first k, each once. */
  ghost predicate Picked(rows: seq<Row>, group: string, k: nat, picked: seq<Row>)
    requires k <= |rows|
  {
    && (forall i {:trigger picked[i]} ::
          0 <= i < |picked| ==> Among(rows, k, picked[i]) && picked[i].work.group == group)
    && (forall i, j :: 0 <= i < j < |picked| ==> picked[i].id != picked[j].id)
    && (forall i {:trigger Listed(picked, rows[i].id)} ::
          0 <= i < k && rows[i].work.group == group ==> Listed(picked, rows[i].id))
  }

  lemma PickedNext(rows: seq<Row>, works: map<string, Work>, group: string, k: nat, picked: seq<Row>)
    requires Lists(rows, works) && k < |rows| && Picked(rows, group, k, picked)
    ensures Picked(rows, group, k + 1, if rows[k].work.group == group then picked + [rows[k]] else picked)
  {
    forall i | 0 <= i < |picked| ensures Among(rows, k + 1, picked[i]) {
      var j :| 0 <= j < k && rows[j] == picked[i];
    }
    if rows[k].work.group == group {
      PickedMore(rows, works, group, k, picked, picked + [rows[k]]);
    }
  }

  lemma PickedMore(rows: seq<Row>, works: map<string, Work>, group: string, k: nat, picked: seq<Row>, more: seq<Row>)
    requires Lists(rows, works) && k < |rows| && Picked(rows, group, k, picked)
    requires rows[k].work.group == group && more == picked + [rows[k]]
    ensures Picked(rows, group, k + 1, more)
  {
    forall i | 0 <= i < |more| ensures Among(rows, k + 1, more[i]) {
      if i < |picked| {
        assert Among(rows, k, picked[i]);
        var j :| 0 <= j < k && rows[j] == picked[i];
      } else {
        assert rows[k] == more[i];
      }
    }
    forall i | 0 <= i < |picked| ensures more[i].id != rows[k].id {
      assert Among(rows, k, picked[i]);
      var j :| 0 <= j < k && rows[j] == picked[i];
    }
    forall i {:trigger Listed(more, rows[i].id)} | 0 <= i <= k && rows[i].work.group == group
      ensures Listed(more, rows[i].id)
    {
      if i < k {
        assert Listed(picked, rows[i].id);
        var j :| 0 <= j < |picked| && picked[j].id == rows[i].id;
        assert more[j].id == rows[i].id;
      } else {
        assert more[|picked|].id == rows[k].id;
      }
    }
  }

  lemma PickedAll(rows: seq<Row>, works: map<string, Work>, group: string, picked: seq<Row>)
    requires Lists(rows, works) && Picked(rows, group, |rows|, picked)
    ensures ListsGroup(picked, works, group)
  {
    forall id | id in works && works[id].group == group ensures Listed(picked, id) {
      assert Listed(rows, id);
      var i :| 0 <= i < |rows| && rows[i].id == id;
      assert rows[i].work.group == group;
      assert Listed(picked, rows[i].id);
    }
    forall i | 0 <= i < |picked| ensures picked[i].id in works && works[picked[i].id] == picked[i].work {
      assert Among(rows, |rows|, picked[i]);
      var j :| 0 <= j < |rows| && rows[j] == picked[i];
    }
  }

  method InsertRow(sorted: seq<Row>, row: Row) returns (longer: seq<Row>)
    requires SortedByIndex(sorted)
    ensures multiset(longer) == multiset(sorted) + multiset{row} && SortedByIndex(longer)
  {
    var at := 0;
    while at < |sorted| && sorted[at].work.index <= row.work.index
      invariant 0 <= at <= |sorted|
      invariant forall i :: 0 <= i < at ==> sorted[i].work.index <= row.work.index
    {
      at := at + 1;
    }
    longer := sorted[..at] + [row] + sorted[at..];
    InsertedSorted(sorted, row, at, longer);
    assert sorted == sorted[..at] + sorted[at..];
  }

  lemma InsertedSorted(sorted: seq<Row>, row: Row, at: nat, longer: seq<Row>)
    requires SortedByIndex(sorted) && at <= |sorted| && longer == sorted[..at] + [row] + sorted[at..]
    requires forall i :: 0 <= i < at ==> sorted[i].work.index <= row.work.index
    requires at < |sorted| ==> row.work.index < sorted[at].work.index
    ensures SortedByIndex(longer)
  {
    forall i, j | 0 <= i < j < |longer| ensures longer[i].work.index <= longer[j].work.index {
      assert longer[i] == if i < at then sorted[i] else if i == at then row else sorted[i - 1];
      assert longer[j] == if j < at then sorted[j] else if j == at then row else sorted[j - 1];
    }
  }

  /** Sorts the rows by branch index. */
  method SortByIndex(rows: seq<Row>) returns (sorted: seq<Row>)
    ensures multiset(sorted) == multiset(rows) && SortedByIndex(sorted)
  {
    sorted := [];
    for k := 0 to |rows|
      invariant multiset(sorted) == multiset(rows[..k]) && SortedByIndex(sorted)
    {
      assert rows[..k + 1] == rows[..k] + [rows[k]];
      sorted := InsertRow(sorted, rows[k]);
    }
    assert rows[..|rows|] == rows;
  }

  lemma SameMembers(a: seq<Row>, b: seq<Row>)
    requires multiset(a) == multiset(b)
    ensures |a| == |b| && forall r :: r in a <==> r in b
  {
    assert |multiset(a)| == |a| && |multiset(b)| == |b|;
    forall r ensures r in a <==> r in b {
      assert r in multiset(a) <==> r in a;
      assert r in multiset(b) <==> r in b;
    }
  }

  lemma DistinctRows(a: seq<Row>, b: seq<Row>)
    requires multiset(a) == multiset(b)
    requires forall i, j :: 0 <= i < j < |a| ==> a[i].id != a[j].id
    ensures forall i, j :: 0 <= i < j < |b| ==> b[i] != b[j]
  {
    forall i, j | 0 <= i < j < |b| ensures b[i] != b[j] {
      if b[i] == b[j] {
        TwiceCounted(b, i, j);
        OnceCounted(a, b[i]);
      }
    }
  }

  lemma TwiceCounted(b: seq<Row>, i: nat, j: nat)
    requires i < j < |b| && b[i] == b[j]
    ensures multiset(b)[b[i]] >= 2
  {
    assert b == b[..j] + [b[j]] + b[j + 1..];
    assert b[i] in b[..j];
  }

  lemma OnceCounted(a: seq<Row>, r: Row)
    requires forall i, j :: 0 <= i < j < |a| ==> a[i].id != a[j].id
    ensures multiset(a)[r] <= 1
  {
    if a != [] {
      var n := |a| - 1;
      assert a == a[..n] + [a[n]];
      OnceCounted(a[..n], r);
      assert a[n] !in a[..n];
    }
  }

  /** Sorting a listing of a group lists the group again. */
  lemma SortedListing(rows: seq<Row>, sorted: seq<Row>, works: map<string, Work>, group: string)
    requires ListsGroup(rows, works, group) && multiset(sorted) == multiset(rows)
    ensures ListsGroup(sorted, works, group)
  {
    SameMembers(rows, sorted);
    DistinctRows(rows, sorted);
    forall i | 0 <= i < |sorted|
      ensures sorted[i].id in works && works[sorted[i].id] == sorted[i].work && sorted[i].work.group == group
    {
      assert sorted[i] in rows;
    }
    forall id | id in works && works[id].group == group ensures Listed(sorted, id) {
      assert Listed(rows, id);
      var i :| 0 <= i < |rows| && rows[i].id == id;
      assert rows[i] in sorted;
    }
  }

  lemma OneBranch(works: map<string, Work>, a: string, b: string)
    requires Dense(works) && a in works && b in works
    requires works[a].group == works[b].group && works[a].index == works[b].index
    ensures a == b
  {
  }

  /** Sorted by index, the rows of a group sit exactly at their branch indices. */
  lemma {:induction false} RowsAtIndex(sorted: seq<Row>, works: map<string, Work>, group: string, k: nat)
    requires Dense(works) && ListsGroup(sorted, works, group) && SortedByIndex(sorted) && k < |sorted|
    ensures sorted[k].work.index == k
  {
    forall i | 0 <= i < k ensures sorted[i].work.index == i {
      RowsAtIndex(sorted, works, group, i);
    }
    var at := sorted[k].work.index;
    assert sorted[k].id in works;
    if at < k {
      OneBranch(works, sorted[at].id, sorted[k].id);
    } else if at > k {
      assert HasBranch(works, group, k);
      var b :| b in works && works[b].group == group && works[b].index == k;
      assert Listed(sorted, b);
      var j :| 0 <= j < |sorted| && sorted[j].id == b;
      assert sorted[j].work.index == k;
    }
  }

  /** The branches the waiting fork joins on all completed. */
  ghost predicate AllCompleted(works: map<string, Work>, group: string) {
    && (exists id :: id in works && works[id].group == group)
    && (forall id :: id in works && works[id].group == group ==> works[id].state.Completed?)
  }

  /** The payloads of a group's records, each at its record's index and nothing else. */
  ghost predicate Payloads(works: map<string, Work>, group: string, payloads: seq<M.Value>) {
    && (forall i: nat :: i < |payloads| <==> HasBranch(works, group, i))
    && (forall id :: id in works && works[id].group == group ==>
          && works[id].index < |payloads| && works[id].result.Some?
          && payloads[works[id].index] == works[id].result.value.payload)
  }

  /**
   * Rebuilds the joined payload from the stored branches. On any reachable table it joins exactly
   * when every branch completed, puts branch i's payload at position i, and never meets a result
   * whose provenance differs from its record.
   */
  method Reconcile(rows: seq<Row>, group: string, ghost f: Programs, ghost s: System) returns (r: Resumed)
    requires Inv(f, s) && Lists(rows, s.works)
    ensures !r.ProvenanceMismatch?
    ensures r.WorkMissing? <==> forall id :: id in s.works ==> s.works[id].group != group
    ensures r.Joined? <==> AllCompleted(s.works, group)
    ensures r.Joined? ==> Payloads(s.works, group, r.payloads)
  {
    var picked := SelectGroup(rows, group, s.works);
    if picked == [] {
      forall id | id in s.works ensures s.works[id].group != group {
        assert !Listed(picked, id);
      }
      return WorkMissing;
    }
    assert picked[0].id in s.works;
    var sorted := SortByIndex(picked);
    SortedListing(picked, sorted, s.works, group);
    SameMembers(picked, sorted);
    GoodRows(f, s, group, sorted);
    var failed := FirstUnfinished(sorted);
    if failed < |sorted| {
      assert sorted[failed].id in s.works;
      return BranchFailed(sorted[failed].work.error);
    }
    AllFinished(s.works, group, sorted);
    r := CollectPayloads(sorted);
    JoinedRows(sorted, s.works, group);
  }

  /** What the invariant says about the listed rows of a group. */
  ghost predicate GoodRow(row: Row) {
    row.work.state.Completed? ==>
      row.work.result.Some? &&
      row.work.result.value.producer == Provenance(row.id, row.work.attemptId, row.work.token)
  }

  lemma GoodRows(f: Programs, s: System, group: string, rows: seq<Row>)
    requires Inv(f, s) && ListsGroup(rows, s.works, group)
    ensures Dense(s.works) && forall k :: 0 <= k < |rows| ==> GoodRow(rows[k])
  {
    forall k | 0 <= k < |rows| ensures GoodRow(rows[k]) {
      assert rows[k].id in s.works && ResultOk(f, rows[k].id, s.works[rows[k].id]);
    }
  }

  lemma AllFinished(works: map<string, Work>, group: string, sorted: seq<Row>)
    requires ListsGroup(sorted, works, group) && sorted != []
    requires forall k :: 0 <= k < |sorted| ==> sorted[k].work.state.Completed?
    ensures AllCompleted(works, group)
  {
    assert sorted[0].id in works;
    forall id | id in works && works[id].group == group ensures works[id].state.Completed? {
      assert Listed(sorted, id);
      var i :| 0 <= i < |sorted| && sorted[i].id == id;
      assert sorted[i].work == works[id];
    }
  }

  /** The first row without a completed result, or the number of rows. */
  method FirstUnfinished(sorted: seq<Row>) returns (k: nat)
    requires forall i :: 0 <= i < |sorted| ==> GoodRow(sorted[i])
    ensures k <= |sorted| && (k < |sorted| ==> !sorted[k].work.state.Completed?)
    ensures forall i :: 0 <= i < k ==> sorted[i].work.state.Completed? && sorted[i].work.result.Some?
  {
    k := 0;
    while k < |sorted|
      invariant k <= |sorted|
      invariant forall i :: 0 <= i < k ==> sorted[i].work.state.Completed? && sorted[i].work.result.Some?
    {
      assert GoodRow(sorted[k]);
      if !sorted[k].work.state.Completed? || sorted[k].work.result.None? {
        return;
      }
      k := k + 1;
    }
  }

  /** Packs the results in row order; a staged result must name the row's own claim. */
  method CollectPayloads(sorted: seq<Row>) returns (r: Resumed)
    requires forall i :: 0 <= i < |sorted| ==>
               GoodRow(sorted[i]) && sorted[i].work.state.Completed? && sorted[i].work.result.Some?
    ensures r.Joined? && |r.payloads| == |sorted|
    ensures forall i :: 0 <= i < |sorted| ==> r.payloads[i] == sorted[i].work.result.value.payload
  {
    var payloads := [];
    for k := 0 to |sorted|
      invariant |payloads| == k
      invariant forall i :: 0 <= i < k ==> payloads[i] == sorted[i].work.result.value.payload
    {
      var work := sorted[k].work;
      var output := work.result.value;
      if output.staged && output.producer != Provenance(sorted[k].id, work.attemptId, work.token) {
        return ProvenanceMismatch;
      }
      payloads := payloads + [output.payload];
    }
    return Joined(payloads);
  }

  /** In a sorted listing, positions and branch indices are the same thing. */
  lemma JoinedRows(sorted: seq<Row>, works: map<string, Work>, group: string)
    requires Dense(works) && ListsGroup(sorted, works, group) && SortedByIndex(sorted)
    ensures forall i: nat :: i < |sorted| <==> HasBranch(works, group, i)
    ensures forall id :: id in works && works[id].group == group ==>
              works[id].index < |sorted| && sorted[works[id].index].id == id
  {
    forall i: nat | i < |sorted| ensures HasBranch(works, group, i) {
      RowsAtIndex(sorted, works, group, i);
      assert sorted[i].id in works;
    }
    forall id | id in works && works[id].group == group
      ensures works[id].index < |sorted| && sorted[works[id].index].id == id
    {
      assert Listed(sorted, id);
      var i :| 0 <= i < |sorted| && sorted[i].id == id;
      RowsAtIndex(sorted, works, group, i);
    }
  }
}
