/**
 * When terminal work records and ready forks stay as they are. The check of a record write does not
 * lock the row, so a write checked earlier may still replace a record that has become terminal.
 */
module RecordRaces {
  import opened Options
  import opened Leases
  import opened Branches
  import opened NodeWork
  import opened NodeWorkSafety
  import M = TokenMachine

  /** The readiness test of a waiting fork: some branch exists and none is queued or running. */
  ghost predicate Ready(works: map<string, Work>, group: string) {
    && (exists id :: id in works && works[id].group == group)
    && (forall id :: id in works && works[id].group == group ==> Terminal(works[id].state))
  }

  // ---- One terminal record ----

  /** Every write of the work that has passed its check would write the record that is there. */
  ghost predicate OnlySamePending(s: System, id: string)
    requires id in s.works
  {
    && (id in s.open ==> s.open[id].record == s.works[id])
    && (forall c :: c in s.cancellations && s.cancellations[c].checked && s.cancellations[c].id == id ==>
          s.cancellations[c].record == s.works[id])
  }

  /** The record is there and unchanged after the schedule. */
  ghost predicate StaysThrough(f: Programs, s: System, id: string, events: seq<Event>)
    requires id in s.works
  {
    id in Run(f, s, events).works && Run(f, s, events).works[id] == s.works[id]
  }

  /** A terminal record refuses every new check, so only writes checked before matter. */
  lemma StepStays(f: Programs, s: System, e: Event, id: string)
    requires Inv(f, s) && id in s.works && Terminal(s.works[id].state) && OnlySamePending(s, id)
    ensures id in Apply(f, s, e).works && Apply(f, s, e).works[id] == s.works[id]
    ensures OnlySamePending(Apply(f, s, e), id)
  {
    match e
    case CreateGroup(group, ids, join, starts) =>
      if CanCreate(s, group, ids, starts) { AddGroupContents(s.works, group, ids, join, starts); }
    case Commit(i) => if i in s.open { CommitStays(s, i, id); }
    case CancelWrite(c) => CancelStays(s, c, id);
    case CancelCheck(c) => CancelStays(s, c, id);
    case CheckClaim(i, token) => CheckStays(f, s, e, id);
    case CheckResult(i, token) => CheckStays(f, s, e, id);
    case CheckClose(i, token, decision) => CheckStays(f, s, e, id);
    case _ => OtherStays(f, s, e, id);
  }

  lemma CommitStays(s: System, i: string, id: string)
    requires i in s.open && id in s.works && OnlySamePending(s, id)
    ensures var u := ApplyCommit(s, i); id in u.works && u.works[id] == s.works[id] && OnlySamePending(u, id)
  {
  }

  lemma CancelStays(s: System, c: nat, id: string)
    requires id in s.works && Terminal(s.works[id].state) && OnlySamePending(s, id)
    ensures var u := ApplyCancelWrite(s, c); id in u.works && u.works[id] == s.works[id] && OnlySamePending(u, id)
    ensures var u := ApplyCancelCheck(s, c); id in u.works && u.works[id] == s.works[id] && OnlySamePending(u, id)
  {
  }

  lemma CheckStays(f: Programs, s: System, e: Event, id: string)
    requires id in s.works && Terminal(s.works[id].state) && OnlySamePending(s, id)
    requires e.CheckClaim? || e.CheckResult? || e.CheckClose?
    ensures Apply(f, s, e).works == s.works && OnlySamePending(Apply(f, s, e), id)
  {
    CheckKeepsOpen(f, s, e, id);
  }

  lemma OtherStays(f: Programs, s: System, e: Event, id: string)
    requires id in s.works && OnlySamePending(s, id)
    requires !(e.CreateGroup? || e.Commit? || e.CancelWrite? || e.CancelCheck?)
    requires !(e.CheckClaim? || e.CheckResult? || e.CheckClose?)
    ensures Apply(f, s, e).works == s.works && OnlySamePending(Apply(f, s, e), id)
  {
    OtherWorks(f, s, e);
  }

  lemma {:induction false} PendingStays(f: Programs, s: System, events: seq<Event>, id: string)
    requires Inv(f, s) && id in s.works && Terminal(s.works[id].state) && OnlySamePending(s, id)
    ensures StaysThrough(f, s, id, events) && OnlySamePending(Run(f, s, events), id)
  {
    if events != [] {
      var front := events[..|events| - 1];
      PendingStays(f, s, front, id);
      RunKeeps(f, s, front);
      StepStays(f, Run(f, s, front), events[|events| - 1], id);
    }
  }

  lemma RunOne(f: Programs, s: System, e: Event)
    ensures Run(f, s, [e]) == Apply(f, s, e)
  {
    assert [e][..0] == [];
    assert Run(f, s, []) == s;
  }

  /**
   * A terminal record stays as it is through every schedule exactly when no write of another record
   * has already passed its check.
   */
  lemma {:induction false} TerminalStaysIff(f: Programs, s: System, id: string)
    requires Inv(f, s) && id in s.works && Terminal(s.works[id].state)
    ensures (forall events :: StaysThrough(f, s, id, events)) <==> OnlySamePending(s, id)
  {
    if OnlySamePending(s, id) {
      forall events ensures StaysThrough(f, s, id, events) {
        PendingStays(f, s, events, id);
      }
    } else if id in s.open && s.open[id].record != s.works[id] {
      RunOne(f, s, Commit(id));
      assert !StaysThrough(f, s, id, [Commit(id)]);
    } else {
      var c :| c in s.cancellations && s.cancellations[c].checked && s.cancellations[c].id == id &&
               s.cancellations[c].record != s.works[id];
      RunOne(f, s, CancelWrite(c));
      assert !StaysThrough(f, s, id, [CancelWrite(c)]);
    }
  }

  // ---- A ready fork ----

  /** No claim or requeue of one of the group's branches has passed its check. */
  ghost predicate NoRevivalPending(s: System, group: string) {
    forall id :: id in s.open && id in s.works && s.works[id].group == group ==> Terminal(s.open[id].record.state)
  }

  /** On terminal records a new check opens no write. */
  lemma StepReady(f: Programs, s: System, e: Event, group: string)
    requires Inv(f, s) && Ready(s.works, group) && NoRevivalPending(s, group)
    ensures Ready(Apply(f, s, e).works, group) && NoRevivalPending(Apply(f, s, e), group)
  {
    var u := Apply(f, s, e);
    var one :| one in s.works && s.works[one].group == group;
    GroupFixed(f, s, e, one);
    forall id | id in u.works && u.works[id].group == group ensures Terminal(u.works[id].state) {
      if id in s.works {
        GroupFixed(f, s, e, id);
        BranchReady(f, s, e, id);
      } else {
        NewIdsFresh(f, s, e, id);
      }
    }
    forall id | id in u.open && id in u.works && u.works[id].group == group
      ensures Terminal(u.open[id].record.state)
    {
      if id in s.works {
        GroupFixed(f, s, e, id);
        BranchReady(f, s, e, id);
      } else {
        NewIdsFresh(f, s, e, id);
      }
    }
  }

  /** The record is terminal and so is what an open write would make of it. */
  ghost predicate Settled(s: System, id: string) {
    && (id in s.works ==> Terminal(s.works[id].state))
    && (id in s.open ==> Terminal(s.open[id].record.state))
  }

  lemma BranchReady(f: Programs, s: System, e: Event, id: string)
    requires Inv(f, s) && id in s.works && Settled(s, id)
    ensures Settled(Apply(f, s, e), id)
  {
    match e
    case CreateGroup(group, ids, join, starts) => CreateSettled(f, s, e, id);
    case Commit(i) => if i in s.open { CommitReady(s, i, id); }
    case CancelWrite(c) => CancelReady(f, s, c, id);
    case CheckClaim(i, token) => CheckKeepsOpen(f, s, e, id);
    case CheckResult(i, token) => CheckKeepsOpen(f, s, e, id);
    case CheckClose(i, token, decision) => CheckKeepsOpen(f, s, e, id);
    case _ => OtherKeepsOpen(f, s, e, id);
  }

  lemma CreateSettled(f: Programs, s: System, e: Event, id: string)
    requires e.CreateGroup? && id in s.works && Settled(s, id)
    ensures Settled(Apply(f, s, e), id)
  {
    CreateFixed(f, s, e, id);
  }

  lemma CommitReady(s: System, i: string, id: string)
    requires i in s.open && id in s.works && Settled(s, id)
    ensures Settled(ApplyCommit(s, i), id)
  {
  }

  lemma CancelReady(f: Programs, s: System, c: nat, id: string)
    requires Inv(f, s) && id in s.works && Terminal(s.works[id].state)
    ensures var u := ApplyCancelWrite(s, c); u.open == s.open && id in u.works && Terminal(u.works[id].state)
  {
    if c in s.cancellations {
      assert CancellationOk(s.works, s.cancellations[c]);
    }
  }

  lemma CheckKeepsOpen(f: Programs, s: System, e: Event, id: string)
    requires id in s.works && Terminal(s.works[id].state) && (e.CheckClaim? || e.CheckResult? || e.CheckClose?)
    ensures Apply(f, s, e).works == s.works
    ensures id in Apply(f, s, e).open ==> id in s.open && Apply(f, s, e).open[id] == s.open[id]
  {
  }

  lemma OtherKeepsOpen(f: Programs, s: System, e: Event, id: string)
    requires !(e.CreateGroup? || e.Commit? || e.CancelWrite? || e.CheckClaim? || e.CheckResult? || e.CheckClose?)
    ensures Apply(f, s, e).works == s.works
    ensures id in Apply(f, s, e).open ==> id in s.open && Apply(f, s, e).open[id] == s.open[id]
  {
  }

  lemma {:induction false} ReadyThrough(f: Programs, s: System, events: seq<Event>, group: string)
    requires Inv(f, s) && Ready(s.works, group) && NoRevivalPending(s, group)
    ensures Ready(Run(f, s, events).works, group) && NoRevivalPending(Run(f, s, events), group)
  {
    if events != [] {
      var front := events[..|events| - 1];
      ReadyThrough(f, s, front, group);
      RunKeeps(f, s, front);
      StepReady(f, Run(f, s, front), events[|events| - 1], group);
    }
  }

  /**
   * A ready fork stays ready through every schedule exactly when no claim or requeue of one of its
   * branches has already passed its check. Cancellations in flight cannot undo readiness.
   */
  lemma {:induction false} ReadyStaysIff(f: Programs, s: System, group: string)
    requires Inv(f, s) && Ready(s.works, group)
    ensures (forall events :: Ready(Run(f, s, events).works, group)) <==> NoRevivalPending(s, group)
  {
    if NoRevivalPending(s, group) {
      forall events ensures Ready(Run(f, s, events).works, group) {
        ReadyThrough(f, s, events, group);
      }
    } else {
      var id :| id in s.open && id in s.works && s.works[id].group == group && !Terminal(s.open[id].record.state);
      Revived(f, s, group, id);
    }
  }

  /** A claim or requeue that has passed its check makes a ready fork unready by its commit. */
  lemma Revived(f: Programs, s: System, group: string, id: string)
    requires Inv(f, s) && id in s.open && id in s.works && s.works[id].group == group
    requires !Terminal(s.open[id].record.state)
    ensures !Ready(Run(f, s, [Commit(id)]).works, group)
  {
    assert OpenOk(f, s, id);
    RunOne(f, s, Commit(id));
    CommitUnready(s, group, id);
  }

  lemma CommitUnready(s: System, group: string, id: string)
    requires id in s.open && s.open[id].record.group == group && !Terminal(s.open[id].record.state)
    ensures !Ready(ApplyCommit(s, id).works, group)
  {
    var u := ApplyCommit(s, id);
    assert id in u.works && u.works[id] == s.open[id].record;
  }

  // ---- Schedules in which no cancellation writes ----

  predicate NoCancelWrite(events: seq<Event>) {
    forall i :: 0 <= i < |events| ==> !events[i].CancelWrite?
  }

  /** The lease row lock keeps the record live while a lease holder's write is open. */
  ghost predicate LiveWhileOpen(s: System) {
    forall id :: id in s.open ==> id in s.works && !Terminal(s.works[id].state)
  }

  lemma StepLive(f: Programs, s: System, e: Event)
    requires Inv(f, s) && LiveWhileOpen(s) && !e.CancelWrite?
    ensures LiveWhileOpen(Apply(f, s, e))
  {
    match e
    case CreateGroup(group, ids, join, starts) =>
      if CanCreate(s, group, ids, starts) { AddGroupContents(s.works, group, ids, join, starts); }
    case CheckClaim(id, token) => CheckLive(f, s, e);
    case CheckResult(id, token) => CheckLive(f, s, e);
    case CheckClose(id, token, decision) => CheckLive(f, s, e);
    case Commit(id) =>
    case _ => OtherLive(f, s, e);
  }

  lemma OtherLive(f: Programs, s: System, e: Event)
    requires LiveWhileOpen(s)
    requires !(e.CreateGroup? || e.Commit? || e.CancelWrite? || e.CheckClaim? || e.CheckResult? || e.CheckClose?)
    ensures LiveWhileOpen(Apply(f, s, e))
  {
    forall id | id in Apply(f, s, e).open
      ensures id in Apply(f, s, e).works && !Terminal(Apply(f, s, e).works[id].state)
    {
      OtherKeepsOpen(f, s, e, id);
    }
  }

  lemma CheckLive(f: Programs, s: System, e: Event)
    requires LiveWhileOpen(s) && (e.CheckClaim? || e.CheckResult? || e.CheckClose?)
    ensures LiveWhileOpen(Apply(f, s, e))
  {
  }

  lemma {:induction false} LiveThrough(f: Programs, events: seq<Event>)
    requires NoCancelWrite(events)
    ensures LiveWhileOpen(Run(f, Start(), events))
  {
    if events != [] {
      var front := events[..|events| - 1];
      LiveThrough(f, front);
      Reachable(f, front);
      StepLive(f, Run(f, Start(), front), events[|events| - 1]);
    }
  }

  lemma {:induction false} RunSplit(f: Programs, s: System, events: seq<Event>, j: nat)
    requires j <= |events|
    ensures Run(f, s, events) == Run(f, Run(f, s, events[..j]), events[j..])
    decreases |events|
  {
    if j == |events| {
      assert events[..j] == events && events[j..] == [];
      assert Run(f, Run(f, s, events), []) == Run(f, s, events);
    } else {
      var front := events[..|events| - 1];
      RunSplit(f, s, front, j);
      assert front[..j] == events[..j] && front[j..] == events[j..][..|events[j..]| - 1];
      assert events[j..][|events[j..]| - 1] == events[|events| - 1];
    }
  }

  /** Without a cancellation write before it, a record that has become terminal stays so for good. */
  lemma {:induction false} TerminalForever(f: Programs, events: seq<Event>, j: nat, id: string)
    requires j <= |events| && NoCancelWrite(events)
    requires var s := Run(f, Start(), events[..j]); id in s.works && Terminal(s.works[id].state)
    ensures StaysThrough(f, Run(f, Start(), events[..j]), id, events[j..])
  {
    var s := Run(f, Start(), events[..j]);
    Reachable(f, events[..j]);
    LiveThrough(f, events[..j]);
    Uncancelled(f, s, events[j..], id);
  }

  /** A fork that gets ready before any cancellation writes stays ready, whatever comes later. */
  lemma {:induction false} ReadyForever(f: Programs, events: seq<Event>, j: nat, group: string)
    requires j <= |events| && NoCancelWrite(events[..j])
    requires Ready(Run(f, Start(), events[..j]).works, group)
    ensures Ready(Run(f, Start(), events).works, group)
  {
    var s := Run(f, Start(), events[..j]);
    Reachable(f, events[..j]);
    LiveThrough(f, events[..j]);
    assert NoRevivalPending(s, group);
    ReadyThrough(f, s, events[j..], group);
    RunSplit(f, Start(), events, j);
  }

  lemma {:induction false} Uncancelled(f: Programs, s: System, events: seq<Event>, id: string)
    requires Inv(f, s) && id in s.works && Terminal(s.works[id].state) && NoCancelWrite(events)
    requires id !in s.open
    ensures StaysThrough(f, s, id, events) && id !in Run(f, s, events).open
  {
    if events != [] {
      var front := events[..|events| - 1];
      Uncancelled(f, s, front, id);
      RunKeeps(f, s, front);
      StepUncancelled(f, Run(f, s, front), events[|events| - 1], id);
    }
  }

  lemma StepUncancelled(f: Programs, s: System, e: Event, id: string)
    requires Inv(f, s) && id in s.works && Terminal(s.works[id].state) && !e.CancelWrite? && id !in s.open
    ensures var u := Apply(f, s, e); id in u.works && u.works[id] == s.works[id] && id !in u.open
  {
    match e
    case CreateGroup(group, ids, join, starts) =>
      CreateFixed(f, s, e, id);
    case CheckClaim(i, token) => CheckKeepsOpen(f, s, e, id);
    case CheckResult(i, token) => CheckKeepsOpen(f, s, e, id);
    case CheckClose(i, token, decision) => CheckKeepsOpen(f, s, e, id);
    case Commit(i) => if i in s.open { CommitElsewhere(s, i, id); }
    case _ => OtherKeepsOpen(f, s, e, id);
  }

  lemma CommitElsewhere(s: System, i: string, id: string)
    requires i in s.open && id in s.works && id !in s.open
    ensures var u := ApplyCommit(s, i); id in u.works && u.works[id] == s.works[id] && id !in u.open
  {
  }

  // ---- A cancelled branch comes back ----

  /** The events up to the cancellation's write; the claim's check came first and its commit is to come. */
  function Cancelling(payload: M.Value): seq<Event> {
    [SetInstance("a", Active), CreateGroup("g", ["w"], "j", [Place("n", payload)]), CancelRead(0, "w"),
     AcquireWork("w", "a", 1), ReadForClaim("w", 1), CheckClaim("w", 1), CancelCheck(0), CancelWrite(0)]
  }

  lemma RunNext(f: Programs, s: System, events: seq<Event>, e: Event)
    ensures Run(f, s, events + [e]) == Apply(f, Run(f, s, events), e)
  {
    assert (events + [e])[..|events|] == events;
  }

  /** In this schedule the fork is ready, and then its cancelled branch is running again. */
  lemma {:induction false} CancelledWorkRevived(f: Programs, payload: M.Value)
    ensures Ready(Run(f, Start(), Cancelling(payload)).works, "g")
    ensures !Ready(Run(f, Start(), Cancelling(payload) + [Commit("w")]).works, "g")
  {
    var t := ClaimChecked(f, payload);
    var e := Cancelling(payload);
    RunStep(f, e, 6, t);
    CancelChecked(f, t);
    var u := Apply(f, t, e[6]);
    RunStep(f, e, 7, u);
    CancelWritten(f, u);
    var v := Apply(f, u, e[7]);
    assert e[..8] == e;
    RunNext(f, Start(), e, Commit("w"));
    CommitRevives(f, v);
  }

  /** The one branch, its claim past the check and its cancellation as given. */
  ghost predicate Overtaken(t: System, cancelled: bool, checked: bool) {
    && t.works.Keys == {"w"} && t.works["w"].group == "g"
    && t.works["w"].state == (if cancelled then Cancelled else Queued)
    && "w" in t.open && t.open["w"].record.state.Running? && t.open["w"].record.group == "g"
    && (!cancelled ==> t.cancellations == map[0 := Cancellation("w", CancelledBy(t.works["w"]), checked)])
  }

  lemma CancelChecked(f: Programs, t: System)
    requires Overtaken(t, false, false)
    ensures Overtaken(Apply(f, t, CancelCheck(0)), false, true)
  {
    assert Apply(f, t, CancelCheck(0)) == ApplyCancelCheck(t, 0);
  }

  lemma CancelWritten(f: Programs, u: System)
    requires Overtaken(u, false, true)
    ensures Overtaken(Apply(f, u, CancelWrite(0)), true, true)
    ensures Ready(Apply(f, u, CancelWrite(0)).works, "g")
  {
    var v := ApplyCancelWrite(u, 0);
    assert v.works == u.works["w" := CancelledBy(u.works["w"])];
    assert "w" in v.works && v.works["w"].group == "g";
  }

  lemma CommitRevives(f: Programs, v: System)
    requires Overtaken(v, true, true)
    ensures !Ready(Apply(f, v, Commit("w")).works, "g")
  {
    var w := ApplyCommit(v, "w");
    assert "w" in w.works && w.works["w"] == v.open["w"].record;
  }

  /** The first three events: one queued branch, and a cancellation that has read it. */
  lemma {:induction false} Queueing(f: Programs, payload: M.Value) returns (s: System)
    ensures s == Run(f, Start(), Cancelling(payload)[..3])
    ensures var w := NewWork("g", 0, "j", Place("n", payload));
            s == System(Table(0, map[], map["a" := Active]), map["w" := w], map[], map[],
                        map[0 := Cancellation("w", CancelledBy(w), false)], 0)
  {
    var e := Cancelling(payload);
    var w := NewWork("g", 0, "j", Place("n", payload));
    assert e[..0] == [] && Run(f, Start(), []) == Start();
    RunStep(f, e, 0, Start());
    var s1 := Apply(f, Start(), e[0]);
    RunStep(f, e, 1, s1);
    var s2 := Apply(f, s1, e[1]);
    assert s2.works == map["w" := w] by {
      assert ["w"][..0] == [] && [Place("n", payload)][..0] == [];
      assert AddGroup(map[], "g", [], "j", []) == map[];
    }
    RunStep(f, e, 2, s2);
    s := Apply(f, s2, e[2]);
  }

  /** The queued branch has been read for cancellation and is leased by a process in the given phase. */
  ghost predicate Ripe(s: System, phase: Phase) {
    && s.works.Keys == {"w"} && s.works["w"].group == "g" && s.works["w"].state.Queued? && s.open == map[]
    && s.cancellations == map[0 := Cancellation("w", CancelledBy(s.works["w"]), false)]
    && ("w", 1) in s.processes && s.processes[("w", 1)] == Process("a", phase)
    && Current(s.table, Resource("w"), "a", 1)
  }

  lemma AcquireGoes(f: Programs, s: System)
    requires s.works.Keys == {"w"} && s.works["w"].group == "g" && s.works["w"].state.Queued? && s.open == map[]
    requires s.cancellations == map[0 := Cancellation("w", CancelledBy(s.works["w"]), false)]
    requires s.table == Table(0, map[], map["a" := Active])
    ensures Ripe(Apply(f, s, AcquireWork("w", "a", 1)), Leased)
  {
    assert Apply(f, s, AcquireWork("w", "a", 1)) == ApplyAcquire(s, "w", "a", 1);
  }

  lemma ReadGoes(f: Programs, s: System)
    requires Ripe(s, Leased)
    ensures Ripe(Apply(f, s, ReadForClaim("w", 1)), Phase.Claiming(s.works["w"]))
    ensures Apply(f, s, ReadForClaim("w", 1)).works == s.works
  {
  }

  lemma CheckGoes(f: Programs, s: System)
    requires "w" in s.works && Ripe(s, Phase.Claiming(s.works["w"]))
    ensures Overtaken(Apply(f, s, CheckClaim("w", 1)), false, false)
  {
    assert Apply(f, s, CheckClaim("w", 1)) == ApplyCheckClaim(s, "w", 1);
  }

  lemma {:induction false} ClaimRead(f: Programs, payload: M.Value) returns (t: System)
    ensures t == Run(f, Start(), Cancelling(payload)[..5])
    ensures "w" in t.works && Ripe(t, Phase.Claiming(t.works["w"]))
  {
    var e := Cancelling(payload);
    var s3 := Queueing(f, payload);
    RunStep(f, e, 3, s3);
    AcquireGoes(f, s3);
    var s4 := Apply(f, s3, e[3]);
    RunStep(f, e, 4, s4);
    ReadGoes(f, s4);
    t := Apply(f, s4, e[4]);
  }

  /** The first six events leave a claim checked and a cancellation about to be checked. */
  lemma {:induction false} ClaimChecked(f: Programs, payload: M.Value) returns (t: System)
    ensures t == Run(f, Start(), Cancelling(payload)[..6]) && Overtaken(t, false, false)
  {
    var e := Cancelling(payload);
    var s5 := ClaimRead(f, payload);
    RunStep(f, e, 5, s5);
    CheckGoes(f, s5);
    t := Apply(f, s5, e[5]);
  }

  lemma {:induction false} RunStep(f: Programs, e: seq<Event>, k: nat, s: System)
    requires k < |e| && Run(f, Start(), e[..k]) == s
    ensures Run(f, Start(), e[..k + 1]) == Apply(f, s, e[k])
  {
    RunNext(f, Start(), e[..k], e[k]);
    assert e[..k] + [e[k]] == e[..k + 1];
  }
}
