/**
 * Who holds a lease, and for how long: when an acquisition, a renewal or a release succeeds, how long
 * the lease lasts under every later schedule, and that fenced writes are begun by holders only.
 */
module Holding {
  import opened Leases
  import opened Fencing

  ghost predicate Unheld(t: Table, resource: string) {
    forall owner :: resource !in Held(t, owner)
  }

  /** The instance holds the resource under this token. */
  ghost predicate Holds(t: Table, owner: string, resource: string, token: nat) {
    resource in Held(t, owner) && TokenOf(t, resource) == token
  }

  lemma UnheldIffExpired(t: Table, resource: string)
    ensures Unheld(t, resource) <==> resource !in t.rows || t.rows[resource].expires <= t.now
  {
    if resource in t.rows && t.rows[resource].expires > t.now {
      assert resource in Held(t, t.rows[resource].owner);
    }
  }

  // ---- When an operation succeeds ----

  /** A lease is granted exactly to an active instance, for valid arguments, on a resource nobody holds. */
  lemma GrantedIff(s: System, e: Event)
    requires e.AcquireLease?
    ensures GrantOf(s, e).Granted? <==>
            && !Blocked(s, e) && ResourceOk(e.resource) && TtlOk(e.ttl)
            && !Inactive(s, e.owner) && Unheld(s.table, e.resource)
  {
    UnheldIffExpired(s.table, e.resource);
  }

  /** A grant gives the resource to its instance under the next token and changes no other holding. */
  lemma GrantHolds(s: System, e: Event)
    requires GrantOf(s, e).Granted?
    ensures Holds(Apply(s, e).table, e.owner, e.resource, TokenOf(s.table, e.resource) + 1)
    ensures GrantOf(s, e).lease == Apply(s, e).table.rows[e.resource]
    ensures forall owner, resource :: resource != e.resource ==>
              (resource in Held(Apply(s, e).table, owner) <==> resource in Held(s.table, owner))
  {
    GrantRaises(s, e);
  }

  /** The answer a renewal or release receives; one that waits for the row has none yet. */
  function UpdateOf(s: System, e: Event): Update {
    if Blocked(s, e) then Lost else
    match e
    case RenewLease(owner, resource, lease, ttl) => Renew(s.table, owner, resource, lease, ttl).1
    case ReleaseLease(owner, resource, lease) => Release(s.table, owner, resource, lease).1
    case _ => Lost
  }

  /** A lease is renewed exactly for its holder under its token. */
  lemma RenewedIff(s: System, e: Event)
    requires e.RenewLease?
    ensures UpdateOf(s, e).Updated? <==>
            && !Blocked(s, e) && ResourceOk(e.resource) && TtlOk(e.ttl)
            && e.lease.owner == e.owner && Holds(s.table, e.owner, e.resource, e.lease.token)
    ensures UpdateOf(s, e).Updated? ==> Holds(Apply(s, e).table, e.owner, e.resource, e.lease.token)
    ensures !UpdateOf(s, e).Updated? ==> Apply(s, e) == s
  {
  }

  /** A lease is released exactly by its holder under its token, and then nobody holds it. */
  lemma ReleasedIff(s: System, e: Event)
    requires e.ReleaseLease?
    ensures UpdateOf(s, e).Updated? <==>
            && !Blocked(s, e) && ResourceOk(e.resource)
            && e.lease.owner == e.owner && Holds(s.table, e.owner, e.resource, e.lease.token)
    ensures UpdateOf(s, e).Updated? ==> Unheld(Apply(s, e).table, e.resource)
    ensures !UpdateOf(s, e).Updated? ==> Apply(s, e) == s
  {
  }

  // ---- How long a lease lasts ----

  /** The time a schedule takes. */
  function Elapsed(events: seq<Event>): nat {
    if events == [] then 0 else
    Elapsed(events[..|events| - 1]) + match events[|events| - 1] case Tick(n) => n case _ => 0
  }

  lemma {:induction false} NowAfter(s: System, events: seq<Event>)
    ensures Run(s, events).table.now == s.table.now + Elapsed(events)
  {
    if events != [] {
      NowAfter(s, events[..|events| - 1]);
    }
  }

  predicate Releases(e: Event, owner: string, resource: string) {
    e.ReleaseLease? && e.owner == owner && e.resource == resource
  }

  predicate Renews(e: Event, owner: string, resource: string) {
    e.RenewLease? && e.owner == owner && e.resource == resource
  }

  /**
   * Nothing in the schedule ends the lease before the given time from now: its owner does not release
   * it and renews it at most to that time or later.
   */
  ghost predicate Undisturbed(events: seq<Event>, owner: string, resource: string, span: nat) {
    forall i :: 0 <= i < |events| ==>
      && !Releases(events[i], owner, resource)
      && (Renews(events[i], owner, resource) ==> Elapsed(events[..i]) + events[i].ttl >= span)
  }

  /** The row is the owner's under the token and lasts at least until the given time. */
  ghost predicate Lasts(t: Table, owner: string, resource: string, token: nat, until: nat) {
    resource in t.rows && t.rows[resource].owner == owner && t.rows[resource].token == token &&
    t.rows[resource].expires >= until
  }

  lemma StepLasts(s: System, e: Event, owner: string, resource: string, token: nat, until: nat)
    requires Lasts(s.table, owner, resource, token, until) && s.table.now < until
    requires !Releases(e, owner, resource) && (Renews(e, owner, resource) ==> s.table.now + e.ttl >= until)
    ensures Lasts(Apply(s, e).table, owner, resource, token, until)
  {
  }

  lemma {:induction false} StaysHeld(s: System, events: seq<Event>, owner: string, resource: string, token: nat,
                                     span: nat)
    requires Lasts(s.table, owner, resource, token, s.table.now + span)
    requires Elapsed(events) < span && Undisturbed(events, owner, resource, span)
    ensures Lasts(Run(s, events).table, owner, resource, token, s.table.now + span)
  {
    if events != [] {
      var n := |events| - 1;
      var front := events[..n];
      forall i | 0 <= i < |front| ensures front[..i] == events[..i] {
      }
      StaysHeld(s, front, owner, resource, token, span);
      NowAfter(s, front);
      StepLasts(Run(s, front), events[n], owner, resource, token, s.table.now + span);
    }
  }

  /**
   * After a grant or a renewal its instance holds the resource, under the same token, through every
   * schedule shorter than the time to live in which it neither releases the lease nor renews it to
   * an earlier end.
   */
  lemma {:induction false} HeldForItsTime(s: System, e: Event, later: seq<Event>)
    requires GrantOf(s, e).Granted? || (e.RenewLease? && UpdateOf(s, e).Updated?)
    requires Elapsed(later) < e.ttl && Undisturbed(later, e.owner, e.resource, e.ttl)
    ensures Holds(Run(Apply(s, e), later).table, e.owner, e.resource, TokenOf(Apply(s, e).table, e.resource))
  {
    var u := Apply(s, e);
    StaysHeld(u, later, e.owner, e.resource, TokenOf(u.table, e.resource), e.ttl);
    NowAfter(u, later);
  }

  /** A lease can be renewed to an earlier end: the condition on renewals cannot be dropped. */
  lemma RenewalMayShorten(s: System, owner: string, resource: string)
    requires resource in s.table.rows && resource !in s.open && ResourceOk(resource)
    requires s.table.rows[resource] == Lease(owner, 1, s.table.now + 1000)
    ensures var renewal := RenewLease(owner, resource, s.table.rows[resource], 1);
            Elapsed([renewal, Tick(1)]) == 1 && Unheld(Run(s, [renewal, Tick(1)]).table, resource)
  {
    var renewal := RenewLease(owner, resource, s.table.rows[resource], 1);
    var events := [renewal, Tick(1)];
    assert events[..1] == [renewal] && [renewal][..0] == [];
    assert Run(s, []) == s;
    assert Run(s, [renewal]) == Apply(s, renewal);
    assert Run(s, events) == Apply(Apply(s, renewal), Tick(1));
    assert Elapsed([]) == 0 && Elapsed([renewal]) == 0;
  }

  /** No acquisition of the resource is granted in the schedule. */
  ghost predicate NotGranted(s: System, events: seq<Event>, resource: string) {
    forall i :: 0 <= i < |events| && events[i].AcquireLease? && events[i].resource == resource ==>
      !GrantOf(Run(s, events[..i]), events[i]).Granted?
  }

  lemma StepUnheld(s: System, e: Event, resource: string)
    requires Unheld(s.table, resource)
    requires e.AcquireLease? && e.resource == resource ==> !GrantOf(s, e).Granted?
    ensures Unheld(Apply(s, e).table, resource)
  {
    UnheldIffExpired(s.table, resource);
    UnheldIffExpired(Apply(s, e).table, resource);
  }

  /** A lease that was released or has expired is held again only by a grant. */
  lemma {:induction false} UnheldUntilGranted(s: System, events: seq<Event>, resource: string)
    requires Unheld(s.table, resource) && NotGranted(s, events, resource)
    ensures Unheld(Run(s, events).table, resource)
  {
    if events != [] {
      var n := |events| - 1;
      var front := events[..n];
      forall i | 0 <= i < |front| ensures front[..i] == events[..i] {
      }
      UnheldUntilGranted(s, front, resource);
      StepUnheld(Run(s, front), events[n], resource);
    }
  }

  /**
   * A lease that is left alone is held exactly while less than its time to live has passed. Left alone
   * means that its owner neither renews nor releases it and that no further acquisition is granted.
   */
  lemma {:induction false} HeldExactly(s: System, e: Event, later: seq<Event>)
    requires GrantOf(s, e).Granted? || (e.RenewLease? && UpdateOf(s, e).Updated?)
    requires forall i :: 0 <= i < |later| ==>
               !Releases(later[i], e.owner, e.resource) && !Renews(later[i], e.owner, e.resource)
    requires NotGranted(Apply(s, e), later, e.resource)
    ensures e.resource in Held(Run(Apply(s, e), later).table, e.owner) <==> Elapsed(later) < e.ttl
  {
    if Elapsed(later) < e.ttl {
      HeldForItsTime(s, e, later);
    } else {
      LeftAlone(Apply(s, e), later, e.owner, e.resource);
      NowAfter(Apply(s, e), later);
    }
  }

  lemma {:induction false} LeftAlone(s: System, events: seq<Event>, owner: string, resource: string)
    requires resource in s.table.rows && s.table.rows[resource].owner == owner
    requires forall i :: 0 <= i < |events| ==>
               !Releases(events[i], owner, resource) && !Renews(events[i], owner, resource)
    requires NotGranted(s, events, resource)
    ensures resource in Run(s, events).table.rows
    ensures Run(s, events).table.rows[resource] == s.table.rows[resource]
  {
    if events != [] {
      var n := |events| - 1;
      var front := events[..n];
      forall i | 0 <= i < |front| ensures front[..i] == events[..i] {
      }
      LeftAlone(s, front, owner, resource);
      assert !Releases(events[n], owner, resource) && !Renews(events[n], owner, resource);
    }
  }

  // ---- Writes by holders ----

  /** At event j the holder of the resource began an owned transaction under its token. */
  ghost predicate BegunByHolder(events: seq<Event>, j: nat, resource: string, owner: string, token: nat) {
    && j < |events| && events[j] == Begin(resource, owner, token)
    && Holds(Run(Start(), events[..j]).table, owner, resource, token)
  }

  ghost predicate Begun(events: seq<Event>, resource: string, owner: string, token: nat) {
    exists j: nat :: BegunByHolder(events, j, resource, owner, token)
  }

  lemma BegunEarlier(events: seq<Event>, k: nat, resource: string, owner: string, token: nat)
    requires k <= |events| && Begun(events[..k], resource, owner, token)
    ensures Begun(events, resource, owner, token)
  {
    var j: nat :| BegunByHolder(events[..k], j, resource, owner, token);
    assert events[..k][..j] == events[..j];
    assert BegunByHolder(events, j, resource, owner, token);
  }

  /** A transaction opens exactly for the holder of a resource that no transaction has locked. */
  lemma OpensIff(s: System, e: Event)
    requires e.Begin? && e.resource !in s.open
    ensures e.resource in Apply(s, e).open <==>
            && e.resource != "" && e.owner != "" && e.token != 0 && Holds(s.table, e.owner, e.resource, e.token)
  {
  }

  /** A transaction ends by its commit, with exactly one write of its own, or by its abort, with none. */
  lemma EndsOnce(s: System, e: Event)
    requires e.Commit? || e.Abort?
    ensures e.resource !in Apply(s, e).open && Apply(s, e).table == s.table
    ensures forall other :: other != e.resource ==>
              (other in Apply(s, e).open <==> other in s.open) &&
              (other in s.open ==> Apply(s, e).open[other] == s.open[other])
    ensures Apply(s, e).log == s.log +
              if e.Commit? && e.resource in s.open
              then [Write(e.resource, s.open[e.resource].owner, s.open[e.resource].token)] else []
  {
  }

  ghost predicate Traced(events: seq<Event>) {
    var s := Run(Start(), events);
    && (forall resource :: resource in s.open ==>
          Begun(events, resource, s.open[resource].owner, s.open[resource].token))
    && (forall i :: 0 <= i < |s.log| ==> Begun(events, s.log[i].resource, s.log[i].owner, s.log[i].token))
  }

  lemma {:induction false} OpenTraced(events: seq<Event>, resource: string)
    requires events != [] && Traced(events[..|events| - 1]) && resource in Run(Start(), events).open
    ensures var u := Run(Start(), events); Begun(events, resource, u.open[resource].owner, u.open[resource].token)
  {
    var n := |events| - 1;
    var s := Run(Start(), events[..n]);
    if resource in s.open {
      BegunEarlier(events, n, resource, s.open[resource].owner, s.open[resource].token);
      KeepsOpen(s, events[n], resource);
    } else {
      OpensByBegin(s, events[n], resource);
      assert BegunByHolder(events, n, resource, events[n].owner, events[n].token);
    }
  }

  lemma KeepsOpen(s: System, e: Event, resource: string)
    requires resource in s.open && resource in Apply(s, e).open
    ensures Apply(s, e).open[resource] == s.open[resource]
  {
  }

  lemma OpensByBegin(s: System, e: Event, resource: string)
    requires resource !in s.open && resource in Apply(s, e).open
    ensures e.Begin? && e.resource == resource && Holds(s.table, e.owner, resource, e.token)
    ensures Apply(s, e).open[resource] == Transaction(e.owner, e.token)
  {
  }

  lemma LogsByCommit(s: System, e: Event)
    ensures Apply(s, e).log == s.log ||
            (e.Commit? && e.resource in s.open &&
             Apply(s, e).log == s.log + [Write(e.resource, s.open[e.resource].owner, s.open[e.resource].token)])
  {
  }

  lemma {:induction false} StepTraced(events: seq<Event>)
    requires events != [] && Traced(events[..|events| - 1])
    ensures Traced(events)
  {
    var n := |events| - 1;
    var e := events[n];
    var s, u := Run(Start(), events[..n]), Run(Start(), events);
    forall resource | resource in u.open
      ensures Begun(events, resource, u.open[resource].owner, u.open[resource].token)
    {
      OpenTraced(events, resource);
    }
    LogsByCommit(s, e);
    forall i | 0 <= i < |u.log| ensures Begun(events, u.log[i].resource, u.log[i].owner, u.log[i].token) {
      if i < |s.log| {
        BegunEarlier(events, n, s.log[i].resource, s.log[i].owner, s.log[i].token);
      } else {
        BegunEarlier(events, n, e.resource, s.open[e.resource].owner, s.open[e.resource].token);
      }
    }
  }

  /** In every schedule, every accepted write was begun by the holder of its resource under its token. */
  lemma {:induction false} WrittenByHolders(events: seq<Event>, i: nat)
    requires i < |Run(Start(), events).log|
    ensures var w := Run(Start(), events).log[i]; Begun(events, w.resource, w.owner, w.token)
  {
    AllTraced(events);
  }

  lemma {:induction false} AllTraced(events: seq<Event>)
    ensures Traced(events)
  {
    if events != [] {
      AllTraced(events[..|events| - 1]);
      StepTraced(events);
    }
  }
}
