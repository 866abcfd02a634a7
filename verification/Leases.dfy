/** The coordination lease table: acquisition, renewal, release and fencing tokens. */
module Leases {

  datatype Lease = Lease(owner: string, token: nat, expires: nat)

  datatype InstanceState = Starting | Active | Draining | Drained | Maintenance | Stopped | Stale

  /** The lease and instance tables and the database clock, in milliseconds. */
  datatype Table = Table(now: nat, rows: map<string, Lease>, instances: map<string, InstanceState>)

  /** The outcome of an acquisition; Invalid is the validation error. */
  datatype Grant = Granted(lease: Lease) | Denied | Invalid

  /** The outcome of a renewal or a release; Malformed is the validation error. */
  datatype Update = Updated(lease: Lease) | Lost | Malformed

  predicate ResourceOk(resource: string) {
    resource != "" && |resource| <= 256
  }

  predicate TtlOk(ttl: nat) {
    ttl != 0 && ttl <= 86400000
  }

  /** The row still belongs to this owner under this token and has not expired. */
  predicate Current(t: Table, resource: string, owner: string, token: nat) {
    && resource in t.rows
    && t.rows[resource].owner == owner && t.rows[resource].token == token && t.rows[resource].expires > t.now
  }

  function Acquire(t: Table, owner: string, resource: string, ttl: nat): (Table, Grant) {
    if !ResourceOk(resource) || !TtlOk(ttl) then (t, Invalid) else
    if owner !in t.instances || !t.instances[owner].Active? then (t, Denied) else
    if resource in t.rows && t.rows[resource].expires > t.now then (t, Denied) else
    var token := if resource in t.rows then t.rows[resource].token + 1 else 1;
    var lease := Lease(owner, token, t.now + ttl);
    (t.(rows := t.rows[resource := lease]), Granted(lease))
  }

  function Renew(t: Table, owner: string, resource: string, lease: Lease, ttl: nat): (Table, Update) {
    if !ResourceOk(resource) || !TtlOk(ttl) then (t, Malformed) else
    if lease.owner != owner || !Current(t, resource, owner, lease.token) then (t, Lost) else
    var renewed := t.rows[resource].(expires := t.now + ttl);
    (t.(rows := t.rows[resource := renewed]), Updated(renewed))
  }

  function Release(t: Table, owner: string, resource: string, lease: Lease): (Table, Update) {
    if !ResourceOk(resource) then (t, Malformed) else
    if lease.owner != owner || !Current(t, resource, owner, lease.token) then (t, Lost) else
    var released := t.rows[resource].(expires := t.now);
    (t.(rows := t.rows[resource := released]), Updated(released))
  }

  /** Registration sets the state of any instance, a state change only that of a registered one. */
  function Register(t: Table, instance: string, state: InstanceState): Table {
    t.(instances := t.instances[instance := state])
  }

  function ChangeState(t: Table, instance: string, state: InstanceState): (Table, bool) {
    if instance !in t.instances then (t, false) else (Register(t, instance, state), true)
  }

  /** The resources an instance holds under an unexpired lease. */
  function Held(t: Table, owner: string): set<string> {
    set resource | resource in t.rows && t.rows[resource].owner == owner && t.rows[resource].expires > t.now
  }

  function TokenOf(t: Table, resource: string): nat {
    if resource in t.rows then t.rows[resource].token else 0
  }
}

/** The coordination client, which updates the tables in place. */
module Coordination {
  import opened Leases
  import L = Leases

  /** The tables as the coordination client updates them. */
  class LeaseTable {
    var now: nat
    var rows: map<string, Lease>
    var instances: map<string, InstanceState>

    function State(): Table
      reads this
    {
      Table(now, rows, instances)
    }

    constructor ()
      ensures State() == Table(0, map[], map[])
    {
      now, rows, instances := 0, map[], map[];
    }

    method RegisterInstance(instance: string, state: InstanceState)
      modifies this
      ensures State() == Register(old(State()), instance, state)
    {
      instances := instances[instance := state];
    }

    method SetInstanceState(instance: string, state: InstanceState) returns (known: bool)
      modifies this
      ensures (State(), known) == ChangeState(old(State()), instance, state)
    {
      known := instance in instances;
      if known {
        instances := instances[instance := state];
      }
    }

    method Acquire(owner: string, resource: string, ttl: nat) returns (g: Grant)
      modifies this
      ensures (State(), g) == L.Acquire(old(State()), owner, resource, ttl)
    {
      if !ResourceOk(resource) || !TtlOk(ttl) {
        return Invalid;
      }
      if owner !in instances || !instances[owner].Active? {
        return Denied;
      }
      if resource !in rows {
        rows := rows[resource := Lease(owner, 1, now + ttl)];
      } else if rows[resource].expires <= now {
        rows := rows[resource := Lease(owner, rows[resource].token + 1, now + ttl)];
      } else {
        return Denied;
      }
      return Granted(rows[resource]);
    }

    method Renew(owner: string, resource: string, lease: Lease, ttl: nat) returns (u: Update)
      modifies this
      ensures (State(), u) == L.Renew(old(State()), owner, resource, lease, ttl)
    {
      if !ResourceOk(resource) || !TtlOk(ttl) {
        return Malformed;
      }
      if lease.owner != owner || !Current(State(), resource, owner, lease.token) {
        return Lost;
      }
      rows := rows[resource := rows[resource].(expires := now + ttl)];
      return Updated(rows[resource]);
    }

    method Release(owner: string, resource: string, lease: Lease) returns (u: Update)
      modifies this
      ensures (State(), u) == L.Release(old(State()), owner, resource, lease)
    {
      if !ResourceOk(resource) {
        return Malformed;
      }
      if lease.owner != owner || !Current(State(), resource, owner, lease.token) {
        return Lost;
      }
      rows := rows[resource := rows[resource].(expires := now)];
      return Updated(rows[resource]);
    }
  }
}

/** Fenced writes under any interleaving of lease operations, expiry and open transactions. */
module Fencing {
  import opened Leases

  /** An owned transaction that passed its lease check and holds the lease row lock. */
  datatype Transaction = Transaction(owner: string, token: nat)

  /** An accepted fenced write. */
  datatype Write = Write(resource: string, owner: string, token: nat)

  datatype System = System(table: Table, open: map<string, Transaction>, log: seq<Write>)

  datatype Event =
    | Tick(elapsed: nat)
    | RegisterInstance(instance: string, state: InstanceState)
    | SetInstanceState(instance: string, state: InstanceState)
    | AcquireLease(owner: string, resource: string, ttl: nat)
    | RenewLease(owner: string, resource: string, lease: Lease, ttl: nat)
    | ReleaseLease(owner: string, resource: string, lease: Lease)
    | Begin(resource: string, owner: string, token: nat)
    | Commit(resource: string)
    | Abort(resource: string)

  /** The lease row an event needs to lock, if any. */
  predicate Blocked(s: System, e: Event) {
    match e
    case AcquireLease(_, resource, _) => resource in s.open
    case RenewLease(_, resource, _, _) => resource in s.open
    case ReleaseLease(_, resource, _) => resource in s.open
    case Begin(resource, _, _) => resource in s.open
    case _ => false
  }

  /** One step; an event whose row is locked waits, so it changes nothing. */
  function Apply(s: System, e: Event): System {
    if Blocked(s, e) then s else
    match e
    case Tick(elapsed) => s.(table := s.table.(now := s.table.now + elapsed))
    case RegisterInstance(instance, state) => s.(table := Register(s.table, instance, state))
    case SetInstanceState(instance, state) => s.(table := ChangeState(s.table, instance, state).0)
    case AcquireLease(owner, resource, ttl) => s.(table := Acquire(s.table, owner, resource, ttl).0)
    case RenewLease(owner, resource, lease, ttl) => s.(table := Renew(s.table, owner, resource, lease, ttl).0)
    case ReleaseLease(owner, resource, lease) => s.(table := Release(s.table, owner, resource, lease).0)
    case Begin(resource, owner, token) =>
      if resource == "" || owner == "" || token == 0 || !Current(s.table, resource, owner, token) then s
      else s.(open := s.open[resource := Transaction(owner, token)])
    case Commit(resource) =>
      if resource !in s.open then s else
      s.(open := s.open - {resource},
         log := s.log + [Write(resource, s.open[resource].owner, s.open[resource].token)])
    case Abort(resource) => s.(open := s.open - {resource})
  }

  function Start(): System {
    System(Table(0, map[], map[]), map[], [])
  }

  /** The states a schedule passes through, first the given one. */
  function Run(s: System, events: seq<Event>): System {
    if events == [] then s else Apply(Run(s, events[..|events| - 1]), events[|events| - 1])
  }

  /** The grant an acquisition event receives in a state. */
  function GrantOf(s: System, e: Event): Grant {
    if e.AcquireLease? && !Blocked(s, e) then Acquire(s.table, e.owner, e.resource, e.ttl).1 else Denied
  }

  ghost predicate LogOrdered(log: seq<Write>) {
    forall i, j :: 0 <= i < j < |log| && log[i].resource == log[j].resource ==> log[i].token <= log[j].token
  }

  /** An open transaction still matches its row; no accepted write outruns the row's token. */
  ghost predicate Inv(s: System) {
    && (forall resource :: resource in s.open ==>
          && resource in s.table.rows
          && s.open[resource].token == s.table.rows[resource].token
          && s.open[resource].owner == s.table.rows[resource].owner)
    && (forall i :: 0 <= i < |s.log| ==> s.log[i].token <= TokenOf(s.table, s.log[i].resource))
    && LogOrdered(s.log)
  }

  /** One step keeps the invariant, only extends the log, and never lowers a token. */
  lemma StepKeeps(s: System, e: Event)
    requires Inv(s)
    ensures Inv(Apply(s, e))
    ensures s.log <= Apply(s, e).log
    ensures forall resource :: TokenOf(s.table, resource) <= TokenOf(Apply(s, e).table, resource)
    ensures forall i :: |s.log| <= i < |Apply(s, e).log| ==>
                          Apply(s, e).log[i].token == TokenOf(s.table, Apply(s, e).log[i].resource)
  {
  }

  /** An acquisition that is granted moves the token of its resource, and only that one, up by one. */
  lemma GrantRaises(s: System, e: Event)
    requires GrantOf(s, e).Granted?
    ensures GrantOf(s, e).lease.token == TokenOf(s.table, e.resource) + 1
    ensures TokenOf(Apply(s, e).table, e.resource) == GrantOf(s, e).lease.token
  {
  }

  lemma RunUnfold(s: System, events: seq<Event>, k: nat)
    requires k < |events|
    ensures Run(s, events[..k + 1]) == Apply(Run(s, events[..k]), events[k])
  {
    assert events[..k + 1][..k] == events[..k];
  }

  lemma {:induction false} RunKeeps(s: System, events: seq<Event>)
    requires Inv(s)
    ensures Inv(Run(s, events))
  {
    if events != [] {
      RunKeeps(s, events[..|events| - 1]);
      StepKeeps(Run(s, events[..|events| - 1]), events[|events| - 1]);
    }
  }

  /** Between two points of a schedule tokens only grow, and new writes carry at least the earlier token. */
  lemma {:induction false} LaterWritesFenced(s: System, events: seq<Event>, j: nat, k: nat)
    requires Inv(s) && j <= k <= |events|
    ensures Run(s, events[..j]).log <= Run(s, events[..k]).log
    ensures forall resource ::
              TokenOf(Run(s, events[..j]).table, resource) <= TokenOf(Run(s, events[..k]).table, resource)
    ensures var before, after := Run(s, events[..j]), Run(s, events[..k]);
            forall i :: |before.log| <= i < |after.log| ==>
                          TokenOf(before.table, after.log[i].resource) <= after.log[i].token
  {
    if j < k {
      LaterWritesFenced(s, events, j, k - 1);
      RunKeeps(s, events[..k - 1]);
      RunUnfold(s, events, k - 1);
      StepKeeps(Run(s, events[..k - 1]), events[k - 1]);
    }
  }

  /** Accepted fenced writes of one resource never go back to an older token, in any schedule. */
  lemma WritesOrdered(events: seq<Event>)
    ensures LogOrdered(Run(Start(), events).log)
  {
    RunKeeps(Start(), events);
  }

  /** After a takeover granted token t, every write accepted later for that resource carries t or more. */
  lemma NoStaleWriteAfterTakeover(events: seq<Event>, j: nat, i: nat)
    requires j < |events|
    requires GrantOf(Run(Start(), events[..j]), events[j]).Granted?
    requires |Run(Start(), events[..j + 1]).log| <= i < |Run(Start(), events).log|
    requires Run(Start(), events).log[i].resource == events[j].resource
    ensures GrantOf(Run(Start(), events[..j]), events[j]).lease.token <= Run(Start(), events).log[i].token
  {
    GrantRaises(Run(Start(), events[..j]), events[j]);
    RunUnfold(Start(), events, j);
    LaterWritesFenced(Start(), events, j + 1, |events|);
    assert events[..|events|] == events;
  }

  /** Two grants of one resource never carry the same token: the later one's is larger. */
  lemma TokensNeverRepeat(events: seq<Event>, j: nat, k: nat)
    requires j < k < |events|
    requires GrantOf(Run(Start(), events[..j]), events[j]).Granted?
    requires GrantOf(Run(Start(), events[..k]), events[k]).Granted?
    requires events[j].resource == events[k].resource
    ensures GrantOf(Run(Start(), events[..j]), events[j]).lease.token <
            GrantOf(Run(Start(), events[..k]), events[k]).lease.token
  {
    GrantRaises(Run(Start(), events[..j]), events[j]);
    GrantRaises(Run(Start(), events[..k]), events[k]);
    RunUnfold(Start(), events, j);
    LaterWritesFenced(Start(), events, j + 1, k);
  }

  ghost predicate Inactive(s: System, instance: string) {
    instance !in s.table.instances || !s.table.instances[instance].Active?
  }

  lemma StepShrinks(s: System, e: Event, instance: string)
    requires Inactive(s, instance)
    ensures Held(Apply(s, e).table, instance) <= Held(s.table, instance)
  {
  }

  /** While an instance stays out of the ACTIVE state, its set of held leases only shrinks. */
  lemma {:induction false} DrainShrinks(s: System, events: seq<Event>, instance: string)
    requires forall k :: 0 <= k < |events| ==> Inactive(Run(s, events[..k]), instance)
    ensures Held(Run(s, events).table, instance) <= Held(s.table, instance)
  {
    if events != [] {
      var n := |events| - 1;
      var front := events[..n];
      forall k | 0 <= k < |front| ensures Inactive(Run(s, front[..k]), instance) {
        assert front[..k] == events[..k];
      }
      DrainShrinks(s, front, instance);
      StepShrinks(Run(s, front), events[n], instance);
    }
  }

  /** The event makes the instance active again. */
  predicate Reactivates(e: Event, instance: string) {
    (e.RegisterInstance? || e.SetInstanceState?) && e.instance == instance && e.state.Active?
  }

  lemma {:induction false} StaysInactive(s: System, events: seq<Event>, instance: string, k: nat)
    requires Inactive(s, instance) && k <= |events|
    requires forall i :: 0 <= i < |events| ==> !Reactivates(events[i], instance)
    ensures Inactive(Run(s, events[..k]), instance)
  {
    if k > 0 {
      StaysInactive(s, events, instance, k - 1);
      RunUnfold(s, events, k - 1);
    }
  }

  /**
   * Once an instance has left the ACTIVE state, then under every schedule that does not make it active
   * again no acquisition of its is granted and the leases it holds are among those it held.
   */
  lemma {:induction false} DrainStops(s: System, state: InstanceState, events: seq<Event>, instance: string, e: Event)
    requires !state.Active? && forall i :: 0 <= i < |events| ==> !Reactivates(events[i], instance)
    ensures var drained := Apply(s, SetInstanceState(instance, state));
            && (e.AcquireLease? && e.owner == instance ==> !GrantOf(Run(drained, events), e).Granted?)
            && Held(Run(drained, events).table, instance) <= Held(s.table, instance)
  {
    var drained := Apply(s, SetInstanceState(instance, state));
    forall k | 0 <= k < |events| ensures Inactive(Run(drained, events[..k]), instance) {
      StaysInactive(drained, events, instance, k);
    }
    StaysInactive(drained, events, instance, |events|);
    assert events[..|events|] == events;
    DrainShrinks(drained, events, instance);
  }
}
