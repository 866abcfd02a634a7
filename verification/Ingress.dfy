/**
 * Event ingress: admission under a global and a per-source limit, deduplication by external id,
 * and stopping. Each critical section and each storage transaction is one step, so steps of
 * different calls interleave freely.
 */
module Ingress {
  import opened Options

  // ----- the claim key -----------------------------------------------------------------------

  function Digit(n: nat): char
    requires n < 10
  {
    "0123456789"[n]
  }

  /** Decimal notation without leading zeros. */
  function Decimal(n: nat): (s: string)
    ensures s != []
  {
    if n < 10 then [Digit(n)] else Decimal(n / 10) + [Digit(n % 10)]
  }

  function Worth(c: char): int { c as int - '0' as int }

  function Number(s: string): int {
    if s == [] then 0 else 10 * Number(s[..|s| - 1]) + Worth(s[|s| - 1])
  }

  lemma {:induction false} DecimalNumber(n: nat)
    ensures Number(Decimal(n)) == n
  {
    if n >= 10 {
      DecimalNumber(n / 10);
      assert Decimal(n)[..|Decimal(n)| - 1] == Decimal(n / 10);
    } else {
      assert Decimal(n)[..0] == [];
    }
  }

  lemma {:induction false} DecimalDigits(n: nat, i: nat)
    requires i < |Decimal(n)|
    ensures Decimal(n)[i] != ':'
  {
    if n >= 10 && i < |Decimal(n / 10)| {
      DecimalDigits(n / 10, i);
    }
  }

  /** The source's length keeps a delimiter inside either part from shifting the border. */
  function ClaimKey(source: string, external: string): string {
    "external-event:" + Decimal(|source|) + ":" + source + ":" + external
  }

  lemma {:induction false} SameLength(m: nat, n: nat, a: string, b: string)
    requires Decimal(m) + ":" + a == Decimal(n) + ":" + b
    ensures m == n && a == b
  {
    var x, y := Decimal(m) + ":" + a, Decimal(n) + ":" + b;
    var p, q := |Decimal(m)|, |Decimal(n)|;
    assert x[p] == ':' && y[q] == ':';
    if p < q {
      DecimalDigits(n, p);
    } else if q < p {
      DecimalDigits(m, q);
    }
    assert Decimal(m) == x[..p] && Decimal(n) == y[..q];
    DecimalNumber(m);
    DecimalNumber(n);
    assert a == x[p + 1..] && b == y[q + 1..];
  }

  /** Distinct pairs of source and external id never share a claim key. */
  lemma {:induction false} ClaimKeyInjective(source: string, external: string, source': string, external': string)
    requires ClaimKey(source, external) == ClaimKey(source', external')
    ensures source == source' && external == external'
  {
    var prefix := "external-event:";
    var a, b := source + ":" + external, source' + ":" + external';
    var x, y := Decimal(|source|) + ":" + a, Decimal(|source'|) + ":" + b;
    assert ClaimKey(source, external) == prefix + x && ClaimKey(source', external') == prefix + y;
    assert x == (prefix + x)[|prefix|..] && y == (prefix + y)[|prefix|..];
    SameLength(|source|, |source'|, a, b);
    assert source == a[..|source|] && source' == b[..|source'|];
    assert external == a[|source| + 1..] && external' == b[|source'| + 1..];
  }

  // ----- the counters ------------------------------------------------------------------------

  datatype Limits = Limits(maxPending: nat, maxPerSource: nat)

  datatype Counters = Counters(accepting: bool, pending: nat, inFlight: map<string, nat>)

  datatype Admission = Admitted | Backpressured | Stopped

  function CountOf(inFlight: map<string, nat>, source: string): nat {
    if source in inFlight then inFlight[source] else 0
  }

  /** The admission section; even a call that is refused for capacity leaves an entry for its source. */
  function Admit(c: Counters, limits: Limits, source: string): (Counters, Admission) {
    if !c.accepting then (c, Stopped) else
    var count := CountOf(c.inFlight, source);
    if c.pending >= limits.maxPending || count >= limits.maxPerSource
    then (c.(inFlight := c.inFlight[source := count]), Backpressured)
    else (c.(pending := c.pending + 1, inFlight := c.inFlight[source := count + 1]), Admitted)
  }

  /** Decrement of an unsigned 64-bit counter, with its wrap-around at zero. */
  function Decrement(n: nat): nat {
    if n == 0 then 0xFFFF_FFFF_FFFF_FFFF else n - 1
  }

  /** The release section; an entry whose count falls to zero is erased. */
  function Release(c: Counters, source: string): Counters {
    var rest :=
      if source !in c.inFlight then c.inFlight
      else if Decrement(c.inFlight[source]) == 0 then c.inFlight - {source}
      else c.inFlight[source := Decrement(c.inFlight[source])];
    c.(pending := Decrement(c.pending), inFlight := rest)
  }

  // ----- the state machine -------------------------------------------------------------------

  /** A stored event; external is empty when the submitter gave no id. */
  datatype Event = Event(id: nat, source: string, external: string)

  /** What an admitted call has done so far. */
  datatype Call = Call(source: string, answer: Answer)

  datatype Answer = Working | Accepted(id: nat) | Duplicate(id: nat) | Rejected

  /** `calls` are the admitted calls that have not been released; `stopped` says that a stop has returned. */
  datatype State = State(
    counters: Counters, calls: map<nat, Call>, events: seq<Event>, claims: map<string, nat>, stopped: bool)

  function Initial(): State {
    State(Counters(true, 0, map[]), map[], [], map[], false)
  }

  /** Event ids come from a generator of unique ids: here the number of events so far. */
  function StoreEvent(s: State, call: nat, external: string): State
    requires call in s.calls
  {
    var c := s.calls[call];
    var id := |s.events|;
    var key := ClaimKey(c.source, external);
    var stored := s.(events := s.events + [Event(id, c.source, external)],
                     calls := s.calls[call := c.(answer := Accepted(id))]);
    if external == "" then stored
    else if key in s.claims then s.(calls := s.calls[call := c.(answer := Duplicate(s.claims[key]))])
    else stored.(claims := s.claims[key := id])
  }

  datatype Step =
    | Enter(call: nat, source: string)
    | Store(call: nat, external: string)
    | Reject(call: nat)
    | Exit(call: nat)
    | BeginStop
    | EndStop

  predicate Enabled(s: State, step: Step) {
    match step
    case Enter(call, _) => call !in s.calls
    case Store(call, _) => call in s.calls && s.calls[call].answer == Working
    case Reject(call) => call in s.calls && s.calls[call].answer == Working
    case Exit(call) => call in s.calls && s.calls[call].answer != Working
    case BeginStop => true
    case EndStop => !s.counters.accepting && s.counters.pending == 0
  }

  /** A step that is not enabled changes nothing. */
  function Apply(s: State, limits: Limits, step: Step): State {
    if !Enabled(s, step) then s else
    match step
    case Enter(call, source) =>
      var (c, a) := Admit(s.counters, limits, source);
      s.(counters := c, calls := if a.Admitted? then s.calls[call := Call(source, Working)] else s.calls)
    case Store(call, external) => StoreEvent(s, call, external)
    case Reject(call) => s.(calls := s.calls[call := s.calls[call].(answer := Answer.Rejected)])
    case Exit(call) => s.(counters := Release(s.counters, s.calls[call].source), calls := s.calls - {call})
    case BeginStop => s.(counters := s.counters.(accepting := false))
    case EndStop => s.(stopped := true)
  }

  function Run(limits: Limits, steps: seq<Step>): State {
    if steps == [] then Initial() else Apply(Run(limits, steps[..|steps| - 1]), limits, steps[|steps| - 1])
  }

  // ----- the invariant -----------------------------------------------------------------------

  ghost function Total(m: map<string, nat>): nat
    decreases |m|
  {
    if m == map[] then 0 else
    var k :| k in m;
    m[k] + Total(m - {k})
  }

  function CallsOf(calls: map<nat, Call>, source: string): set<nat> {
    set c | c in calls && calls[c].source == source
  }

  ghost predicate Counted(s: State, limits: Limits) {
    && s.counters.pending == |s.calls|
    && s.counters.pending == Total(s.counters.inFlight)
    && (forall source :: |CallsOf(s.calls, source)| == CountOf(s.counters.inFlight, source))
    && s.counters.pending <= limits.maxPending
    && (forall source :: CountOf(s.counters.inFlight, source) <= limits.maxPerSource)
    && (s.stopped ==> !s.counters.accepting && s.calls == map[])
  }

  ghost predicate Deduplicated(s: State) {
    && (forall i :: 0 <= i < |s.events| ==> s.events[i].id == i)
    && (forall i :: 0 <= i < |s.events| && s.events[i].external != "" ==>
          var key := ClaimKey(s.events[i].source, s.events[i].external);
          key in s.claims && s.claims[key] == i)
    && (forall key :: key in s.claims ==>
          s.claims[key] < |s.events| &&
          var e := s.events[s.claims[key]]; e.external != "" && key == ClaimKey(e.source, e.external))
  }

  ghost predicate Inv(s: State, limits: Limits) {
    Counted(s, limits) && Deduplicated(s)
  }

  // ----- counting ----------------------------------------------------------------------------

  lemma {:induction false} TotalSplit(m: map<string, nat>, k: string)
    requires k in m
    ensures Total(m) == m[k] + Total(m - {k})
    decreases |m|
  {
    var j :| j in m && Total(m) == m[j] + Total(m - {j});
    if j != k {
      assert k in m - {j};
      TotalSplit(m - {j}, k);
      TotalSplit(m - {k}, j);
      assert m - {j} - {k} == m - {k} - {j};
    }
  }

  /** Setting one entry changes the total by the difference. */
  lemma {:induction false} TotalSet(m: map<string, nat>, k: string, n: nat)
    ensures Total(m[k := n]) == Total(m) - CountOf(m, k) + n
  {
    var t := m[k := n];
    TotalSplit(t, k);
    assert t - {k} == m - {k};
    if k in m {
      TotalSplit(m, k);
    } else {
      assert m - {k} == m;
    }
  }

  lemma {:induction false} CallsAdded(calls: map<nat, Call>, call: nat, c: Call, source: string)
    requires call !in calls
    ensures |CallsOf(calls[call := c], source)| == |CallsOf(calls, source)| + (if source == c.source then 1 else 0)
    ensures |calls[call := c]| == |calls| + 1
  {
    var before, after := CallsOf(calls, source), CallsOf(calls[call := c], source);
    assert after == if source == c.source then before + {call} else before;
    assert calls[call := c].Keys == calls.Keys + {call};
  }

  lemma {:induction false} CallsRemoved(calls: map<nat, Call>, call: nat, source: string)
    requires call in calls
    ensures |CallsOf(calls, source)| ==
            |CallsOf(calls - {call}, source)| + (if source == calls[call].source then 1 else 0)
    ensures |calls| == |calls - {call}| + 1
  {
    var rest := calls - {call};
    CallsAdded(rest, call, calls[call], source);
    assert rest[call := calls[call]] == calls;
  }

  lemma {:induction false} CallsAnswered(calls: map<nat, Call>, call: nat, answer: Answer, source: string)
    requires call in calls
    ensures CallsOf(calls[call := calls[call].(answer := answer)], source) == CallsOf(calls, source)
    ensures |calls[call := calls[call].(answer := answer)]| == |calls|
  {
    assert calls[call := calls[call].(answer := answer)].Keys == calls.Keys;
  }

  // ----- every step --------------------------------------------------------------------------

  /** An admission adds one to the source's count and to the total, a refusal nothing. */
  lemma {:induction false} AdmitCounts(c: Counters, limits: Limits, source: string)
    ensures var (d, a) := Admit(c, limits, source);
            var n := if a.Admitted? then 1 else 0;
            && d.pending == c.pending + n && d.accepting == c.accepting
            && Total(d.inFlight) == Total(c.inFlight) + n
            && (forall other :: CountOf(d.inFlight, other) ==
                  CountOf(c.inFlight, other) + (if other == source then n else 0))
            && (a.Admitted? ==> c.accepting && c.pending < limits.maxPending
                                && CountOf(c.inFlight, source) < limits.maxPerSource)
  {
    var count := CountOf(c.inFlight, source);
    TotalSet(c.inFlight, source, count);
    TotalSet(c.inFlight, source, count + 1);
  }

  lemma {:induction false} EnterCounts(s: State, limits: Limits, call: nat, source: string)
    requires Counted(s, limits) && call !in s.calls
    ensures Counted(Apply(s, limits, Enter(call, source)), limits)
  {
    var t := Apply(s, limits, Enter(call, source));
    AdmitCounts(s.counters, limits, source);
    CallsAdded(s.calls, call, Call(source, Working), source);
    forall other ensures |CallsOf(t.calls, other)| == CountOf(t.counters.inFlight, other) {
      CallsAdded(s.calls, call, Call(source, Working), other);
    }
  }

  /** A release takes one from the source's count and from the total. */
  lemma {:induction false} ReleaseCounts(c: Counters, source: string)
    requires c.pending > 0 && CountOf(c.inFlight, source) > 0
    ensures var d := Release(c, source);
            && d.pending == c.pending - 1 && d.accepting == c.accepting
            && Total(d.inFlight) == Total(c.inFlight) - 1
            && forall other :: CountOf(d.inFlight, other) ==
                 CountOf(c.inFlight, other) - (if other == source then 1 else 0)
  {
    TotalSplit(c.inFlight, source);
    TotalSet(c.inFlight, source, c.inFlight[source] - 1);
  }

  /** The last release of a source leaves no entry for it. */
  lemma ReleaseErases(c: Counters, source: string)
    requires CountOf(c.inFlight, source) == 1
    ensures source !in Release(c, source).inFlight
  {
  }

  lemma {:induction false} ExitCounts(s: State, limits: Limits, call: nat)
    requires Counted(s, limits) && call in s.calls && s.calls[call].answer != Working
    ensures Counted(Apply(s, limits, Exit(call)), limits)
  {
    var t := Apply(s, limits, Exit(call));
    var source := s.calls[call].source;
    assert call in CallsOf(s.calls, source);
    CallsRemoved(s.calls, call, source);
    ReleaseCounts(s.counters, source);
    forall other ensures |CallsOf(t.calls, other)| == CountOf(t.counters.inFlight, other) {
      CallsRemoved(s.calls, call, other);
    }
  }

  /** The step only answers a call. */
  lemma {:induction false} AnswerCounts(s: State, limits: Limits, call: nat, t: State)
    requires Counted(s, limits) && call in s.calls && t.counters == s.counters && t.stopped == s.stopped
    requires exists a :: t.calls == s.calls[call := s.calls[call].(answer := a)]
    ensures Counted(t, limits)
  {
    var a :| t.calls == s.calls[call := s.calls[call].(answer := a)];
    forall source ensures |CallsOf(t.calls, source)| == CountOf(t.counters.inFlight, source) {
      CallsAnswered(s.calls, call, a, source);
    }
    CallsAnswered(s.calls, call, a, "");
  }

  lemma {:induction false} StoreKeeps(s: State, limits: Limits, call: nat, external: string)
    requires Inv(s, limits) && call in s.calls && s.calls[call].answer == Working
    ensures Inv(StoreEvent(s, call, external), limits)
  {
    var t := StoreEvent(s, call, external);
    AnswerCounts(s, limits, call, t);
    StoreDeduplicated(s, call, external);
  }

  lemma {:induction false} StoreDeduplicated(s: State, call: nat, external: string)
    requires Deduplicated(s) && call in s.calls
    ensures Deduplicated(StoreEvent(s, call, external))
  {
    var source := s.calls[call].source;
    var key := ClaimKey(source, external);
    var t := StoreEvent(s, call, external);
    if external != "" && key !in s.claims {
      forall i | 0 <= i < |t.events| && t.events[i].external != ""
        ensures var k := ClaimKey(t.events[i].source, t.events[i].external); k in t.claims && t.claims[k] == i
      {
        if i < |s.events| {
          assert ClaimKey(s.events[i].source, s.events[i].external) in s.claims;
        }
      }
    }
  }

  lemma {:induction false} StepKeeps(s: State, limits: Limits, step: Step)
    requires Inv(s, limits)
    ensures Inv(Apply(s, limits, step), limits)
  {
    if Enabled(s, step) {
      match step
      case Enter(call, source) => EnterCounts(s, limits, call, source);
      case Store(call, external) => StoreKeeps(s, limits, call, external);
      case Reject(call) => AnswerCounts(s, limits, call, Apply(s, limits, step));
      case Exit(call) => ExitCounts(s, limits, call);
      case BeginStop =>
      case EndStop => assert |s.calls| == 0;
    }
  }

  /**
   * Under every interleaving: the pending count is the number of admitted calls and the sum of the
   * per-source counts, each within its limit; and a stop that has returned leaves nothing in flight.
   */
  lemma {:induction false} RunKeeps(limits: Limits, steps: seq<Step>)
    ensures Inv(Run(limits, steps), limits)
  {
    if steps == [] {
      assert forall source :: CallsOf(map[], source) == {};
    } else {
      RunKeeps(limits, steps[..|steps| - 1]);
      StepKeeps(Run(limits, steps[..|steps| - 1]), limits, steps[|steps| - 1]);
    }
  }

  /** A call enters exactly if no stop has begun and both the total and its source have room. */
  lemma {:induction false} AdmittedIff(limits: Limits, steps: seq<Step>, call: nat, source: string)
    requires call !in Run(limits, steps).calls
    ensures var s := Run(limits, steps);
            call in Apply(s, limits, Enter(call, source)).calls <==>
            BeginStop !in steps && |s.calls| < limits.maxPending && |CallsOf(s.calls, source)| < limits.maxPerSource
  {
    RunKeeps(limits, steps);
    AcceptingIff(limits, steps);
  }

  lemma {:induction false} AcceptingIff(limits: Limits, steps: seq<Step>)
    ensures Run(limits, steps).counters.accepting <==> BeginStop !in steps
  {
    if steps != [] {
      var front := steps[..|steps| - 1];
      AcceptingIff(limits, front);
      assert steps == front + [steps[|steps| - 1]];
      AdmitCountsAccepting(Run(limits, front), limits, steps[|steps| - 1]);
    }
  }

  lemma AdmitCountsAccepting(s: State, limits: Limits, step: Step)
    ensures Apply(s, limits, step).counters.accepting == (s.counters.accepting && !step.BeginStop?)
  {
  }

  /** A stop returns exactly once it has begun and no call is in flight. */
  lemma {:induction false} StopReturnsIff(limits: Limits, steps: seq<Step>)
    ensures Enabled(Run(limits, steps), EndStop) <==> BeginStop in steps && Run(limits, steps).calls == map[]
  {
    RunKeeps(limits, steps);
    AcceptingIff(limits, steps);
    assert |Run(limits, steps).calls| == 0 <==> Run(limits, steps).calls == map[];
  }

  /** An event of the source under the id is stored. */
  ghost predicate HasEvent(s: State, source: string, external: string) {
    exists i :: 0 <= i < |s.events| && s.events[i].source == source && s.events[i].external == external
  }

  /** A submission stores its event exactly if it has no external id or its source has none stored under it. */
  lemma {:induction false} StoredIff(limits: Limits, steps: seq<Step>, call: nat, external: string)
    requires Enabled(Run(limits, steps), Store(call, external))
    ensures var s := Run(limits, steps);
            var t := Apply(s, limits, Store(call, external));
            var source := s.calls[call].source;
            if external == "" || !HasEvent(s, source, external)
            then t.events == s.events + [Event(|s.events|, source, external)] &&
                 t.calls[call].answer == Accepted(|s.events|)
            else t.events == s.events && t.calls[call].answer.Duplicate?
  {
    var s := Run(limits, steps);
    RunKeeps(limits, steps);
    var source := s.calls[call].source;
    var key := ClaimKey(source, external);
    if external != "" {
      if HasEvent(s, source, external) {
        var i :| 0 <= i < |s.events| && s.events[i].source == source && s.events[i].external == external;
        assert key in s.claims;
      }
      if key in s.claims {
        var e := s.events[s.claims[key]];
        ClaimKeyInjective(source, external, e.source, e.external);
        assert HasEvent(s, source, external);
      }
    }
  }

  /** At most one event is stored for a source and a non-empty external id. */
  lemma {:induction false} StoredOnce(limits: Limits, steps: seq<Step>, i: nat, j: nat)
    requires i < |Run(limits, steps).events| && j < |Run(limits, steps).events|
    requires Run(limits, steps).events[i].source == Run(limits, steps).events[j].source
    requires Run(limits, steps).events[i].external == Run(limits, steps).events[j].external != ""
    ensures i == j
  {
    RunKeeps(limits, steps);
  }

  /** A repeated submission is answered with the event that its own source stored under that id. */
  lemma {:induction false} DuplicateOfOwn(limits: Limits, steps: seq<Step>, call: nat, external: string)
    requires Enabled(Run(limits, steps), Store(call, external))
    requires Apply(Run(limits, steps), limits, Store(call, external)).calls[call].answer.Duplicate?
    ensures var s := Run(limits, steps);
            var id := Apply(s, limits, Store(call, external)).calls[call].answer.id;
            id < |s.events| && s.events[id] == Event(id, s.calls[call].source, external)
  {
    var s := Run(limits, steps);
    RunKeeps(limits, steps);
    var source := s.calls[call].source;
    var key := ClaimKey(source, external);
    var e := s.events[s.claims[key]];
    ClaimKeyInjective(source, external, e.source, e.external);
  }

  /** Once a stop has returned, no step admits a call or stores an event. */
  lemma {:induction false} StoppedForever(limits: Limits, steps: seq<Step>, n: nat)
    requires n <= |steps| && Run(limits, steps[..n]).stopped
    ensures Run(limits, steps).stopped && Run(limits, steps).calls == map[]
    ensures Run(limits, steps).events == Run(limits, steps[..n]).events
    decreases |steps|
  {
    RunKeeps(limits, steps);
    if n == |steps| {
      assert steps[..n] == steps;
    } else {
      var front := steps[..|steps| - 1];
      assert front[..n] == steps[..n];
      StoppedForever(limits, front, n);
      RunKeeps(limits, front);
    }
  }
}

/** The guarded counters, updated in place. */
module IngressCounters {
  import I = Ingress

  class EventIngress {
    const limits: I.Limits
    var accepting: bool
    var pending: nat
    var inFlight: map<string, nat>
    var backpressured: nat

    function Counters(): I.Counters
      reads this
    {
      I.Counters(accepting, pending, inFlight)
    }

    /** Limits of zero are a configuration error of the caller. */
    constructor (limits: I.Limits)
      requires limits.maxPending > 0 && limits.maxPerSource > 0
      ensures this.limits == limits && Counters() == I.Initial().counters && backpressured == 0
    {
      this.limits := limits;
      accepting, pending, inFlight, backpressured := true, 0, map[], 0;
    }

    method Admit(source: string) returns (a: I.Admission)
      modifies this
      ensures (Counters(), a) == I.Admit(old(Counters()), limits, source)
      ensures backpressured == old(backpressured) + (if a == I.Backpressured then 1 else 0)
    {
      if !accepting {
        return I.Stopped;
      }
      if source !in inFlight {
        inFlight := inFlight[source := 0];
      }
      if pending >= limits.maxPending || inFlight[source] >= limits.maxPerSource {
        backpressured := backpressured + 1;
        assert old(inFlight)[source := inFlight[source]] == inFlight;
        return I.Backpressured;
      }
      pending := pending + 1;
      inFlight := inFlight[source := inFlight[source] + 1];
      assert inFlight == old(inFlight)[source := I.CountOf(old(inFlight), source) + 1];
      return I.Admitted;
    }

    method Release(source: string)
      modifies this`pending, this`inFlight
      ensures Counters() == I.Release(old(Counters()), source)
    {
      pending := I.Decrement(pending);
      if source in inFlight {
        inFlight := inFlight[source := I.Decrement(inFlight[source])];
        if inFlight[source] == 0 {
          inFlight := inFlight - {source};
        }
      }
      assert inFlight == I.Release(old(Counters()), source).inFlight;
    }

    /** The first half of a stop; the wait for the pending calls that follows is the step EndStop. */
    method BeginStop() returns (drained: bool)
      modifies this`accepting
      ensures Counters() == old(Counters()).(accepting := false) && (drained <==> pending == 0)
    {
      accepting := false;
      drained := pending == 0;
    }
  }
}
