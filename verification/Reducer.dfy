/** The recent-turns context reducer: keeps the longest tail of a session's turns that fits a byte budget. */
module Reducer {
  import opened Options

  /** A serialized turn, with its sequence number if it has one. */
  datatype Row = Row(sequence: Option<nat>, text: string)

  /** A stored generation; `turns` is absent when its payload holds no list of turns. */
  datatype Previous = Previous(kind: string, version: string, turns: Option<seq<Row>>)

  datatype Failure = Invalid | Unordered | Uninterpretable | Broken | Capacity

  datatype Result = Reduced(turns: seq<Row>) | Failed(failure: Failure)

  const FORMAT := "laso.recent-turns"
  const VERSION := "1"

  // ----- payload size ------------------------------------------------------------------------

  function Joined(rows: seq<Row>): string {
    if rows == [] then "" else
    if |rows| == 1 then rows[0].text else rows[0].text + "," + Joined(rows[1..])
  }

  function Payload(rows: seq<Row>): string {
    "{\"format\":\"laso.recent-turns\",\"turns\":[" + Joined(rows) + "]}"
  }

  function Size(rows: seq<Row>): nat {
    |Payload(rows)|
  }

  /** Dropping the oldest turn of several makes the payload smaller. */
  lemma {:induction false} SizeShrinks(rows: seq<Row>)
    requires |rows| > 1
    ensures Size(rows[1..]) < Size(rows)
  {
  }

  lemma {:induction false} JoinedGrows(a: seq<Row>, b: seq<Row>)
    ensures |Joined(a)| <= |Joined(a + b)|
  {
    if a != [] {
      assert (a + b)[1..] == a[1..] + b;
      JoinedGrows(a[1..], b);
    }
  }

  // ----- the longest tail that fits ----------------------------------------------------------

  /** Drops the oldest turns one by one until the rest fits; a single turn that does not fit is an error. */
  function Fit(rows: seq<Row>, target: nat): (r: Option<seq<Row>>)
    ensures r.Some? ==> r.value != [] && |r.value| <= |rows|
  {
    if rows == [] then None else
    if Size(rows) <= target then Some(rows) else Fit(rows[1..], target)
  }

  /** How many of the oldest turns are dropped. */
  function Dropped(rows: seq<Row>, target: nat): nat
    requires Fit(rows, target).Some?
  {
    |rows| - |Fit(rows, target).value|
  }

  /** Exactly when some non-empty tail fits, the longest such tail is kept. */
  lemma {:induction false} FitIsLongest(rows: seq<Row>, target: nat)
    ensures Fit(rows, target).Some? <==> exists n: nat :: n < |rows| && Size(rows[n..]) <= target
    ensures Fit(rows, target).Some? ==>
              var n := Dropped(rows, target);
              && n < |rows| && Fit(rows, target).value == rows[n..] && Size(rows[n..]) <= target
              && forall m: nat :: m < n ==> Size(rows[m..]) > target
    decreases |rows|
  {
    if rows != [] {
      assert rows[0..] == rows;
      if Size(rows) > target {
        FitRest(rows, target);
      }
    }
  }

  lemma {:induction false} FitRest(rows: seq<Row>, target: nat)
    requires rows != [] && Size(rows) > target
    ensures Fit(rows, target).Some? <==> exists n: nat :: n < |rows| && Size(rows[n..]) <= target
    ensures Fit(rows, target).Some? ==>
              var n := Dropped(rows, target);
              && n < |rows| && Fit(rows, target).value == rows[n..] && Size(rows[n..]) <= target
              && forall m: nat :: m < n ==> Size(rows[m..]) > target
    decreases |rows|, 0
  {
    var rest := rows[1..];
    assert rows[0..] == rows;
    FitIsLongest(rest, target);
    forall n: nat | n < |rest| ensures rest[n..] == rows[n + 1..] {
    }
    if n: nat :| n < |rows| && Size(rows[n..]) <= target {
      assert rest[n - 1..] == rows[n..];
    }
    if Fit(rows, target).Some? {
      var n := Dropped(rows, target);
      assert Dropped(rest, target) == n - 1;
      forall m: nat | m < n ensures Size(rows[m..]) > target {
        if m > 0 {
          assert rest[m - 1..] == rows[m..];
        }
      }
    }
  }

  // ----- the reducer -------------------------------------------------------------------------

  predicate Interpretable(p: Previous) {
    p.kind == FORMAT && p.version == VERSION && p.turns.Some?
  }

  function KeptTurns(previous: Option<Previous>): seq<Row>
    requires previous.Some? ==> Interpretable(previous.value)
  {
    if previous.Some? then previous.value.turns.value else []
  }

  /** The turn at index i carries a sequence number above that of the turn before it. */
  predicate Follows(rows: seq<Row>, i: nat)
    requires i < |rows|
  {
    && rows[i].sequence.Some?
    && (i > 0 ==> rows[i - 1].sequence.Some? && rows[i - 1].sequence.value < rows[i].sequence.value)
  }

  ghost predicate Increasing(rows: seq<Row>, n: nat) {
    forall i {:trigger Follows(rows, i)} :: n <= i < |rows| ==> Follows(rows, i)
  }

  /** Appends the eligible turns to the kept ones, as long as their sequence numbers increase. */
  method Collect(kept: seq<Row>, eligible: seq<Row>) returns (turns: seq<Row>, failure: Option<Failure>)
    ensures failure.None? <==> Increasing(kept + eligible, |kept|)
    ensures failure.None? ==> turns == kept + eligible
    ensures failure != Some(Capacity)
  {
    ghost var all := kept + eligible;
    turns, failure := kept, None;
    for i := 0 to |eligible|
      invariant turns == kept + eligible[..i]
      invariant forall j {:trigger Follows(all, j)} :: |kept| <= j < |kept| + i ==> Follows(all, j)
    {
      ghost var at := |kept| + i;
      assert all[at] == eligible[i] && (at > 0 ==> all[at - 1] == turns[at - 1]);
      assert Increasing(all, |kept|) ==> Follows(all, at);
      if eligible[i].sequence.None? {
        return turns, Some(Invalid);
      }
      if turns != [] {
        if turns[|turns| - 1].sequence.None? {
          return turns, Some(Broken);
        }
        if eligible[i].sequence.value <= turns[|turns| - 1].sequence.value {
          return turns, Some(Unordered);
        }
      }
      turns := turns + [eligible[i]];
    }
  }

  /** Erases from the front until the payload fits. */
  method Trim(all: seq<Row>, target: nat) returns (r: Result)
    ensures r == match Fit(all, target) case Some(turns) => Reduced(turns) case None => Failed(Capacity)
  {
    var turns := all;
    while turns != []
      invariant Fit(turns, target) == Fit(all, target)
    {
      if Size(turns) <= target {
        return Reduced(turns);
      }
      if |turns| == 1 {
        break;
      }
      turns := turns[1..];
    }
    return Failed(Capacity);
  }

  /** What the reducer asks of a request before it looks for a tail that fits. */
  ghost predicate WellFormed(previous: Option<Previous>, eligible: seq<Row>, target: nat) {
    && target > 0
    && (previous.Some? ==> Interpretable(previous.value))
    && Increasing(KeptTurns(previous) + eligible, |KeptTurns(previous)|)
  }

  /**
   * Reduces the previous generation and the turns since then: a well-formed request gives the
   * longest tail of both together that fits, or the capacity error exactly when none does.
   */
  method Reduce(previous: Option<Previous>, eligible: seq<Row>, target: nat) returns (r: Result)
    ensures WellFormed(previous, eligible, target) ==>
              r == match Fit(KeptTurns(previous) + eligible, target)
                   case Some(turns) => Reduced(turns) case None => Failed(Capacity)
    ensures !WellFormed(previous, eligible, target) ==> r.Failed? && r.failure != Capacity
  {
    if target == 0 {
      return Failed(Invalid);
    }
    var turns := [];
    if previous.Some? {
      if previous.value.kind != FORMAT || previous.value.version != VERSION || previous.value.turns.None? {
        return Failed(Uninterpretable);
      }
      turns := previous.value.turns.value;
    }
    var failure;
    turns, failure := Collect(turns, eligible);
    if failure.Some? {
      return Failed(failure.value);
    }
    r := Trim(turns, target);
  }

  // ----- chained reductions ------------------------------------------------------------------

  /** Any prefix of the turns to drop may be dropped beforehand. */
  lemma {:induction false} FitAfterDrop(rows: seq<Row>, target: nat, n: nat)
    requires n <= |rows|
    requires forall m: nat :: m < n ==> Size(rows[m..]) > target
    ensures Fit(rows[n..], target) == Fit(rows, target)
    decreases n
  {
    assert rows[0..] == rows;
    if n > 0 {
      FitAfterDrop(rows, target, n - 1);
      assert rows[n - 1..][1..] == rows[n..];
    }
  }

  lemma {:induction false} LongerIsLarger(rows: seq<Row>, m: nat, n: nat)
    requires m <= n < |rows|
    ensures Size(rows[n..]) <= Size(rows[m..])
    decreases n - m
  {
    if m < n {
      LongerIsLarger(rows, m + 1, n);
      assert rows[m..][1..] == rows[m + 1..];
      SizeShrinks(rows[m..]);
    }
  }

  /**
   * Reducing in two stages equals reducing the full history at once exactly when the oldest turn
   * dropped by the first stage could not come back: the second budget does not hold it together
   * with everything after it.
   */
  lemma {:induction false} ChainExact(earlier: seq<Row>, later: seq<Row>, first: nat, second: nat)
    requires Fit(earlier, first).Some?
    ensures var n := Dropped(earlier, first);
            Fit(Fit(earlier, first).value + later, second) == Fit(earlier + later, second) <==>
            n == 0 || Size(earlier[n - 1..] + later) > second
  {
    var n := Dropped(earlier, first);
    var all := earlier + later;
    FitTail(earlier, first);
    assert all[n..] == Fit(earlier, first).value + later;
    if n == 0 {
      assert all[0..] == all;
    } else {
      assert all[n - 1..] == earlier[n - 1..] + later;
      DropIsExact(all, second, n);
    }
  }

  lemma {:induction false} FitTail(rows: seq<Row>, target: nat)
    requires Fit(rows, target).Some?
    ensures 0 <= Dropped(rows, target) < |rows| && Fit(rows, target).value == rows[Dropped(rows, target)..]
  {
    FitIsLongest(rows, target);
  }

  /** Dropping the first n rows beforehand is unnoticed exactly when the tail with one more does not fit. */
  lemma {:induction false} DropIsExact(rows: seq<Row>, target: nat, n: nat)
    requires 0 < n <= |rows|
    ensures Fit(rows[n..], target) == Fit(rows, target) <==> Size(rows[n - 1..]) > target
  {
    if Size(rows[n - 1..]) > target {
      forall m: nat | m < n ensures Size(rows[m..]) > target {
        LongerIsLarger(rows, m, n - 1);
      }
      FitAfterDrop(rows, target, n);
    } else {
      FitIsLongest(rows, target);
      assert Dropped(rows, target) <= n - 1;
      assert |Fit(rows, target).value| > |rows[n..]|;
    }
  }

  /** With a budget that does not grow, the second stage loses nothing. */
  lemma {:induction false} ChainShrinking(earlier: seq<Row>, later: seq<Row>, first: nat, second: nat)
    requires Fit(earlier, first).Some? && second <= first
    ensures Fit(Fit(earlier, first).value + later, second) == Fit(earlier + later, second)
  {
    var n := Dropped(earlier, first);
    FitIsLongest(earlier, first);
    if n > 0 {
      JoinedGrows(earlier[n - 1..], later);
    }
    ChainExact(earlier, later, first, second);
  }

  function Concat(batches: seq<seq<Row>>): seq<Row> {
    if batches == [] then [] else Concat(batches[..|batches| - 1]) + batches[|batches| - 1]
  }

  /** One generation per batch, each built from the one before. */
  function Chain(batches: seq<seq<Row>>, budgets: seq<nat>): Option<seq<Row>>
    requires |batches| == |budgets|
  {
    if batches == [] then Some([]) else
    var n := |batches| - 1;
    match Chain(batches[..n], budgets[..n])
    case None => None
    case Some(kept) => Fit(kept + batches[n], budgets[n])
  }

  ghost predicate NonIncreasing(budgets: seq<nat>) {
    forall i, j :: 0 <= i < j < |budgets| ==> budgets[j] <= budgets[i]
  }

  /** Every generation of a chain with non-increasing budgets is the one-shot reduction of the full history so far. */
  lemma {:induction false} ChainIsOneShot(batches: seq<seq<Row>>, budgets: seq<nat>)
    requires |batches| == |budgets| > 0 && NonIncreasing(budgets)
    ensures var n := |batches| - 1;
            Chain(batches, budgets) ==
            if n > 0 && Chain(batches[..n], budgets[..n]).None? then None else Fit(Concat(batches), budgets[n])
  {
    var n := |batches| - 1;
    if n == 0 {
      assert Chain(batches[..n], budgets[..n]) == Some([]);
      assert [] + batches[0] == batches[0] == Concat(batches) by {
        assert Concat(batches[..0]) == [];
      }
    } else if Chain(batches[..n], budgets[..n]).Some? {
      ChainIsOneShot(batches[..n], budgets[..n]);
      ChainShrinking(Concat(batches[..n]), batches[n], budgets[n - 1], budgets[n]);
    }
  }

  /**
   * With a growing budget the property fails, on every three turns: the first, dropped while the
   * budget holds one turn, does not come back when it holds all three.
   */
  lemma {:induction false} GrowingBudgetForgets(a: Row, b: Row, c: Row)
    ensures var batches, budgets := [[a, b], [c]], [Size([b]), Size([a, b, c])];
            && Chain(batches, budgets) == Some([b, c])
            && Fit(Concat(batches), budgets[1]) == Some([a, b, c])
  {
    var batches, budgets := [[a, b], [c]], [Size([b]), Size([a, b, c])];
    assert [a, b][1..] == [b] && [a, b, c][1..] == [b, c];
    SizeShrinks([a, b]);
    SizeShrinks([a, b, c]);
    var early := batches[..1];
    assert Concat(early) == [a, b] by { assert early[..0] == [] && Concat(early[..0]) == []; }
    assert Concat(batches) == [a, b, c];
    assert Fit([a, b], Size([b])) == Some([b]);
    assert Chain(early, budgets[..1]) == Some([b]) by {
      assert early[..0] == [] && budgets[..1][..0] == [];
      assert [] + early[0] == [a, b];
    }
    assert [b] + [c] == [b, c];
  }
}
