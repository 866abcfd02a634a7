/** The step limit that concurrent branches share: an interleaving fails by it exactly when their work exceeds it. */
module BranchLimits {
  import opened Options
  import opened Pipeline
  import opened TokenMachine
  import opened Branches
  import opened ConcurrentBranches
  import C = ConcurrentBranches
  import E = EdgeBudgets

  /** The branch reaches a join after so many more executions. */
  ghost predicate Needs(p: PipelineDefinition, b: Behaviour, r: Branch, turns: nat) {
    exists end :: E.Reaches(p, b, r, turns, end)
  }

  function Sum(xs: seq<nat>): nat {
    if xs == [] then 0 else Sum(xs[..|xs| - 1]) + xs[|xs| - 1]
  }

  lemma {:induction false} SumSet(xs: seq<nat>, j: nat, x: nat)
    requires j < |xs|
    ensures Sum(xs[j := x]) + xs[j] == Sum(xs) + x
  {
    var n := |xs| - 1;
    if j < n {
      SumSet(xs[..n], j, x);
      assert xs[j := x][..n] == xs[..n][j := x];
    } else {
      assert xs[j := x][..n] == xs[..n];
    }
  }

  lemma {:induction false} SumAtLeast(xs: seq<nat>, j: nat)
    requires j < |xs|
    ensures xs[j] <= Sum(xs)
  {
    var n := |xs| - 1;
    if j < n {
      SumAtLeast(xs[..n], j);
    }
  }

  lemma {:induction false} SumZero(xs: seq<nat>)
    requires forall j :: 0 <= j < |xs| ==> xs[j] == 0
    ensures Sum(xs) == 0
  {
    if xs != [] {
      SumZero(xs[..|xs| - 1]);
    }
  }

  /** What branch j still has to execute. */
  ghost predicate LeftAt(p: PipelineDefinition, b: Behaviour, s: ParallelState, left: seq<nat>, j: nat)
    requires j < |left| == |s.coroutines|
  {
    match s.coroutines[j]
    case Active(branch) => Needs(p, b, branch, left[j])
    case Ended => left[j] == 0
  }

  /** The steps taken and those still needed make up the given work. */
  ghost predicate Accounts(p: PipelineDefinition, b: Behaviour, maxSteps: nat, s: ParallelState, left: seq<nat>,
                           first: nat, work: nat)
  {
    && |left| == |s.coroutines|
    && (forall j {:trigger LeftAt(p, b, s, left, j)} :: 0 <= j < |left| ==> LeftAt(p, b, s, left, j))
    && s.steps + Sum(left) == first + work
    && first <= s.steps && (s.steps == first || s.steps <= maxSteps)
  }

  ghost predicate Fits(maxSteps: nat, first: nat, work: nat) {
    work == 0 || first + work <= maxSteps
  }

  /** One turn either keeps the account or, beyond the limit, fails. */
  lemma TurnAccounts(p: PipelineDefinition, b: Behaviour, maxSteps: nat, tokens: seq<Token>, starts: seq<Place>,
                     s: ParallelState, left: seq<nat>, first: nat, work: nat, turn: Turn) returns (next: seq<nat>)
    requires InOrder(tokens, starts) && Inv(p, b, starts, s) && !s.failed && turn.Go?
    requires Accounts(p, b, maxSteps, s, left, first, work)
    ensures var t := C.Step(p, b, maxSteps, tokens, s, turn);
            && (t.failed ==> !Fits(maxSteps, first, work))
            && (!t.failed ==> Accounts(p, b, maxSteps, t, next, first, work))
  {
    next := left;
    var j := turn.branch;
    if j < |left| && s.coroutines[j].Active? {
      var branch := s.coroutines[j].branch;
      assert LeftAt(p, b, s, left, j);
      var end :| E.Reaches(p, b, branch, left[j], end);
      if left[j] == 0 {
        ArriveKeeps(p, b, tokens, starts, s, j);
        var t := C.Step(p, b, maxSteps, tokens, s, turn);
        KeepsOthers(p, b, s, t, left, left, j);
        assert Accounts(p, b, maxSteps, t, left, first, work);
      } else {
        SumAtLeast(left, j);
        if s.steps < maxSteps {
          next := left[j := left[j] - 1];
          SumSet(left, j, left[j] - 1);
          var t := C.Step(p, b, maxSteps, tokens, s, turn);
          assert E.Reaches(p, b, BranchPass(p, b, branch).branch, left[j] - 1, end);
          KeepsOthers(p, b, s, t, left, next, j);
          assert Accounts(p, b, maxSteps, t, next, first, work);
        } else {
          assert C.Step(p, b, maxSteps, tokens, s, turn).failed;
        }
      }
    }
  }

  lemma KeepsOthers(p: PipelineDefinition, b: Behaviour, s: ParallelState, t: ParallelState, left: seq<nat>,
                    next: seq<nat>, j: nat)
    requires |left| == |next| == |s.coroutines| == |t.coroutines| && j < |left|
    requires forall i {:trigger LeftAt(p, b, s, left, i)} :: 0 <= i < |left| ==> LeftAt(p, b, s, left, i)
    requires LeftAt(p, b, t, next, j)
    requires forall i :: 0 <= i < |left| && i != j ==> t.coroutines[i] == s.coroutines[i] && next[i] == left[i]
    ensures forall i {:trigger LeftAt(p, b, t, next, i)} :: 0 <= i < |next| ==> LeftAt(p, b, t, next, i)
  {
    forall i {:trigger LeftAt(p, b, t, next, i)} | 0 <= i < |next| ensures LeftAt(p, b, t, next, i) {
      assert LeftAt(p, b, s, left, i);
    }
  }

  /** Failure lasts, and executes nothing. */
  lemma FailedStays(p: PipelineDefinition, b: Behaviour, maxSteps: nat, tokens: seq<Token>, s: ParallelState,
                    turn: Turn)
    requires |tokens| == |s.coroutines| && s.failed
    ensures C.Step(p, b, maxSteps, tokens, s, turn).failed
    ensures C.Step(p, b, maxSteps, tokens, s, turn).steps == s.steps
  {
  }

  /** Once a branch has failed, no branch executes another node. */
  lemma {:induction false} StopsAfterFailure(p: PipelineDefinition, b: Behaviour, maxSteps: nat, tokens: seq<Token>,
                                             first: nat, turns: seq<Turn>, n: nat)
    requires n <= |turns| && Run(p, b, maxSteps, tokens, first, turns[..n]).failed
    ensures Run(p, b, maxSteps, tokens, first, turns).failed
    ensures Run(p, b, maxSteps, tokens, first, turns).steps == Run(p, b, maxSteps, tokens, first, turns[..n]).steps
    decreases |turns|
  {
    if n == |turns| {
      assert turns[..n] == turns;
    } else {
      var front := turns[..|turns| - 1];
      assert front[..n] == turns[..n];
      StopsAfterFailure(p, b, maxSteps, tokens, first, front, n);
      FailedStays(p, b, maxSteps, tokens, Run(p, b, maxSteps, tokens, first, front), turns[|turns| - 1]);
    }
  }

  predicate NoBreaks(turns: seq<Turn>) {
    forall i :: 0 <= i < |turns| ==> turns[i].Go?
  }

  lemma {:induction false} RunAccounts(p: PipelineDefinition, b: Behaviour, maxSteps: nat, tokens: seq<Token>,
                                       starts: seq<Place>, needs: seq<nat>, first: nat, turns: seq<Turn>)
    returns (left: seq<nat>)
    requires InOrder(tokens, starts) && |needs| == |starts| && NoBreaks(turns)
    requires forall j :: 0 <= j < |starts| ==> Needs(p, b, Fresh(starts[j]), needs[j])
    ensures var s := Run(p, b, maxSteps, tokens, first, turns);
            && (s.failed ==> !Fits(maxSteps, first, Sum(needs)))
            && (!s.failed ==> Accounts(p, b, maxSteps, s, left, first, Sum(needs)))
  {
    if turns == [] {
      left := needs;
      var s := Begin(tokens, first);
      forall j {:trigger LeftAt(p, b, s, left, j)} | 0 <= j < |left| ensures LeftAt(p, b, s, left, j) {
      }
    } else {
      var front, last := turns[..|turns| - 1], turns[|turns| - 1];
      left := RunAccounts(p, b, maxSteps, tokens, starts, needs, first, front);
      var s := Run(p, b, maxSteps, tokens, first, front);
      if s.failed {
        FailedStays(p, b, maxSteps, tokens, s, last);
      } else {
        RunKeeps(p, b, maxSteps, tokens, starts, first, front);
        left := TurnAccounts(p, b, maxSteps, tokens, starts, s, left, first, Sum(needs), last);
      }
    }
  }

  /**
   * When every branch reaches a join after so many executions and nothing fails from outside, an
   * interleaving in which all branches have ended succeeded if and only if the executions fit under
   * the limit together with the steps before; without failure it has counted them exactly.
   */
  lemma {:induction false} SucceedsIffFits(p: PipelineDefinition, b: Behaviour, maxSteps: nat, tokens: seq<Token>,
                                           starts: seq<Place>, needs: seq<nat>, first: nat, turns: seq<Turn>)
    requires InOrder(tokens, starts) && |needs| == |starts| && NoBreaks(turns)
    requires forall j :: 0 <= j < |starts| ==> Needs(p, b, Fresh(starts[j]), needs[j])
    requires var s := Run(p, b, maxSteps, tokens, first, turns); s.completed == |s.outputs|
    ensures var s := Run(p, b, maxSteps, tokens, first, turns);
            && (Succeeded(s) <==> Fits(maxSteps, first, Sum(needs)))
            && (Succeeded(s) ==> s.steps == first + Sum(needs))
  {
    var s := Run(p, b, maxSteps, tokens, first, turns);
    var left := RunAccounts(p, b, maxSteps, tokens, starts, needs, first, turns);
    RunKeeps(p, b, maxSteps, tokens, starts, first, turns);
    CountAll(s.coroutines);
    if !s.failed {
      forall j | 0 <= j < |left| ensures left[j] == 0 {
        assert LeftAt(p, b, s, left, j);
      }
      SumZero(left);
    }
  }
}
