/** What accepted results do to an account over a run: its failure count and its suspension,
    as long as nothing else writes to the accounts. */
module CentralAccounts {
  import opened CentralModel

  /** The step is an accepted result for this account. */
  predicate Reports(s: State, a: Action, key: (string, string)) {
    a.Submit? && Acceptable(s, a.tenant, a.message) && key == (a.tenant, s.subtasks[a.message.subtask].account)
  }

  /** The results accepted for an account along a run, oldest first; true is success. */
  ghost function Outcomes(s: State, trace: seq<Action>, key: (string, string)): seq<bool> {
    if trace == [] then []
    else
      var front, last := trace[..|trace| - 1], trace[|trace| - 1];
      Outcomes(s, front, key) + if Reports(Run(s, front), last, key) then [last.message.success] else []
  }

  /** Failures in a row at the end, counted on from `initial` when all are failures. */
  function Streak(initial: nat, outcomes: seq<bool>): nat {
    if outcomes == [] then initial
    else if outcomes[|outcomes| - 1] then 0
    else Streak(initial, outcomes[..|outcomes| - 1]) + 1
  }

  /** The last `n` outcomes are failures. */
  predicate EndsInFailures(outcomes: seq<bool>, n: nat) {
    n <= |outcomes| && forall i :: |outcomes| - n <= i < |outcomes| ==> !outcomes[i]
  }

  /** From a clean count, the streak is the number of failures since the last success. */
  lemma {:induction false} StreakIsTrailingFailures(outcomes: seq<bool>)
    ensures EndsInFailures(outcomes, Streak(0, outcomes))
    ensures Streak(0, outcomes) < |outcomes| ==> outcomes[|outcomes| - Streak(0, outcomes) - 1]
  {
    if outcomes != [] && !outcomes[|outcomes| - 1] {
      StreakIsTrailingFailures(outcomes[..|outcomes| - 1]);
    }
  }

  lemma {:induction false} FailuresMakeStreak(initial: nat, outcomes: seq<bool>, n: nat)
    requires EndsInFailures(outcomes, n)
    ensures Streak(initial, outcomes) >= n
  {
    if n > 0 {
      assert !outcomes[|outcomes| - 1];
      FailuresMakeStreak(initial, outcomes[..|outcomes| - 1], n - 1);
    }
  }

  /** Somewhere along the outcomes the streak reached the threshold. */
  ghost predicate Struck(initial: nat, outcomes: seq<bool>) {
    exists i :: 0 < i <= |outcomes| && Streak(initial, outcomes[..i]) >= CIRCUIT_BREAKER
  }

  lemma StruckStep(initial: nat, outcomes: seq<bool>, last: bool)
    ensures Struck(initial, outcomes + [last]) <==>
      Struck(initial, outcomes) || Streak(initial, outcomes + [last]) >= CIRCUIT_BREAKER
  {
    var all := outcomes + [last];
    if Struck(initial, outcomes) {
      var i :| 0 < i <= |outcomes| && Streak(initial, outcomes[..i]) >= CIRCUIT_BREAKER;
      assert all[..i] == outcomes[..i];
    }
    if Struck(initial, all) {
      var i :| 0 < i <= |all| && Streak(initial, all[..i]) >= CIRCUIT_BREAKER;
      if i == |all| {
        assert all[..i] == all;
      } else {
        assert all[..i] == outcomes[..i];
      }
    }
    assert all[..|all|] == all;
  }

  /** The account after one more step. */
  lemma AccountMove(s: State, a: Action, key: (string, string))
    requires key in s.accounts && !a.AccountsChange?
    ensures key in Step(s, a).accounts
    ensures
      var before, after := s.accounts[key], Step(s, a).accounts[key];
      if !Reports(s, a, key) then after == before
      else
        && after.failures == (if a.message.success then 0 else before.failures + 1)
        && (after.business == Suspended <==> before.business == Suspended || after.failures >= CIRCUIT_BREAKER)
  {
  }

  /** Over every run in which only results write to the accounts: an account's failure count
      is its streak, and it is suspended exactly when it was at the start or the streak
      reached three, whatever came after. */
  lemma {:induction false} SuspendedIff(s: State, trace: seq<Action>, key: (string, string))
    requires key in s.accounts && forall a :: a in trace ==> !a.AccountsChange?
    ensures key in Run(s, trace).accounts
    ensures
      var before, after := s.accounts[key], Run(s, trace).accounts[key];
      && after.failures == Streak(before.failures, Outcomes(s, trace, key))
      && (after.business == Suspended <==>
           before.business == Suspended || Struck(before.failures, Outcomes(s, trace, key)))
  {
    if trace != [] {
      var front, last := trace[..|trace| - 1], trace[|trace| - 1];
      assert last in trace;
      SuspendedIff(s, front, key);
      AccountMove(Run(s, front), last, key);
      if Reports(Run(s, front), last, key) {
        OneMoreOutcome(s.accounts[key].failures, Outcomes(s, front, key), last);
        assert Outcomes(s, trace, key) == Outcomes(s, front, key) + [last.message.success];
      } else {
        assert Outcomes(s, trace, key) == Outcomes(s, front, key);
      }
    }
  }

  lemma OneMoreOutcome(initial: nat, outcomes: seq<bool>, a: Action)
    ensures a.Submit? ==>
      var all := outcomes + [a.message.success];
      && Streak(initial, all) == (if a.message.success then 0 else Streak(initial, outcomes) + 1)
      && (Struck(initial, all) <==> Struck(initial, outcomes) || Streak(initial, all) >= CIRCUIT_BREAKER)
  {
    if a.Submit? {
      var all := outcomes + [a.message.success];
      assert all[..|outcomes|] == outcomes;
      StruckStep(initial, outcomes, a.message.success);
    }
  }

  /** Three failures in a row, at any point of the run, leave the account suspended. */
  lemma ThreeInARowSuspend(s: State, trace: seq<Action>, key: (string, string), i: nat)
    requires key in s.accounts && forall a :: a in trace ==> !a.AccountsChange?
    requires i <= |Outcomes(s, trace, key)| && EndsInFailures(Outcomes(s, trace, key)[..i], CIRCUIT_BREAKER)
    ensures key in Run(s, trace).accounts && Run(s, trace).accounts[key].business == Suspended
  {
    SuspendedIff(s, trace, key);
    FailuresMakeStreak(s.accounts[key].failures, Outcomes(s, trace, key)[..i], CIRCUIT_BREAKER);
  }

  /** From the third failure in a row on, whatever else happens in the run, no ordinary subtask
      of the account is dispatched. */
  lemma ThreeFailuresStopDispatch(
    s: State, trace: seq<Action>, key: (string, string), i: nat, id: string, now: int)
    requires key in s.accounts && forall a :: a in trace ==> !a.AccountsChange?
    requires i <= |Outcomes(s, trace, key)| && EndsInFailures(Outcomes(s, trace, key)[..i], CIRCUIT_BREAKER)
    requires id in Run(s, trace).subtasks && !Run(s, trace).subtasks[id].probe
    requires key == (Run(s, trace).subtasks[id].tenant, Run(s, trace).subtasks[id].account)
    ensures Step(Run(s, trace), Dispatch(id, now)) == Run(s, trace)
  {
    ThreeInARowSuspend(s, trace, key, i);
  }
}
