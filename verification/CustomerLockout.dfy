/** How many wrong passwords one customer's login will compare, over runs of the whole portal. */
module CustomerLockout {
  import opened Clock
  import opened Option
  import opened Portal
  import opened AuthService
  import opened PortalRuns

  function At(c: Call): int {
    c.now
  }

  predicate LogsIn(call: Call, c: Id) {
    call.op.CustomerLogin? && call.op.customer == c
  }

  /** A password that is looked at, right or wrong: the account exists, has one, and is not locked. */
  predicate Compares(s: State, call: Call, c: Id) {
    LogsIn(call, c) && call.op.password.Some? && c in s.customers && !LockedOut(s.customers[c], call.now)
  }

  /** A wrong password that is looked at. */
  predicate Guesses(s: State, call: Call, c: Id) {
    Compares(s, call, c) && call.op.password == Some(false)
  }

  /** How many passwords for `c`, right or wrong, a run compares at times in [lo, hi). */
  ghost function CompareCount(cfg: Config, s: State, calls: seq<Call>, c: Id, lo: int, hi: int): nat
    decreases |calls|
  {
    if calls == [] then 0
    else
      (if Compares(s, calls[0], c) && lo <= calls[0].now < hi then 1 else 0) +
      CompareCount(cfg, Step(cfg, s, calls[0]), calls[1..], c, lo, hi)
  }

  /** How many wrong passwords for `c` a run compares at times in [lo, hi). */
  ghost function GuessCount(cfg: Config, s: State, calls: seq<Call>, c: Id, lo: int, hi: int): nat
    decreases |calls|
  {
    if calls == [] then 0
    else
      (if Guesses(s, calls[0], c) && lo <= calls[0].now < hi then 1 else 0) +
      GuessCount(cfg, Step(cfg, s, calls[0]), calls[1..], c, lo, hi)
  }

  /** No call of the run shows the right password. */
  ghost predicate NeverRight(calls: seq<Call>, c: Id) {
    forall i :: 0 <= i < |calls| && LogsIn(calls[i], c) ==> calls[i].op.password != Some(true)
  }

  function Failures(s: State, c: Id): nat {
    if c in s.customers then s.customers[c].failures else 0
  }

  ghost predicate CountsBelowLimit(s: State) {
    forall c :: c in s.customers ==> s.customers[c].failures < PASSWORD_MAX_ATTEMPTS
  }

  /** A customer's login counters move only when that customer logs in. */
  lemma StepKeepsCounters(cfg: Config, s: State, call: Call, c: Id)
    requires !LogsIn(call, c)
    ensures var t := Step(cfg, s, call);
            if c in s.customers then
              c in t.customers && t.customers[c].failures == s.customers[c].failures && t.customers[c].lockedUntil == s.customers[c].lockedUntil
            else c in t.customers ==> t.customers[c].failures == 0 && t.customers[c].lockedUntil == None
  {
    if IsSessionOp(call.op) {
      if call.op.CustomerLogin? {
        LoginMovesOwnRow(cfg, s, call, c);
      } else {
        SessionsKeepCustomers(cfg, s, call);
      }
    } else if IsStaffOp(call.op) {
      assert Step(cfg, s, call).customers == s.customers;
    } else {
      AssignmentsKeepCounters(cfg, s, call, c);
    }
  }

  lemma SessionsKeepCustomers(cfg: Config, s: State, call: Call)
    requires IsSessionOp(call.op) && !call.op.CustomerLogin?
    ensures Step(cfg, s, call).customers == s.customers
  {
  }

  lemma LoginMovesOwnRow(cfg: Config, s: State, call: Call, c: Id)
    requires call.op.CustomerLogin? && call.op.customer != c
    ensures Step(cfg, s, call).customers.Keys == s.customers.Keys
    ensures c in s.customers ==> Step(cfg, s, call).customers[c] == s.customers[c]
  {
  }

  lemma AssignmentsKeepCounters(cfg: Config, s: State, call: Call, c: Id)
    requires !IsSessionOp(call.op) && !IsStaffOp(call.op)
    ensures var t := Step(cfg, s, call);
            if c in s.customers then
              c in t.customers && t.customers[c].failures == s.customers[c].failures && t.customers[c].lockedUntil == s.customers[c].lockedUntil
            else c in t.customers ==> t.customers[c].failures == 0 && t.customers[c].lockedUntil == None
  {
  }

  lemma LoginMovesCounters(cfg: Config, s: State, call: Call, c: Id)
    requires LogsIn(call, c)
    ensures Step(cfg, s, call).customers.Keys == s.customers.Keys
    ensures c in s.customers ==>
              var row, t := s.customers[c], Step(cfg, s, call).customers[c];
              if call.op.password.None? || LockedOut(row, call.now) then t == row
              else if call.op.password.value then t.failures == 0 && t.lockedUntil == None
              else t == WrongPassword(row, call.now)
  {
  }

  lemma StepKeepsCounts(cfg: Config, s: State, call: Call)
    requires CountsBelowLimit(s)
    ensures CountsBelowLimit(Step(cfg, s, call))
  {
    var t := Step(cfg, s, call);
    forall c | c in t.customers
      ensures t.customers[c].failures < PASSWORD_MAX_ATTEMPTS
    {
      if LogsIn(call, c) {
        LoginMovesCounters(cfg, s, call, c);
      } else {
        StepKeepsCounters(cfg, s, call, c);
      }
    }
  }

  lemma {:induction false} NothingBefore(cfg: Config, s: State, calls: seq<Call>, c: Id, lo: int, hi: int)
    requires Clocked(At, hi, calls)
    ensures CompareCount(cfg, s, calls, c, lo, hi) == 0
    decreases |calls|
  {
    if calls != [] {
      NothingBefore(cfg, Step(cfg, s, calls[0]), calls[1..], c, lo, hi);
    }
  }

  lemma {:induction false} GuessesAreCompared(cfg: Config, s: State, calls: seq<Call>, c: Id, lo: int, hi: int)
    ensures GuessCount(cfg, s, calls, c, lo, hi) <= CompareCount(cfg, s, calls, c, lo, hi)
    decreases |calls|
  {
    if calls != [] {
      GuessesAreCompared(cfg, Step(cfg, s, calls[0]), calls[1..], c, lo, hi);
    }
  }

  /** While the lock lasts, no password is looked at, the right one included. */
  lemma {:induction false} NothingWhileLocked(cfg: Config, s: State, calls: seq<Call>, c: Id, start: int, lo: int, hi: int)
    requires Clocked(At, start, calls) && c in s.customers && s.customers[c].lockedUntil.Some? && hi <= s.customers[c].lockedUntil.value
    ensures CompareCount(cfg, s, calls, c, lo, hi) == 0
    decreases |calls|
  {
    if calls != [] {
      var call := calls[0];
      if call.now >= hi {
        NothingBefore(cfg, s, calls, c, lo, hi);
      } else {
        if LogsIn(call, c) {
          LoginMovesCounters(cfg, s, call, c);
        } else {
          StepKeepsCounters(cfg, s, call, c);
        }
        NothingWhileLocked(cfg, Step(cfg, s, call), calls[1..], c, call.now, lo, hi);
      }
    }
  }

  /** From an instant on, one lock's length compares no more than what is left before the lock. */
  lemma {:induction false} FromInstant(cfg: Config, s: State, calls: seq<Call>, c: Id, lo: int)
    requires Clocked(At, lo, calls) && NeverRight(calls, c) && CountsBelowLimit(s)
    ensures GuessCount(cfg, s, calls, c, lo, lo + PASSWORD_LOCK_MS) <= PASSWORD_MAX_ATTEMPTS - Failures(s, c)
    decreases |calls|
  {
    if calls != [] {
      var call, t, hi := calls[0], Step(cfg, s, calls[0]), lo + PASSWORD_LOCK_MS;
      StepKeepsCounts(cfg, s, call);
      if LogsIn(call, c) {
        LoginMovesCounters(cfg, s, call, c);
      } else {
        StepKeepsCounters(cfg, s, call, c);
      }
      if Guesses(s, call, c) && s.customers[c].failures + 1 >= PASSWORD_MAX_ATTEMPTS {
        NothingWhileLocked(cfg, t, calls[1..], c, call.now, lo, hi);
        GuessesAreCompared(cfg, t, calls[1..], c, lo, hi);
      } else {
        FromInstant(cfg, t, calls[1..], c, lo);
      }
    }
  }

  lemma {:induction false} AnyInterval(cfg: Config, s: State, calls: seq<Call>, c: Id, start: int, lo: int)
    requires Clocked(At, start, calls) && NeverRight(calls, c) && CountsBelowLimit(s)
    ensures GuessCount(cfg, s, calls, c, lo, lo + PASSWORD_LOCK_MS) <= PASSWORD_MAX_ATTEMPTS
    decreases |calls|
  {
    if calls == [] {
    } else if lo <= calls[0].now {
      FromInstant(cfg, s, calls, c, lo);
    } else {
      StepKeepsCounts(cfg, s, calls[0]);
      AnyInterval(cfg, Step(cfg, s, calls[0]), calls[1..], c, calls[0].now, lo);
    }
  }

  /**
   * Over every run of the portal in which the right password is never shown,
   * any half hour compares at most five passwords for one customer, whatever
   * all the other calls do.
   */
  lemma AtMostFiveGuesses(cfg: Config, calls: seq<Call>, c: Id, start: int, lo: int)
    requires Clocked(At, start, calls) && NeverRight(calls, c)
    ensures GuessCount(cfg, EMPTY, calls, c, lo, lo + PASSWORD_LOCK_MS) <= 5
  {
    AnyInterval(cfg, EMPTY, calls, c, start, lo);
  }

  // ---------------------------------------------------------------- a lock has its cause, and ends

  lemma {:induction false} RunAppend(cfg: Config, s: State, calls: seq<Call>, call: Call)
    ensures Run(cfg, s, calls + [call]) == Step(cfg, Run(cfg, s, calls), call)
    decreases |calls|
  {
    if calls == [] {
      assert calls + [call] == [call];
      assert Run(cfg, Step(cfg, s, call), []) == Step(cfg, s, call);
    } else {
      assert (calls + [call])[0] == calls[0] && (calls + [call])[1..] == calls[1..] + [call];
      RunAppend(cfg, Step(cfg, s, calls[0]), calls[1..], call);
    }
  }

  lemma {:induction false} GuessCountAppend(cfg: Config, s: State, calls: seq<Call>, call: Call, c: Id, lo: int, hi: int)
    ensures GuessCount(cfg, s, calls + [call], c, lo, hi) ==
            GuessCount(cfg, s, calls, c, lo, hi) + if Guesses(Run(cfg, s, calls), call, c) && lo <= call.now < hi then 1 else 0
    decreases |calls|
  {
    if calls == [] {
      assert calls + [call] == [call];
      assert GuessCount(cfg, Step(cfg, s, call), [], c, lo, hi) == 0;
    } else {
      assert (calls + [call])[0] == calls[0] && (calls + [call])[1..] == calls[1..] + [call];
      GuessCountAppend(cfg, Step(cfg, s, calls[0]), calls[1..], call, c, lo, hi);
    }
  }

  /** A wrong password of this run, compared half an hour before `until`. */
  ghost predicate GuessedBefore(cfg: Config, s: State, calls: seq<Call>, c: Id, until: int) {
    exists i :: 0 <= i < |calls| && Guesses(Run(cfg, s, calls[..i]), calls[i], c) && until == calls[i].now + 30 * 60 * 1000
  }

  lemma GuessedBeforeMore(cfg: Config, s: State, calls: seq<Call>, call: Call, c: Id, until: int)
    requires GuessedBefore(cfg, s, calls, c, until) || (Guesses(Run(cfg, s, calls), call, c) && until == call.now + 30 * 60 * 1000)
    ensures GuessedBefore(cfg, s, calls + [call], c, until)
  {
    var all := calls + [call];
    if GuessedBefore(cfg, s, calls, c, until) {
      var i :| 0 <= i < |calls| && Guesses(Run(cfg, s, calls[..i]), calls[i], c) && until == calls[i].now + 30 * 60 * 1000;
      assert all[..i] == calls[..i] && all[i] == calls[i];
    } else {
      assert all[..|calls|] == calls && all[|calls|] == call;
    }
  }

  /** The count and the lock of a customer's row, accounted for by the run that led to it. */
  ghost predicate Accounted(cfg: Config, calls: seq<Call>, row: Customer, c: Id, lo: int, hi: int) {
    row.failures <= GuessCount(cfg, EMPTY, calls, c, lo, hi) &&
    (row.lockedUntil.Some? ==>
       GuessCount(cfg, EMPTY, calls, c, lo, hi) >= 5 && GuessedBefore(cfg, EMPTY, calls, c, row.lockedUntil.value))
  }

  lemma AccountedNext(cfg: Config, calls: seq<Call>, call: Call, c: Id, lo: int, hi: int)
    requires lo <= call.now < hi
    requires var s := Run(cfg, EMPTY, calls); c in s.customers ==> Accounted(cfg, calls, s.customers[c], c, lo, hi)
    ensures var t := Run(cfg, EMPTY, calls + [call]); c in t.customers ==> Accounted(cfg, calls + [call], t.customers[c], c, lo, hi)
  {
    var s, t := Run(cfg, EMPTY, calls), Run(cfg, EMPTY, calls + [call]);
    RunAppend(cfg, EMPTY, calls, call);
    GuessCountAppend(cfg, EMPTY, calls, call, c, lo, hi);
    if LogsIn(call, c) {
      LoginMovesCounters(cfg, s, call, c);
    } else {
      StepKeepsCounters(cfg, s, call, c);
    }
    if c in t.customers && t.customers[c].lockedUntil.Some? {
      GuessedBeforeMore(cfg, EMPTY, calls, call, c, t.customers[c].lockedUntil.value);
    }
  }

  lemma {:induction false} EveryLockIsAccounted(cfg: Config, calls: seq<Call>, c: Id, lo: int, hi: int)
    requires forall i :: 0 <= i < |calls| ==> lo <= calls[i].now < hi
    ensures var s := Run(cfg, EMPTY, calls); c in s.customers ==> Accounted(cfg, calls, s.customers[c], c, lo, hi)
    decreases |calls|
  {
    if calls != [] {
      var init, call := calls[..|calls| - 1], calls[|calls| - 1];
      assert calls == init + [call];
      EveryLockIsAccounted(cfg, init, c, lo, hi);
      AccountedNext(cfg, init, call, c, lo, hi);
    }
  }

  /**
   * Nobody is locked out without cause, or for longer than half an hour: at every
   * state of every run a locked customer has had five wrong passwords compared,
   * one of them within the last half hour.
   */
  lemma LockHasItsCause(cfg: Config, calls: seq<Call>, c: Id, now: int, lo: int, hi: int)
    requires forall i :: 0 <= i < |calls| ==> lo <= calls[i].now < hi
    requires var s := Run(cfg, EMPTY, calls); c in s.customers && LockedOut(s.customers[c], now)
    ensures GuessCount(cfg, EMPTY, calls, c, lo, hi) >= 5
    ensures exists i :: 0 <= i < |calls| && Guesses(Run(cfg, EMPTY, calls[..i]), calls[i], c) && now < calls[i].now + 30 * 60 * 1000
  {
    EveryLockIsAccounted(cfg, calls, c, lo, hi);
    var until := Run(cfg, EMPTY, calls).customers[c].lockedUntil.value;
    var i :| 0 <= i < |calls| && Guesses(Run(cfg, EMPTY, calls[..i]), calls[i], c) && until == calls[i].now + 30 * 60 * 1000;
    assert now < calls[i].now + 30 * 60 * 1000;
  }

  lemma Prepend(cfg: Config, s: State, call: Call, rest: seq<Call>, c: Id, lo: int, hi: int)
    requires Clocked(At, call.now, rest) && NeverRight(rest, c) && (LogsIn(call, c) ==> call.op.password != Some(true))
    ensures Clocked(At, call.now, [call] + rest) && NeverRight([call] + rest, c)
    ensures GuessCount(cfg, s, [call] + rest, c, lo, hi) ==
            (if Guesses(s, call, c) && lo <= call.now < hi then 1 else 0) + GuessCount(cfg, Step(cfg, s, call), rest, c, lo, hi)
  {
    assert ([call] + rest)[1..] == rest;
  }

  /** The bound is met: an account that is not locked takes as many wrong passwords at once as its count leaves. */
  lemma {:induction false} UntilLocked(cfg: Config, s: State, c: Id, now: int) returns (calls: seq<Call>)
    requires c in s.customers && s.customers[c].failures < PASSWORD_MAX_ATTEMPTS && !LockedOut(s.customers[c], now)
    ensures Clocked(At, now, calls) && NeverRight(calls, c)
    ensures GuessCount(cfg, s, calls, c, now, now + PASSWORD_LOCK_MS) == PASSWORD_MAX_ATTEMPTS - s.customers[c].failures
    decreases PASSWORD_MAX_ATTEMPTS - s.customers[c].failures
  {
    var call := Call(CustomerLogin(c, Some(false), ""), now);
    var t := Step(cfg, s, call);
    LoginMovesCounters(cfg, s, call, c);
    var rest: seq<Call> := [];
    if s.customers[c].failures + 1 < PASSWORD_MAX_ATTEMPTS {
      rest := UntilLocked(cfg, t, c, now);
    }
    Prepend(cfg, s, call, rest, c, now, now + PASSWORD_LOCK_MS);
    calls := [call] + rest;
  }
}
