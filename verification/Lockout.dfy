/**
 The failed-attempt lockout (apps/api/src/modules/auth/auth.service.ts): five
 counted failures freeze an account for fifteen minutes. Times are milliseconds;
 attempts come one at a time on a clock that never runs back.
 */
module Lockout {
  import opened Wrappers

  type Time = int

  const THRESHOLD := 5
  const LOCK: Time := 15 * 60 * 1000

  datatype Account = Account(failed: int, lockedUntil: Option<Time>)

  const FRESH := Account(0, None)

  /** Wrong password or code; right one; or refused for a reason that is not counted. */
  datatype Outcome = Wrong | Right | Uncounted

  /** `check` is when the lock is read, `done` when the outcome is written. */
  datatype Attempt = Attempt(check: Time, done: Time, outcome: Outcome)

  /** What is on record: counted failures with the counter they left, and resets. */
  datatype Entry = Failure(time: Time, count: int) | Reset(time: Time)

  predicate Locked(a: Account, now: Time) {
    a.lockedUntil.Some? && a.lockedUntil.value > now
  }

  function Bumped(a: Account, now: Time, freshAfterLockExpiry: bool): Account {
    if freshAfterLockExpiry then Account(1, None)
    else Account(a.failed + 1, if a.failed + 1 >= THRESHOLD then Some(now + LOCK) else a.lockedUntil)
  }

  function Step(a: Account, t: Attempt): Account {
    if Locked(a, t.check) then a
    else match t.outcome
      case Wrong => Bumped(a, t.done, a.lockedUntil.Some?)
      case Right => FRESH
      case Uncounted => a
  }

  function Recorded(a: Account, t: Attempt): seq<Entry> {
    if Locked(a, t.check) then []
    else match t.outcome
      case Wrong => [Failure(t.done, Step(a, t).failed)]
      case Right => [Reset(t.done)]
      case Uncounted => []
  }

  /** The account and the record after all attempts, oldest first. */
  function Run(attempts: seq<Attempt>): (Account, seq<Entry>) {
    if attempts == [] then (FRESH, [])
    else
      var t := attempts[|attempts| - 1];
      var (a, log) := Run(attempts[..|attempts| - 1]);
      (Step(a, t), log + Recorded(a, t))
  }

  ghost predicate OneAtATime(attempts: seq<Attempt>) {
    && (forall i :: 0 <= i < |attempts| ==> attempts[i].check <= attempts[i].done)
    && (forall i :: 0 <= i < |attempts| - 1 ==> attempts[i].done <= attempts[i + 1].check)
  }

  /** The two statements and the check around them, as the service has them. */
  class UserRow {
    var failedLoginAttempts: int
    var lockedUntil: Option<Time>

    ghost function Snapshot(): Account
      reads this
    {
      Account(failedLoginAttempts, lockedUntil)
    }

    constructor ()
      ensures Snapshot() == FRESH
    {
      failedLoginAttempts, lockedUntil := 0, None;
    }

    /** Err when frozen; otherwise whether an expired lock was seen. */
    method AssertNotLocked(now: Time) returns (r: Result<bool, ()>)
      ensures r.Err? <==> Locked(Snapshot(), now)
      ensures r.Ok? ==> (r.value <==> lockedUntil.Some?)
    {
      if lockedUntil.Some? && lockedUntil.value > now { return Err(()); }
      return Ok(lockedUntil.Some? && lockedUntil.value <= now);
    }

    method BumpFailedAttempt(now: Time, freshAfterLockExpiry: bool)
      modifies this
      ensures Snapshot() == Bumped(old(Snapshot()), now, freshAfterLockExpiry)
    {
      if freshAfterLockExpiry {
        failedLoginAttempts, lockedUntil := 1, None;
        return;
      }
      if failedLoginAttempts + 1 >= THRESHOLD {
        lockedUntil := Some(now + LOCK);
      }
      failedLoginAttempts := failedLoginAttempts + 1;
    }

    method ResetFailedAttempts()
      modifies this
      ensures Snapshot() == FRESH
    {
      failedLoginAttempts, lockedUntil := 0, None;
    }

    /** login, changePassword, resetPassword and disableTwoFactor share this shape. */
    method Try(t: Attempt) returns (refused: bool)
      modifies this
      ensures Snapshot() == Step(old(Snapshot()), t)
      ensures refused <==> old(Locked(Snapshot(), t.check)) || t.outcome != Right
    {
      var lock := AssertNotLocked(t.check);
      if lock.Err? { return true; }
      match t.outcome
      case Wrong =>
        BumpFailedAttempt(t.done, lock.value);
        refused := true;
      case Right =>
        ResetFailedAttempts();
        refused := false;
      case Uncounted =>
        refused := true;
    }

    /** Attempts one after the other: the row is what `Run` says, so every bound below is about it. */
    method TryAll(attempts: seq<Attempt>)
      requires Snapshot() == FRESH
      modifies this
      ensures Snapshot() == Run(attempts).0
    {
      for i := 0 to |attempts|
        invariant Snapshot() == Run(attempts[..i]).0
      {
        assert attempts[..i + 1][..i] == attempts[..i];
        var refused := Try(attempts[i]);
      }
      assert attempts[..|attempts|] == attempts;
    }
  }

  // ── the bound ───────────────────────────────────────────────────────

  /** Consecutive failures count up one by one, or start over a lock later. */
  ghost predicate Adjacent(e: Entry, f: Entry) {
    e.Failure? && f.Failure? ==>
      if e.count == THRESHOLD then f.count == 1 && f.time >= e.time + LOCK
      else f.count == e.count + 1 && f.time >= e.time
  }

  /** The last entry tells the account. */
  ghost predicate Explains(last: Entry, a: Account) {
    match last
    case Failure(time, count) => a == Account(count, if count == THRESHOLD then Some(time + LOCK) else None)
    case Reset(_) => a == FRESH
  }

  ghost predicate RecordOk(a: Account, log: seq<Entry>) {
    && (forall i :: 0 <= i < |log| && log[i].Failure? ==> 1 <= log[i].count <= THRESHOLD)
    && (forall i :: 0 <= i < |log| - 1 ==> Adjacent(log[i], log[i + 1]))
    && (if log == [] then a == FRESH else Explains(log[|log| - 1], a))
  }

  lemma StepIsOk(a: Account, log: seq<Entry>, t: Attempt)
    requires RecordOk(a, log) && t.check <= t.done
    requires log != [] ==> log[|log| - 1].time <= t.check
    ensures RecordOk(Step(a, t), log + Recorded(a, t))
    ensures var log' := log + Recorded(a, t); log' != [] ==> log'[|log'| - 1].time <= t.done
  {
    var log' := log + Recorded(a, t);
    if Recorded(a, t) == [] {
      assert log' == log;
    } else {
      assert log'[|log|] == Recorded(a, t)[0];
      if log != [] { assert Explains(log[|log| - 1], a) && Adjacent(log[|log| - 1], log'[|log|]); }
    }
  }

  lemma {:induction false} RunIsOk(attempts: seq<Attempt>)
    requires OneAtATime(attempts)
    ensures RecordOk(Run(attempts).0, Run(attempts).1)
    ensures attempts != [] && Run(attempts).1 != [] ==>
              Run(attempts).1[|Run(attempts).1| - 1].time <= attempts[|attempts| - 1].done
  {
    if attempts != [] {
      var init := attempts[..|attempts| - 1];
      RunIsOk(init);
      if init != [] { assert attempts[|init| - 1].done <= attempts[|init| - 1 + 1].check; }
      StepIsOk(Run(init).0, Run(init).1, attempts[|init|]);
    }
  }

  /** From count c, the counter reaches the threshold within the next 5 - c failures. */
  lemma {:induction false} ReachesThreshold(a: Account, log: seq<Entry>, i: nat, j: nat)
    requires RecordOk(a, log) && i <= j < |log|
    requires forall k :: i <= k <= j ==> log[k].Failure?
    requires forall k :: i <= k < j ==> log[k].count != THRESHOLD
    ensures log[j].count == log[i].count + (j - i) && log[i].time <= log[j].time
    decreases j - i
  {
    if i < j {
      assert Adjacent(log[i], log[i + 1]);
      ReachesThreshold(a, log, i + 1, j);
    }
  }

  lemma {:induction false} TimesGrow(a: Account, log: seq<Entry>, i: nat, j: nat)
    requires RecordOk(a, log) && i <= j < |log|
    requires forall k :: i <= k <= j ==> log[k].Failure?
    ensures log[i].time <= log[j].time
    decreases j - i
  {
    if i < j {
      assert Adjacent(log[i], log[i + 1]);
      TimesGrow(a, log, i + 1, j);
    }
  }

  /** Among six failures in a row one was at the threshold, and a lock follows it. */
  lemma SixSpanALock(a: Account, log: seq<Entry>, i: nat)
    requires RecordOk(a, log) && i + THRESHOLD < |log|
    requires forall k :: i <= k <= i + THRESHOLD ==> log[k].Failure?
    ensures log[i + THRESHOLD].time >= log[i].time + LOCK
  {
    if k :| i <= k < i + THRESHOLD && log[k].count == THRESHOLD {
      TimesGrow(a, log, i, k);
      assert Adjacent(log[k], log[k + 1]);
      TimesGrow(a, log, k + 1, i + THRESHOLD);
    } else {
      ReachesThreshold(a, log, i, i + THRESHOLD - 1);
    }
  }

  /** MAIN RESULT. n half-open windows of fifteen minutes in a row hold at most 5n
      counted failures when no reset falls between them, across expired locks too. */
  lemma {:induction false} AtMostFivePerWindow(attempts: seq<Attempt>, i: nat, j: nat, n: nat)
    requires OneAtATime(attempts)
    requires var log := Run(attempts).1;
             && i <= j < |log|
             && (forall k :: i <= k <= j ==> log[k].Failure?)
             && log[j].time < log[i].time + n * LOCK
    ensures j - i + 1 <= THRESHOLD * n
    decreases n
  {
    RunIsOk(attempts);
    var (a, log) := Run(attempts);
    TimesGrow(a, log, i, j);
    if n == 0 {
    } else if j - i >= THRESHOLD {
      SixSpanALock(a, log, i);
      assert (n - 1) * LOCK == n * LOCK - LOCK;
      TimesGrow(a, log, i + THRESHOLD, j);
      AtMostFivePerWindow(attempts, i + THRESHOLD, j, n - 1);
    }
  }

  /** Counter and lock never disagree, whatever the attempts. */
  lemma CounterStaysInRange(attempts: seq<Attempt>)
    requires OneAtATime(attempts)
    ensures 0 <= Run(attempts).0.failed <= THRESHOLD
    ensures Run(attempts).0.lockedUntil.Some? <==> Run(attempts).0.failed == THRESHOLD
  {
    RunIsOk(attempts);
  }

  /** A lock of fifteen minutes is exactly that: refused before its end, counted
      from its end on, and the first failure after it starts again at one. */
  lemma LockLastsExactly(attempts: seq<Attempt>, t: Attempt)
    requires OneAtATime(attempts) && t.outcome == Wrong
    requires var log := Run(attempts).1; log != [] && log[|log| - 1].Failure? && log[|log| - 1].count == THRESHOLD
    ensures var (a, log) := Run(attempts);
            var lockedAt := log[|log| - 1].time;
            if t.check < lockedAt + LOCK then Step(a, t) == a && Recorded(a, t) == []
            else Step(a, t) == Account(1, None) && Recorded(a, t) == [Failure(t.done, 1)]
  {
    RunIsOk(attempts);
  }

  // ── what is counted, and when the lock closes ───────────────────────

  /** The `i`th attempt meets a lock that has not expired. */
  ghost predicate Refused(attempts: seq<Attempt>, i: nat)
    requires i < |attempts|
  {
    var a := Run(attempts[..i]).0; a.lockedUntil.Some? && a.lockedUntil.value > attempts[i].check
  }

  /** One more attempt at the end. */
  lemma LastAttempt(attempts: seq<Attempt>)
    requires attempts != []
    ensures var n := |attempts| - 1;
            var (a, log) := Run(attempts[..n]);
            && Run(attempts) == (Step(a, attempts[n]), log + Recorded(a, attempts[n]))
            && (Refused(attempts, n) <==> Locked(a, attempts[n].check))
  {
  }

  lemma {:induction false} PrefixOfRecord(attempts: seq<Attempt>, i: nat)
    requires i <= |attempts|
    ensures Run(attempts[..i]).1 <= Run(attempts).1
    decreases |attempts|
  {
    if i == |attempts| {
      assert attempts[..i] == attempts;
    } else {
      LastAttempt(attempts);
      PrefixOfRecord(attempts[..|attempts| - 1], i);
      assert attempts[..|attempts| - 1][..i] == attempts[..i];
    }
  }

  /** MAIN RESULT. What an attempt does: one that a lock refuses, or that is refused for a reason that is not counted, leaves no
      trace; any other wrong one goes on record with the counter it left, and any other right one as a reset that
      leaves counter and lock cleared. */
  lemma AttemptIsRecorded(attempts: seq<Attempt>, i: nat)
    requires i < |attempts|
    ensures Refused(attempts, i) || attempts[i].outcome == Uncounted ==> Run(attempts[..i + 1]) == Run(attempts[..i])
    ensures !Refused(attempts, i) && attempts[i].outcome == Wrong ==>
      Failure(attempts[i].done, Run(attempts[..i + 1]).0.failed) in Run(attempts).1
    ensures !Refused(attempts, i) && attempts[i].outcome == Right ==>
      Reset(attempts[i].done) in Run(attempts).1 && Run(attempts[..i + 1]).0 == Account(0, None)
  {
    var upTo := attempts[..i + 1];
    LastAttempt(upTo);
    PrefixOfRecord(attempts, i + 1);
    assert upTo[..i] == attempts[..i] && upTo[i] == attempts[i];
    var (a, log) := Run(attempts[..i]);
    if Recorded(a, attempts[i]) == [] {
      assert log + [] == log;
    } else {
      assert Run(upTo).1[|log|] == Recorded(a, attempts[i])[0];
    }
  }

  /** The attempt behind an entry. */
  ghost predicate Explained(attempts: seq<Attempt>, k: nat, e: Entry)
    requires k < |attempts|
  {
    !Refused(attempts, k) && e.time == attempts[k].done && attempts[k].outcome == if e.Failure? then Wrong else Right
  }

  /** And nothing else is on record. */
  lemma {:induction false} RecordIsExact(attempts: seq<Attempt>, e: Entry)
    requires e in Run(attempts).1
    ensures exists k :: 0 <= k < |attempts| && Explained(attempts, k, e)
    decreases |attempts|
  {
    var n := |attempts| - 1;
    LastAttempt(attempts);
    if e in Run(attempts[..n]).1 {
      RecordIsExact(attempts[..n], e);
      var k :| 0 <= k < n && Explained(attempts[..n], k, e);
      assert attempts[..n][..k] == attempts[..k];
      assert Explained(attempts, k, e);
    } else {
      assert Explained(attempts, n, e);
    }
  }

  /** MAIN RESULT. Five wrong attempts in a row, whatever came before the reset or the start: the first four leave no lock, the
      fifth locks for fifteen minutes from the moment it was counted. */
  lemma {:induction false} FifthFailureLocks(before: seq<Attempt>, wrong: seq<Attempt>)
    requires Run(before).0 == Account(0, None) && |wrong| <= 5 && forall i :: 0 <= i < |wrong| ==> wrong[i].outcome == Wrong
    ensures Run(before + wrong).0 ==
              Account(|wrong|, if |wrong| == 5 then Some(wrong[4].done + 900000) else None)
    decreases |wrong|
  {
    if wrong == [] {
      assert before + wrong == before;
    } else {
      var init := wrong[..|wrong| - 1];
      FifthFailureLocks(before, init);
      assert (before + wrong)[..|before + wrong| - 1] == before + init;
    }
  }
}
