/**
 Password attempts and account lockout (auth.service.ts). Calls on one account run one after the other. Within a call
 the lock is checked before the password is hashed and the failure is stored after it, so an attempt has two times.
 */
module Lockout {
  import opened Wrappers
  import opened Calendar

  const MAX_FAILED_LOGIN_ATTEMPTS: nat := 5
  const ACCOUNT_LOCKOUT_MINUTES: nat := 30
  const LOCKOUT_MS: nat := ACCOUNT_LOCKOUT_MINUTES * 60 * 1000

  datatype Status = Active | Suspended | PendingVerification

  datatype Account = Account(status: Status, failedLoginCount: nat, lockedUntil: Option<int>)

  /** A password that argon2 finds right or wrong. */
  datatype Attempt = Attempt(checkedAt: int, recordedAt: int, correct: bool)

  datatype Outcome = AccountSuspended | AccountLocked | WrongPassword | EmailNotVerified | LoggedIn

  const NEW_ACCOUNT := Account(Active, 0, None)

  predicate Locked(a: Account, now: int) {
    a.lockedUntil.Some? && !IsPast(a.lockedUntil.value, now)
  }

  // ---- The unified login's helpers ----

  function EnforceAccountState(a: Account, now: int): Option<Outcome> {
    if a.status == Suspended then Some(AccountSuspended)
    else if Locked(a, now) then Some(AccountLocked)
    else None
  }

  function RecordFailedAttempt(a: Account, now: int): Account {
    var newCount := a.failedLoginCount + 1;
    if newCount >= MAX_FAILED_LOGIN_ATTEMPTS
    then a.(failedLoginCount := newCount, lockedUntil := Some(AddMinutes(now, ACCOUNT_LOCKOUT_MINUTES)))
    else a.(failedLoginCount := newCount)
  }

  function RecordSuccessfulLogin(a: Account): Account {
    a.(failedLoginCount := 0, lockedUntil := None)
  }

  /** What clientLogin and unifiedLogin both do to a client. */
  function ClientLogin(a: Account, t: Attempt): (Account, Outcome) {
    var refused := EnforceAccountState(a, t.checkedAt);
    if refused.Some? then (a, refused.value)
    else if !t.correct then (RecordFailedAttempt(a, t.recordedAt), WrongPassword)
    else (RecordSuccessfulLogin(a), LoggedIn)
  }

  /** An administrator with a right password but an unverified address is turned away, and the counter stays. */
  function AdminLogin(a: Account, t: Attempt): (Account, Outcome) {
    var (after, outcome) := ClientLogin(a, t);
    if outcome == LoggedIn && a.status == PendingVerification then (a, EmailNotVerified) else (after, outcome)
  }

  // ---- Runs ----

  datatype Endpoint = AdminEndpoint | ClientEndpoint | UnifiedEndpoint

  datatype Event = Login(endpoint: Endpoint, attempt: Attempt) | SetStatus(status: Status)

  function Answer(a: Account, e: Event): (Account, Option<Outcome>) {
    match e
    case Login(AdminEndpoint, t) => var (after, outcome) := AdminLogin(a, t); (after, Some(outcome))
    case Login(_, t) => var (after, outcome) := ClientLogin(a, t); (after, Some(outcome))
    case SetStatus(status) => (a.(status := status), None)
  }

  function Run(events: seq<Event>): Account {
    if events == [] then NEW_ACCOUNT
    else Answer(Run(events[..|events| - 1]), events[|events| - 1]).0
  }

  /** The wrong passwords that were evaluated since the last successful login. */
  function Streak(events: seq<Event>): seq<Attempt> {
    if events == [] then []
    else
      var before, last := events[..|events| - 1], events[|events| - 1];
      match Answer(Run(before), last).1
      case Some(WrongPassword) => Streak(before) + [last.attempt]
      case Some(LoggedIn) => []
      case _ => Streak(before)
  }

  /** One call ends before the next begins. */
  predicate InOrder(events: seq<Event>) {
    && (forall i :: 0 <= i < |events| && events[i].Login? ==>
        events[i].attempt.checkedAt <= events[i].attempt.recordedAt)
    && (forall i, j :: 0 <= i < j < |events| && events[i].Login? && events[j].Login? ==>
          events[i].attempt.recordedAt <= events[j].attempt.checkedAt)
  }

  /** The two stored columns say no more and no less than the streak. */
  lemma {:induction false} ColumnsAreTheStreak(events: seq<Event>)
    ensures var a, s := Run(events), Streak(events);
            a.failedLoginCount == |s|
            && a.lockedUntil
               == if |s| < 5 then None else Some(s[|s| - 1].recordedAt + 30 * 60 * 1000)
  {
    if events != [] {
      ColumnsAreTheStreak(events[..|events| - 1]);
    }
  }

  predicate Evaluated(a: Account, e: Event) {
    Answer(a, e).1 == Some(WrongPassword) || Answer(a, e).1 == Some(LoggedIn)
      || Answer(a, e).1 == Some(EmailNotVerified)
  }

  /**
   In every run a password is evaluated exactly when the account is not suspended and fewer than five wrong ones came
   since the last success, or the last of them is more than the lockout ago. Waiting does not give the five attempts
   back.
   */
  lemma EvaluatedIff(events: seq<Event>, e: Event)
    requires e.Login?
    ensures Evaluated(Run(events), e) <==>
            Run(events).status != Suspended
            && (var s := Streak(events);
                |s| < 5 || s[|s| - 1].recordedAt + 30 * 60 * 1000 < e.attempt.checkedAt)
  {
    ColumnsAreTheStreak(events);
  }

  /** What an attempt answers and stores, by the columns it finds. */
  ghost predicate AttemptAnswered(a: Account, endpoint: Endpoint, t: Attempt, after: Account, outcome: Outcome) {
    var locked := a.lockedUntil.Some? && t.checkedAt <= a.lockedUntil.value;
    if a.status == Suspended then outcome == AccountSuspended && after == a
    else if locked then outcome == AccountLocked && after == a
    else if !t.correct then
      && outcome == WrongPassword && after.status == a.status
      && after.failedLoginCount == a.failedLoginCount + 1
      && after.lockedUntil == if a.failedLoginCount < 4 then a.lockedUntil else Some(t.recordedAt + 1_800_000)
    else if endpoint == AdminEndpoint && a.status == PendingVerification then outcome == EmailNotVerified && after == a
    else outcome == LoggedIn && after == Account(a.status, 0, None)
  }

  /**
   Every answer in every run and at every endpoint: suspended, locked by the streak, wrong password, unverified
   administrator, or logged in, in this order.
   */
  lemma AnswerOfRun(events: seq<Event>, endpoint: Endpoint, t: Attempt)
    ensures var a, s := Run(events), Streak(events);
            var locked := |s| >= 5 && t.checkedAt <= s[|s| - 1].recordedAt + 1_800_000;
            Answer(a, Login(endpoint, t)).1 == Some(
              if a.status == Suspended then AccountSuspended
              else if locked then AccountLocked
              else if !t.correct then WrongPassword
              else if endpoint == AdminEndpoint && a.status == PendingVerification then EmailNotVerified
              else LoggedIn)
  {
    ColumnsAreTheStreak(events);
    hide Run, Streak;
  }

  // ---- The rate bound ----

  /** The times along a streak: from the sixth on, each attempt waited out the lock of the one before. */
  predicate Spaced(s: seq<Attempt>) {
    && (forall i :: 0 <= i < |s| ==> s[i].checkedAt <= s[i].recordedAt)
    && (forall i, j :: 0 <= i < j < |s| ==> s[i].recordedAt <= s[j].checkedAt)
    && (forall j :: 5 <= j < |s| ==> s[j - 1].recordedAt + LOCKOUT_MS < s[j].checkedAt)
  }

  predicate Before(s: seq<Attempt>, now: int) {
    forall i :: 0 <= i < |s| ==> s[i].recordedAt <= now
  }

  lemma {:induction false} StreakComesBefore(events: seq<Event>, now: int)
    requires forall i :: 0 <= i < |events| && events[i].Login? ==> events[i].attempt.recordedAt <= now
    ensures Before(Streak(events), now)
  {
    if events != [] {
      StreakComesBefore(events[..|events| - 1], now);
    }
  }

  lemma SpacedGrows(s: seq<Attempt>, t: Attempt)
    requires Spaced(s) && Before(s, t.checkedAt) && t.checkedAt <= t.recordedAt
    requires |s| < 5 || s[|s| - 1].recordedAt + LOCKOUT_MS < t.checkedAt
    ensures Spaced(s + [t])
  {
  }

  lemma {:induction false} StreakIsSpaced(events: seq<Event>)
    requires InOrder(events)
    ensures Spaced(Streak(events))
  {
    if events != [] {
      var before, last := events[..|events| - 1], events[|events| - 1];
      StreakIsSpaced(before);
      if Answer(Run(before), last).1 == Some(WrongPassword) {
        StreakComesBefore(before, last.attempt.checkedAt);
        EvaluatedIff(before, last);
        hide Spaced, Before, Run, Answer;
        SpacedGrows(Streak(before), last.attempt);
      }
    }
  }

  lemma {:induction false} LocksAddUp(s: seq<Attempt>, i: nat, j: nat)
    requires Spaced(s) && 4 <= i < j < |s|
    ensures (j - i) * LOCKOUT_MS < s[j].checkedAt - s[i].recordedAt
    decreases j
  {
    if i < j - 1 {
      LocksAddUp(s, i, j - 1);
    }
  }

  /**
   Between two successful logins, over any mix of the endpoints and any changes of status: the wrong passwords evaluated
   from attempt i to attempt j of the streak number at most 5 plus one per 30 minutes between the two.
   */
  lemma RateBound(events: seq<Event>, i: nat, j: nat)
    requires InOrder(events) && i < j < |Streak(events)|
    ensures var span := Streak(events)[j].checkedAt - Streak(events)[i].recordedAt;
            span >= 0 && j - i + 1 <= 5 + span / 1_800_000
            && (j - i + 1 > 5 ==> (j - i - 4) * 1_800_000 < span)
  {
    StreakIsSpaced(events);
    var first := if i < 4 then 4 else i;
    if first < j {
      LocksAddUp(Streak(events), first, j);
    }
  }

  // ---- The bound is reached ----

  /** Five wrong passwords at once, then one in the first millisecond after each lock. */
  function PacedTime(k: nat): int {
    if k < 5 then 0 else (k - 4) * (LOCKOUT_MS + 1)
  }

  function PacedAttempt(k: nat): Attempt {
    Attempt(PacedTime(k), PacedTime(k), false)
  }

  function Paced(n: nat): seq<Event> {
    seq(n, (k: nat) => Login(ClientEndpoint, PacedAttempt(k)))
  }

  lemma NextPacedIsEvaluated(n: nat)
    requires |Streak(Paced(n))| == n && Run(Paced(n)).status == Active
    requires forall k :: 0 <= k < n ==> Streak(Paced(n))[k] == PacedAttempt(k)
    ensures Answer(Run(Paced(n)), Login(ClientEndpoint, PacedAttempt(n))).1 == Some(WrongPassword)
  {
    hide Run, Streak;
    ColumnsAreTheStreak(Paced(n));
    assert n >= 5 ==> PacedTime(n - 1) + LOCKOUT_MS < PacedTime(n);
  }

  lemma {:induction false} PacedStreak(n: nat)
    ensures |Streak(Paced(n))| == n && Run(Paced(n)).status == Active
    ensures forall k :: 0 <= k < n ==> Streak(Paced(n))[k] == PacedAttempt(k)
  {
    if n > 0 {
      PacedStreak(n - 1);
      assert Paced(n)[..n - 1] == Paced(n - 1);
      NextPacedIsEvaluated(n - 1);
      assert Streak(Paced(n)) == Streak(Paced(n - 1)) + [PacedAttempt(n - 1)];
    }
  }

  lemma PacedTimesIncrease(i: nat, j: nat)
    requires i <= j
    ensures PacedTime(i) <= PacedTime(j)
  {
  }

  /**
   For every number n of attempts up to 5 plus the lockout in milliseconds there is a run that has exactly as many as
   the bound allows.
   */
  lemma BoundIsReached(n: nat)
    requires 5 <= n < 5 + LOCKOUT_MS
    ensures InOrder(Paced(n)) && |Streak(Paced(n))| == n
    ensures var s := Streak(Paced(n));
      n == 5 + (s[n - 1].checkedAt - s[0].recordedAt) / 1_800_000
  {
    PacedStreak(n);
    hide Run, Streak;
    forall i, j | 0 <= i < j < n ensures PacedTime(i) <= PacedTime(j) {
      PacedTimesIncrease(i, j);
    }
    var locks := n - 5;
    assert PacedTime(n - 1) == locks * LOCKOUT_MS + locks;
  }

  // ---- The stored account ----

  class LoginAccount {
    var status: Status
    var failedLoginCount: nat
    var lockedUntil: Option<int>

    function Row(): Account
      reads this
    {
      Account(status, failedLoginCount, lockedUntil)
    }

    constructor ()
      ensures Row() == NEW_ACCOUNT
    {
      status, failedLoginCount, lockedUntil := Active, 0, None;
    }

    method LoginAsAdmin(t: Attempt) returns (outcome: Outcome)
      modifies this
      ensures (Row(), Some(outcome)) == Answer(old(Row()), Login(AdminEndpoint, t))
      ensures AttemptAnswered(old(Row()), AdminEndpoint, t, Row(), outcome)
    {
      if status == Suspended {
        return AccountSuspended;
      }
      if lockedUntil.Some? && !IsPast(lockedUntil.value, t.checkedAt) {
        return AccountLocked;
      }
      if !t.correct {
        var failedCount := failedLoginCount + 1;
        failedLoginCount := failedCount;
        if failedCount >= MAX_FAILED_LOGIN_ATTEMPTS {
          lockedUntil := Some(AddMinutes(t.recordedAt, ACCOUNT_LOCKOUT_MINUTES));
        }
        return WrongPassword;
      }
      if status == PendingVerification {
        return EmailNotVerified;
      }
      failedLoginCount, lockedUntil := 0, None;
      return LoggedIn;
    }

    method LoginAsClient(t: Attempt) returns (outcome: Outcome)
      modifies this
      ensures (Row(), Some(outcome)) == Answer(old(Row()), Login(ClientEndpoint, t))
      ensures AttemptAnswered(old(Row()), ClientEndpoint, t, Row(), outcome)
    {
      if status == Suspended {
        return AccountSuspended;
      }
      if lockedUntil.Some? && !IsPast(lockedUntil.value, t.checkedAt) {
        return AccountLocked;
      }
      if !t.correct {
        var failedCount := failedLoginCount + 1;
        failedLoginCount := failedCount;
        if failedCount >= MAX_FAILED_LOGIN_ATTEMPTS {
          lockedUntil := Some(AddMinutes(t.recordedAt, ACCOUNT_LOCKOUT_MINUTES));
        }
        return WrongPassword;
      }
      failedLoginCount, lockedUntil := 0, None;
      return LoggedIn;
    }

    /** The same account through the unified endpoint: the same columns are read and written. */
    method LoginUnified(t: Attempt) returns (outcome: Outcome)
      modifies this
      ensures (Row(), Some(outcome)) == Answer(old(Row()), Login(UnifiedEndpoint, t))
      ensures AttemptAnswered(old(Row()), UnifiedEndpoint, t, Row(), outcome)
    {
      var refused := EnforceAccountState(Row(), t.checkedAt);
      if refused.Some? {
        return refused.value;
      }
      if !t.correct {
        CountFailure(t.recordedAt);
        return WrongPassword;
      }
      failedLoginCount, lockedUntil := 0, None;
      return LoggedIn;
    }

    method CountFailure(now: int)
      modifies this
      ensures Row() == RecordFailedAttempt(old(Row()), now)
      ensures failedLoginCount == old(failedLoginCount) + 1
      ensures lockedUntil == if old(failedLoginCount) < 4 then old(lockedUntil) else Some(now + 1_800_000)
    {
      var newCount := failedLoginCount + 1;
      failedLoginCount := newCount;
      if newCount >= MAX_FAILED_LOGIN_ATTEMPTS {
        lockedUntil := Some(AddMinutes(now, ACCOUNT_LOCKOUT_MINUTES));
      }
    }
  }
}
