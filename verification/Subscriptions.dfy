/**
 Subscription periods (plans.service.ts, and the status write of payment.service.ts). Every clock reading inside one
 call is taken to be the same time.
 */
module Subscriptions {
  import opened Wrappers
  import opened Calendar

  datatype Status = Pending | AwaitingPayment | UnderReview | Active | Expired | Cancelled

  datatype Cycle = Monthly | Yearly

  datatype Error = NotFound | BadRequest

  datatype Subscription = Subscription(status: Status, billingCycle: Cycle,
                                       startsAt: Option<int>, expiresAt: Option<int>, approvedAt: Option<int>)

  function Subscribe(cycle: Cycle): Subscription {
    Subscription(Pending, cycle, None, None, None)
  }

  predicate Approvable(status: Status) {
    status == Pending || status == AwaitingPayment || status == UnderReview || status == Active
  }

  /** The base moved by one billing period. */
  function Extended(cycle: Cycle, base: int): int {
    if cycle == Monthly then AddMonths(base, 1) else AddYears(base, 1)
  }

  function BaseDate(s: Subscription, now: int): int {
    if s.status == Active && s.expiresAt.Some? && s.expiresAt.value > now then s.expiresAt.value else now
  }

  function Approve(s: Subscription, now: int): Result<Subscription, Error> {
    if !Approvable(s.status) then Err(BadRequest)
    else
      var startsAt := if s.status == Active && s.startsAt.Some? then s.startsAt.value else now;
      Ok(s.(status := Active, startsAt := Some(startsAt),
            expiresAt := Some(Extended(s.billingCycle, BaseDate(s, now))), approvedAt := Some(now)))
  }

  /** A rejection is not guarded by the status. */
  function Reject(s: Subscription): Subscription {
    s.(status := Cancelled)
  }

  function Cancel(s: Subscription): Result<Subscription, Error> {
    if s.status != Active then Err(BadRequest) else Ok(s.(status := Cancelled))
  }

  /** Nor is the initiation of a payment: any subscription becomes AWAITING_PAYMENT. */
  function InitiatePayment(s: Subscription): Subscription {
    s.(status := AwaitingPayment)
  }

  function SubmitSlip(s: Subscription): Result<Subscription, Error> {
    if s.status == Pending || s.status == AwaitingPayment then Ok(s.(status := UnderReview)) else Err(BadRequest)
  }

  /** Uploading a slip is guarded by the transaction's status only. */
  function UploadSlip(s: Subscription): Subscription {
    s.(status := UnderReview)
  }

  /**
   When the verification of a slip approves it, the subscription becomes active from now on: `approveSubscription` is
   not called, and the expiry date is not touched. (When the verification fails, the effect is that of a rejection.)
   */
  function AutoApprove(s: Subscription, now: int): Subscription {
    s.(status := Active, startsAt := Some(now))
  }

  predicate Overdue(s: Subscription, now: int) {
    s.status == Active && s.expiresAt.Some? && s.expiresAt.value < now
  }

  function Expire(s: Subscription, now: int): Subscription {
    if Overdue(s, now) then s.(status := Expired) else s
  }

  // ---- Runs of one subscription ----

  datatype Action = DoApprove | DoReject | DoCancel | DoInitiatePayment | DoSubmitSlip | DoUploadSlip | DoAutoApprove
    | DoExpireOverdue

  datatype Event = At(now: int, action: Action)

  function OrSame(s: Subscription, r: Result<Subscription, Error>): Subscription {
    if r.Ok? then r.value else s
  }

  function Step(s: Subscription, e: Event): Subscription {
    match e.action
    case DoApprove => OrSame(s, Approve(s, e.now))
    case DoReject => Reject(s)
    case DoCancel => OrSame(s, Cancel(s))
    case DoInitiatePayment => InitiatePayment(s)
    case DoSubmitSlip => OrSame(s, SubmitSlip(s))
    case DoUploadSlip => UploadSlip(s)
    case DoAutoApprove => AutoApprove(s, e.now)
    case DoExpireOverdue => Expire(s, e.now)
  }

  function Run(s: Subscription, events: seq<Event>): Subscription {
    if events == [] then s else Step(Run(s, events[..|events| - 1]), events[|events| - 1])
  }

  /** The approvals by an administrator that took effect in a run. */
  function Granted(s: Subscription, events: seq<Event>): nat {
    if events == [] then 0
    else
      var last := events[|events| - 1];
      var before := events[..|events| - 1];
      Granted(s, before) + if last.action == DoApprove && Approvable(Run(s, before).status) then 1 else 0
  }

  predicate InOrder(events: seq<Event>) {
    forall i, j :: 0 <= i < j < |events| ==> events[i].now <= events[j].now
  }

  /** The statuses an action may come from; all others leave the row as it is. */
  predicate ActsFrom(s: Subscription, e: Event) {
    match e.action
    case DoApprove => s.status !in {Expired, Cancelled}
    case DoCancel => s.status == Active
    case DoSubmitSlip => s.status in {Pending, AwaitingPayment}
    case DoExpireOverdue => s.status == Active && s.expiresAt.Some? && s.expiresAt.value < e.now
    case _ => true
  }

  function StatusAfter(action: Action): Status {
    match action
    case DoApprove => Active
    case DoAutoApprove => Active
    case DoReject => Cancelled
    case DoCancel => Cancelled
    case DoInitiatePayment => AwaitingPayment
    case DoSubmitSlip => UnderReview
    case DoUploadSlip => UnderReview
    case DoExpireOverdue => Expired
  }

  /** The table of transitions; only approvals move dates, and only an administrator's the expiry date. */
  lemma ActionEffect(s: Subscription, e: Event)
    ensures var next := Step(s, e);
      && (ActsFrom(s, e) ==> next.status == StatusAfter(e.action))
      && (!ActsFrom(s, e) ==> next == s)
      && next.billingCycle == s.billingCycle
      && (e.action != DoApprove ==> next.expiresAt == s.expiresAt && next.approvedAt == s.approvedAt)
      && (e.action != DoApprove && e.action != DoAutoApprove ==> next.startsAt == s.startsAt)
  {
    hide Extended;
    assert s.status.Pending? || s.status.AwaitingPayment? || s.status.UnderReview? || s.status.Active?
      || s.status.Expired? || s.status.Cancelled?;
  }

  // ---- Length of a period ----

  function Shortest(cycle: Cycle): int {
    if cycle == Monthly then 28 * MS_PER_DAY else 365 * MS_PER_DAY
  }

  function Longest(cycle: Cycle): int {
    if cycle == Monthly then 31 * MS_PER_DAY else 366 * MS_PER_DAY
  }

  lemma PeriodBounds(cycle: Cycle, base: int)
    ensures Shortest(cycle) <= Extended(cycle, base) - base <= Longest(cycle)
  {
    if cycle == Monthly {
      OneMonthAddsItsOwnLength(base);
    } else {
      OneYearAddsItsLength(base);
    }
  }

  /** The same date and time of day in the next month, or in the same month of the next year. */
  ghost predicate PeriodLater(cycle: Cycle, base: int, end: int) {
    var y, m, d := FullYear(base), Month(base), Date(base);
    var day :=
      if cycle == Yearly then StandardDay(y + 1, m, d)
      else if m == 11 then StandardDay(y + 1, 0, d)
      else StandardDay(y, m + 1, d);
    end == MakeDate(day, TimeWithinDay(base))
  }

  lemma ExtendedByOnePeriod(cycle: Cycle, base: int)
    ensures PeriodLater(cycle, base, Extended(cycle, base))
  {
    hide FullYear, Month, Date, StandardDay, AddMonths, AddYears, TimeWithinDay;
    OneMonthLater(base);
    OneYearLater(base);
  }

  /** The approved subscription ends one period after its old expiry date, if it was active with time left, or now. */
  ghost predicate RunsOnFrom(s: Subscription, now: int, approved: Subscription) {
    && approved.expiresAt.Some?
    && if s.status == Active && s.expiresAt.Some? && now < s.expiresAt.value
       then PeriodLater(s.billingCycle, s.expiresAt.value, approved.expiresAt.value)
       else PeriodLater(s.billingCycle, now, approved.expiresAt.value)
  }

  /**
   An approval succeeds unless the subscription is expired or cancelled. It starts one period from now, or from the
   expiry date of a subscription that is active and has time left.
   */
  lemma ApprovalOutcome(s: Subscription, now: int)
    ensures var r := Approve(s, now);
      && (r.Ok? <==> s.status !in {Expired, Cancelled})
      && (r.Ok? ==>
            && r.value.status == Active && r.value.approvedAt == Some(now) && r.value.billingCycle == s.billingCycle
            && r.value.startsAt == (if s.status == Active && s.startsAt.Some? then s.startsAt else Some(now))
            && RunsOnFrom(s, now, r.value))
  {
    hide PeriodLater, Extended;
    ExtendedByOnePeriod(s.billingCycle, BaseDate(s, now));
    assert s.status.Pending? || s.status.AwaitingPayment? || s.status.UnderReview? || s.status.Active?
      || s.status.Expired? || s.status.Cancelled?;
  }

  /** n periods, one on top of the other. */
  function Chained(cycle: Cycle, t: int, n: nat): int {
    if n == 0 then t else Extended(cycle, Chained(cycle, t, n - 1))
  }

  lemma {:induction false} ChainBounds(cycle: Cycle, t: int, n: nat)
    ensures n * Shortest(cycle) <= Chained(cycle, t, n) - t <= n * Longest(cycle)
  {
    hide Extended;
    if n > 0 {
      ChainBounds(cycle, t, n - 1);
      PeriodBounds(cycle, Chained(cycle, t, n - 1));
    }
  }

  lemma {:induction false} MonthlyChain(t: int, n: nat)
    ensures Chained(Monthly, t, n) == MonthlySteps(t, n)
  {
    hide AddMonths, AddYears;
    if n > 0 {
      MonthlyChain(t, n - 1);
    }
  }

  // ---- Renewals made while the subscription is active ----

  /** Every event is an approval or the expiry job, and comes before the expiry date of that moment. */
  predicate RenewedInTime(s: Subscription, events: seq<Event>) {
    events == [] ||
    (var before, last := events[..|events| - 1], events[|events| - 1];
     RenewedInTime(s, before) && (last.action == DoApprove || last.action == DoExpireOverdue)
     && Run(s, before).expiresAt.Some? && last.now < Run(s, before).expiresAt.value)
  }

  lemma {:induction false} RenewalsStackUp(s: Subscription, events: seq<Event>)
    requires s.status == Active && s.expiresAt.Some? && RenewedInTime(s, events)
    ensures var r := Run(s, events);
            r.status == Active && r.billingCycle == s.billingCycle
            && r.expiresAt == Some(Chained(s.billingCycle, s.expiresAt.value, Granted(s, events)))
            && (s.startsAt.Some? ==> r.startsAt == s.startsAt)
  {
    hide Extended;
    if events != [] {
      RenewalsStackUp(s, events[..|events| - 1]);
    }
  }

  /** n renewals made in time add n full periods to the expiry date and lose no paid time. */
  lemma RenewalsNeverLosePaidTime(s: Subscription, events: seq<Event>)
    requires s.status == Active && s.expiresAt.Some? && RenewedInTime(s, events)
    ensures var n := Granted(s, events);
            Run(s, events).expiresAt.Some?
            && (var added := Run(s, events).expiresAt.value - s.expiresAt.value;
                n * Shortest(s.billingCycle) <= added <= n * Longest(s.billingCycle))
  {
    RenewalsStackUp(s, events);
    ChainBounds(s.billingCycle, s.expiresAt.value, Granted(s, events));
  }

  /**
   Twelve monthly renewals made in time end on the date of one yearly renewal exactly when no month on the way is too
   short.
   */
  lemma TwelveRenewalsMakeAYearIff(s: Subscription, events: seq<Event>)
    requires s.status == Active && s.billingCycle == Monthly && s.expiresAt.Some?
    requires RenewedInTime(s, events) && Granted(s, events) == 12
    ensures Run(s, events).expiresAt == Some(AddYears(s.expiresAt.value, 1)) <==> FitsNextMonths(s.expiresAt.value)
  {
    hide AddYears, AddMonths, FitsNextMonths, MonthlySteps;
    RenewalsStackUp(s, events);
    MonthlyChain(s.expiresAt.value, 12);
    TwelveMonthsEqualOneYearIff(s.expiresAt.value);
  }

  // ---- Approvals of subscriptions in another status ----

  /**
   With more than three days left, an approval adds its period to them exactly when it finds the subscription ACTIVE.
   Initiating the payment for a renewal makes it AWAITING_PAYMENT, so the approval of that payment starts the period at
   once.
   */
  lemma ApprovalKeepsRemainingTimeIff(s: Subscription, now: int)
    requires Approvable(s.status) && s.expiresAt.Some? && s.expiresAt.value > now + 3 * MS_PER_DAY
    ensures var r := Approve(s, now);
            r.Ok? && (r.value.expiresAt == Some(Extended(s.billingCycle, s.expiresAt.value)) <==> s.status == Active)
    ensures s.status != Active ==> Approve(s, now).value.expiresAt.value < s.expiresAt.value + Shortest(s.billingCycle)
  {
    hide Extended;
    PeriodBounds(s.billingCycle, now);
    PeriodBounds(s.billingCycle, s.expiresAt.value);
  }

  lemma RenewalAfterInitiatedPayment(s: Subscription, now: int)
    requires s.status == Active && s.expiresAt.Some? && s.expiresAt.value > now + 3 * MS_PER_DAY
    ensures var paid := Run(s, [At(now, DoInitiatePayment), At(now, DoApprove)]);
            paid.status == Active && paid.expiresAt.Some?
            && paid.expiresAt.value < s.expiresAt.value + Shortest(s.billingCycle)
  {
    hide Extended;
    var events := [At(now, DoInitiatePayment), At(now, DoApprove)];
    assert events[..1] == [events[0]] && events[..1][..0] == [];
    assert Run(s, events[..1]) == InitiatePayment(s);
    ApprovalKeepsRemainingTimeIff(InitiatePayment(s), now);
  }

  // ---- All runs ----

  /** What n approvals can have done by a given time. */
  predicate PaidFor(s: Subscription, n: nat, now: int) {
    if n == 0 then s.status != Expired && s.expiresAt == s.approvedAt == None
    else
      s.expiresAt.Some? && s.approvedAt.Some? && s.approvedAt.value <= now
      && s.approvedAt.value + Shortest(s.billingCycle) <= s.expiresAt.value
      && s.expiresAt.value <= s.approvedAt.value + n * Longest(s.billingCycle)
      && (s.status == Expired ==> s.expiresAt.value < now)
  }

  lemma ApprovePays(s: Subscription, n: nat, before: int, now: int)
    requires PaidFor(s, n, before) && before <= now && Approvable(s.status)
    ensures Approve(s, now).Ok? && PaidFor(Approve(s, now).value, n + 1, now)
  {
    hide Extended;
    PeriodBounds(s.billingCycle, BaseDate(s, now));
    assert (n + 1) * Longest(s.billingCycle) == n * Longest(s.billingCycle) + Longest(s.billingCycle);
  }

  lemma {:induction false} RunsArePaidFor(cycle: Cycle, events: seq<Event>, now: int)
    requires InOrder(events) && (events != [] ==> events[|events| - 1].now <= now)
    ensures Run(Subscribe(cycle), events).billingCycle == cycle
    ensures PaidFor(Run(Subscribe(cycle), events), Granted(Subscribe(cycle), events), now)
  {
    hide Extended, Shortest, Longest;
    if events != [] {
      var before, last := events[..|events| - 1], events[|events| - 1];
      RunsArePaidFor(cycle, before, last.now);
      var s := Run(Subscribe(cycle), before);
      if last.action == DoApprove && Approvable(s.status) {
        ApprovePays(s, Granted(Subscribe(cycle), before), last.now, last.now);
      }
    }
  }

  /**
   In every run there is an expiry date exactly if an administrator's approval took effect; n of them give at least the
   last period whole and never more than n of the longest periods, whatever was approved automatically besides.
   */
  lemma EveryReachableSubscription(cycle: Cycle, events: seq<Event>)
    requires InOrder(events)
    ensures var s, n := Run(Subscribe(cycle), events), Granted(Subscribe(cycle), events);
            if n == 0 then s.status != Expired && s.expiresAt.None?
            else s.approvedAt.Some? && s.expiresAt.Some?
                 && Shortest(cycle) <= s.expiresAt.value - s.approvedAt.value <= n * Longest(cycle)
  {
    var now := if events == [] then 0 else events[|events| - 1].now;
    RunsArePaidFor(cycle, events, now);
  }

  predicate AutoApproved(events: seq<Event>) {
    exists i :: 0 <= i < |events| && events[i].action == DoAutoApprove
  }

  /** An expiry date appears with the first approval, and an ACTIVE row without one was approved automatically. */
  lemma {:induction false} ActiveWithoutApproval(cycle: Cycle, events: seq<Event>)
    ensures var s, n := Run(Subscribe(cycle), events), Granted(Subscribe(cycle), events);
            && (s.expiresAt.None? <==> n == 0)
            && (s.status == Active && n == 0 ==> AutoApproved(events))
  {
    hide Extended;
    if events != [] {
      var before, last := events[..|events| - 1], events[|events| - 1];
      ActiveWithoutApproval(cycle, before);
      if AutoApproved(before) {
        var i :| 0 <= i < |before| && before[i].action == DoAutoApprove;
        assert events[i].action == DoAutoApprove;
      }
    }
  }

  /**
   In every run, an ACTIVE subscription can never be expired by the job exactly if it was only ever approved
   automatically.
   */
  lemma NeverExpiresIff(cycle: Cycle, events: seq<Event>)
    requires Run(Subscribe(cycle), events).status == Active
    ensures var s := Run(Subscribe(cycle), events);
            (forall now :: Expire(s, now) == s) <==> AutoApproved(events) && Granted(Subscribe(cycle), events) == 0
  {
    var s := Run(Subscribe(cycle), events);
    ActiveWithoutApproval(cycle, events);
    if s.expiresAt.Some? {
      assert Expire(s, s.expiresAt.value + 1).status == Expired;
    }
  }

  /** Such a run: initiate the payment, upload the slip, and let its verification approve it. */
  lemma AutoApprovalHasNoExpiry(cycle: Cycle, now: int)
    ensures var events := [At(now, DoInitiatePayment), At(now, DoUploadSlip), At(now, DoAutoApprove)];
            var s := Run(Subscribe(cycle), events);
            s.status == Active && s.expiresAt.None? && s.approvedAt.None? && forall later :: Expire(s, later) == s
  {
    var events := [At(now, DoInitiatePayment), At(now, DoUploadSlip), At(now, DoAutoApprove)];
    assert events[..2] == [events[0], events[1]] && events[..2][..1] == [events[0]] && events[..2][..1][..0] == [];
    var initiated := Step(Subscribe(cycle), events[0]);
    assert Run(Subscribe(cycle), [events[0]]) == initiated;
    assert Run(Subscribe(cycle), events[..2]) == Step(initiated, events[1]);
  }

  // ---- The table ----

  /** The rows that are active although their expiry date has passed. */
  ghost function Late(rows: map<string, Subscription>, now: int): set<string> {
    set id | id in rows && rows[id].status == Active && rows[id].expiresAt.Some? && rows[id].expiresAt.value < now
  }

  class SubscriptionTable {
    var rows: map<string, Subscription>

    constructor ()
      ensures rows == map[]
    {
      rows := map[];
    }

    method ApproveSubscription(id: string, now: int) returns (r: Result<Subscription, Error>)
      modifies this
      ensures id !in old(rows) ==> r == Err(NotFound)
      ensures id in old(rows) ==> r == Approve(old(rows)[id], now)
      ensures rows == if r.Ok? then old(rows)[id := r.value] else old(rows)
      ensures r.Ok? <==> id in old(rows) && old(rows)[id].status !in {Expired, Cancelled}
      ensures r.Ok? ==> RunsOnFrom(old(rows)[id], now, r.value)
    {
      hide PeriodLater, Extended;
      if id !in rows {
        return Err(NotFound);
      }
      var s := rows[id];
      ApprovalOutcome(s, now);
      if s.status != Pending && s.status != AwaitingPayment && s.status != UnderReview && s.status != Active {
        return Err(BadRequest);
      }
      var baseDate := now;
      if s.status == Active && s.expiresAt.Some? && s.expiresAt.value > now {
        baseDate := s.expiresAt.value;
      }
      var startsAt := Some(now);
      if s.status == Active && s.startsAt.Some? {
        startsAt := s.startsAt;
      }
      var expiresAt := Extended(s.billingCycle, baseDate);
      var updated := s.(status := Active, startsAt := startsAt, expiresAt := Some(expiresAt), approvedAt := Some(now));
      rows := rows[id := updated];
      r := Ok(updated);
    }

    method RejectSubscription(id: string) returns (r: Result<Subscription, Error>)
      modifies this
      ensures id !in old(rows) ==> r == Err(NotFound) && rows == old(rows)
      ensures id in old(rows) ==> r == Ok(Reject(old(rows)[id])) && rows == old(rows)[id := r.value]
      ensures r.Ok? ==> r.value == old(rows)[id].(status := Cancelled)
    {
      if id !in rows {
        return Err(NotFound);
      }
      var updated := rows[id].(status := Cancelled);
      rows := rows[id := updated];
      r := Ok(updated);
    }

    method InitiateSubscriptionPayment(id: string) returns (r: Result<(), Error>)
      modifies this
      ensures id !in old(rows) ==> r == Err(NotFound) && rows == old(rows)
      ensures id in old(rows) ==> r == Ok(()) && rows == old(rows)[id := InitiatePayment(old(rows)[id])]
      ensures id in old(rows) ==> rows[id] == old(rows)[id].(status := AwaitingPayment)
    {
      if id !in rows {
        return Err(NotFound);
      }
      rows := rows[id := rows[id].(status := AwaitingPayment)];
      r := Ok(());
    }

    method AutoApproveSubscription(id: string, now: int) returns (r: Result<(), Error>)
      modifies this
      ensures id !in old(rows) ==> r == Err(NotFound) && rows == old(rows)
      ensures id in old(rows) ==> r == Ok(()) && rows == old(rows)[id := AutoApprove(old(rows)[id], now)]
      ensures id in old(rows) ==> rows[id] == old(rows)[id].(status := Active, startsAt := Some(now))
    {
      if id !in rows {
        return Err(NotFound);
      }
      rows := rows[id := rows[id].(status := Active, startsAt := Some(now))];
      r := Ok(());
    }

    /** The background job: every overdue row at once, counted. */
    method ExpireOverdueSubscriptions(now: int) returns (count: nat)
      modifies this
      ensures rows == map id | id in old(rows) :: Expire(old(rows)[id], now)
      ensures rows.Keys == old(rows).Keys && count == |Late(old(rows), now)|
      ensures forall id :: id in rows ==>
        rows[id] == if id in Late(old(rows), now) then old(rows)[id].(status := Expired) else old(rows)[id]
    {
      var expired := map id | id in rows && Overdue(rows[id], now) :: rows[id].(status := Expired);
      assert expired.Keys == Late(rows, now);
      rows := rows + expired;
      count := |expired|;
    }
  }
}
