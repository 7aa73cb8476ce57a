/** What a buyer's requests promise over every run: the amount charged, and at most one effect per idempotency key. */
module SalesRequests {
  import opened Wrappers
  import opened Sales
  import opened SalesInvariant

  // ---- An open reservation holds its quantity ----

  ghost predicate IsOpen(r: Reservation) {
    !r.confirmed && !r.cancelled
  }

  ghost predicate OpenHoldsQuantity(db: Db) {
    forall r :: r in db.reservations && IsOpen(db.reservations[r]) ==> |HeldBy(db, r)| == db.reservations[r].quantity
  }

  /** No explicit ticket numbers, or as many as the stated quantity; the source does not compare the two. */
  ghost predicate SelectsQuantity(req: ReserveRequest) {
    req.ticketNumbers == [] || |req.ticketNumbers| == req.quantity
  }

  lemma ApplyReservationHolds(db: Db, req: ReserveRequest, id: Id, expiresAt: int, chosen: set<Id>)
    requires Consistent(db) && id !in db.reservations && chosen <= AvailableIn(db, req.lotteryId)
    ensures HeldBy(ApplyReservation(db, req, id, expiresAt, chosen), id) == chosen
    ensures forall r :: r in db.reservations ==>
      HeldBy(ApplyReservation(db, req, id, expiresAt, chosen), r) == HeldBy(db, r)
  {
    var next := ApplyReservation(db, req, id, expiresAt, chosen);
    forall t | t in db.tickets
      ensures t in HeldBy(next, id) <==> t in chosen
    {
      assert ReservationMatches(db, db.tickets[t]);
    }
    forall r | r in db.reservations
      ensures HeldBy(next, r) == HeldBy(db, r)
    {
      forall t | t in db.tickets
        ensures t in HeldBy(next, r) <==> t in HeldBy(db, r)
      {
        assert t in chosen ==> StatusMatchesLinks(db.tickets[t]);
      }
    }
  }

  lemma StartSellingKeepsHeld(db: Db, lotteryId: Id)
    ensures StartSelling(db, lotteryId).tickets == db.tickets
      && StartSelling(db, lotteryId).reservations == db.reservations
  {
  }

  /** A new reservation holds its quantity exactly when the request selects that many tickets. */
  lemma ReservedQuantityIff(db: Db, req: ReserveRequest, now: int, newId: Id, picked: set<Id>)
    requires Consistent(db) && Possible(db, Reserve(req, now, newId, picked))
    requires ReserveTickets(db, req, now, newId, picked).result.Ok? && !Replays(db.reservationKeys, req.idempotencyKey)
    ensures var next := ReserveTickets(db, req, now, newId, picked).db;
      && newId in next.reservations
      && (|HeldBy(next, newId)| == next.reservations[newId].quantity <==> SelectsQuantity(req))
      && (forall r :: r in db.reservations ==> r in next.reservations && next.reservations[r] == db.reservations[r]
                                               && HeldBy(next, r) == HeldBy(db, r))
      && (forall r :: r in next.reservations ==> r in db.reservations || r == newId)
  {
    var chosen := ChosenTickets(db, req, picked);
    var expiresAt := now + RESERVATION_TIMEOUT_MS;
    var applied := ApplyReservation(db, req, newId, expiresAt, chosen);
    ApplyReservationHolds(db, req, newId, expiresAt, chosen);
    StartSellingKeepsHeld(applied, req.lotteryId);
    assert forall r :: HeldBy(StartSelling(applied, req.lotteryId), r) == HeldBy(applied, r);
  }

  /** Every step leaves an open reservation open and its tickets alone, or closes it. */
  ghost predicate LeavesOpenAlone(db: Db, next: Db) {
    forall r :: r in next.reservations && IsOpen(next.reservations[r]) ==>
      r in db.reservations && IsOpen(db.reservations[r]) && next.reservations[r].quantity == db.reservations[r].quantity
      && HeldBy(next, r) == HeldBy(db, r)
  }

  lemma LeavingAloneKeeps(db: Db, next: Db)
    requires OpenHoldsQuantity(db) && LeavesOpenAlone(db, next)
    ensures OpenHoldsQuantity(next)
  {
  }

  lemma CancelLeavesAlone(db: Db, id: Id)
    requires Consistent(db)
    ensures LeavesOpenAlone(db, CancelReservation(db, id))
  {
  }

  lemma ApplyConfirmationLeavesAlone(db: Db, id: Id, paymentId: Id)
    requires Consistent(db) && id in db.reservations
    ensures LeavesOpenAlone(db, ApplyConfirmation(db, id, paymentId))
  {
  }

  lemma ConfirmLeavesAlone(db: Db, id: Id, paymentId: Id, now: int)
    requires Consistent(db)
    ensures LeavesOpenAlone(db, ConfirmReservation(db, id, paymentId, now).db)
  {
    SameHoldsLeaveAlone(db, db);
    CancelLeavesAlone(db, id);
    if id in db.reservations {
      ApplyConfirmationLeavesAlone(db, id, paymentId);
    }
  }

  /** No reservation row and no ticket's reservation link changed. */
  ghost predicate SameHolds(db: Db, next: Db) {
    && next.reservations == db.reservations
    && next.tickets.Keys == db.tickets.Keys
    && forall t :: t in db.tickets ==> next.tickets[t].reservationId == db.tickets[t].reservationId
  }

  lemma SameHoldsLeaveAlone(db: Db, next: Db)
    requires SameHolds(db, next)
    ensures LeavesOpenAlone(db, next)
  {
    assert forall r :: HeldBy(next, r) == HeldBy(db, r);
  }

  lemma ThenLeavesAlone(db: Db, middle: Db, next: Db)
    requires SameHolds(db, middle) && LeavesOpenAlone(middle, next)
    ensures LeavesOpenAlone(db, next)
  {
    assert forall r :: HeldBy(middle, r) == HeldBy(db, r);
  }

  lemma InitiateLeavesAlone(db: Db, req: PaymentRequest, buyerId: Id, newId: Id, now: int)
    requires Consistent(db) && newId !in db.payments
    ensures LeavesOpenAlone(db, InitiatePayment(db, req, buyerId, newId, now).db)
  {
    SameHoldsLeaveAlone(db, db);
    if req.reservationId in db.reservations && req.lotteryId in db.lotteries
      && !KeyTaken(db.paymentKeys, req.idempotencyKey) {
      var amount := AmountDue(db, req.reservationId);
      var payment := Payment(req.lotteryId, buyerId, amount, Initiated, req.idempotencyKey);
      var created := CreatePayment(db, newId, payment);
      CreatePaymentKeeps(db, newId, payment);
      ConfirmLeavesAlone(created, req.reservationId, newId, now);
      ThenLeavesAlone(db, created, ConfirmReservation(created, req.reservationId, newId, now).db);
    }
  }

  lemma ApprovalLeavesAlone(db: Db, id: Id)
    ensures LeavesOpenAlone(db, FinalizeTickets(SetPaymentStatus(db, id, Approved), id))
  {
    ApprovalKeepsHolds(db, id);
    SameHoldsLeaveAlone(db, FinalizeTickets(SetPaymentStatus(db, id, Approved), id));
  }

  lemma RejectLeavesAlone(db: Db, id: Id)
    requires Consistent(db)
    ensures LeavesOpenAlone(db, RejectPayment(db, id).db)
  {
    var next := RejectPayment(db, id).db;
    forall r | r in db.reservations && IsOpen(db.reservations[r])
      ensures HeldBy(next, r) == HeldBy(db, r)
    {
      forall t | t in db.tickets
        ensures t in HeldBy(next, r) <==> t in HeldBy(db, r)
      {
        assert ReservationMatches(db, db.tickets[t]) && StatusMatchesLinks(db.tickets[t]);
      }
    }
  }

  lemma SellingKeepsHolds(db: Db, chosen: set<Id>, paymentId: Id, buyerId: Id, lotteryId: Id, count: int)
    ensures SameHolds(db, AddSold(SellDirectly(db, chosen, paymentId, buyerId), lotteryId, count))
  {
  }

  lemma ApprovalKeepsHolds(db: Db, id: Id)
    ensures SameHolds(db, FinalizeTickets(SetPaymentStatus(db, id, Approved), id))
  {
  }

  lemma ImportLeavesAlone(db: Db, req: ImportRequest, newId: Id, picked: set<Id>, fault: FaultPoint)
    requires Consistent(db) && Possible(db, Import(req, newId, picked, fault))
    ensures LeavesOpenAlone(db, ImportRow(db, req, newId, picked, fault).db)
  {
    var next := ImportRow(db, req, newId, picked, fault).db;
    if KnownLottery(db, req.lotteryId) {
      var payment := Payment(req.lotteryId, req.buyerId, ImportAmount(db, req), Approved, None);
      var paid := CreatePayment(db, newId, payment);
      var sold := AddSold(SellDirectly(paid, picked, newId, req.buyerId), req.lotteryId, req.quantity);
      SellingKeepsHolds(paid, picked, newId, req.buyerId, req.lotteryId, req.quantity);
      assert next == db || next == paid || next == SetPaymentStatus(paid, newId, UnderReview) || next == sold;
    }
    SameHoldsLeaveAlone(db, next);
  }

  lemma AddLotteryLeavesAlone(db: Db, lotteryId: Id, ticketPrice: nat, saleEndDate: int, numbers: map<Id, string>)
    requires numbers.Keys !! db.tickets.Keys
    ensures LeavesOpenAlone(db, AddLottery(db, lotteryId, ticketPrice, saleEndDate, numbers))
  {
    var next := AddLottery(db, lotteryId, ticketPrice, saleEndDate, numbers);
    assert forall r :: HeldBy(next, r) == HeldBy(db, r);
  }

  lemma StepKeepsOpenHoldsQuantity(db: Db, op: Op)
    requires Consistent(db) && OpenHoldsQuantity(db) && Possible(db, op)
    requires op.Reserve? ==> SelectsQuantity(op.reserveRequest)
    ensures OpenHoldsQuantity(Step(db, op))
  {
    if op.Reserve? {
      var reply := ReserveTickets(db, op.reserveRequest, op.now, op.newId, op.picked);
      if reply.result.Ok? && !Replays(db.reservationKeys, op.reserveRequest.idempotencyKey) {
        ReservedQuantityIff(db, op.reserveRequest, op.now, op.newId, op.picked);
      }
    } else {
      StepLeavesOpenAlone(db, op);
      LeavingAloneKeeps(db, Step(db, op));
    }
  }

  lemma StepLeavesOpenAlone(db: Db, op: Op)
    requires Consistent(db) && Possible(db, op) && !op.Reserve?
    ensures LeavesOpenAlone(db, Step(db, op))
  {
    match op
    case CreateLottery(lotteryId, ticketPrice, saleEndDate, numbers) =>
      AddLotteryLeavesAlone(db, lotteryId, ticketPrice, saleEndDate, numbers);
    case EditLottery(_, _, _, _, _) => SameHoldsLeaveAlone(db, Step(db, op));
    case Cancel(id) => CancelLeavesAlone(db, id);
    case Expire(id, _) => CancelLeavesAlone(db, id); SameHoldsLeaveAlone(db, db);
    case Initiate(req, buyerId, newId, now) => InitiateLeavesAlone(db, req, buyerId, newId, now);
    case Approve(id) => ApprovalLeavesAlone(db, id); SameHoldsLeaveAlone(db, db);
    case Reject(id) => RejectLeavesAlone(db, id);
    case WriteStatus(id, status) => SameHoldsLeaveAlone(db, SetPaymentStatus(db, id, status));
    case AutoApprove(id) => ApprovalLeavesAlone(db, id);
    case Import(req, newId, picked, fault) => ImportLeavesAlone(db, req, newId, picked, fault);
  }

  lemma {:induction false} RunKeepsOpenHoldsQuantity(db: Db, ops: seq<Op>)
    requires Consistent(db) && OpenHoldsQuantity(db) && PossibleRun(db, ops)
    requires forall op :: op in ops && op.Reserve? ==> SelectsQuantity(op.reserveRequest)
    ensures OpenHoldsQuantity(Run(db, ops))
    decreases |ops|
  {
    if ops != [] {
      StepKeepsOpenHoldsQuantity(db, ops[0]);
      StepKeepsConsistent(db, ops[0]);
      RunKeepsOpenHoldsQuantity(Step(db, ops[0]), ops[1..]);
    }
  }

  // ---- The first payment of a reservation ----

  /** It moves exactly the reservation's tickets, from RESERVED to PENDING_PAYMENT. */
  lemma FirstPaymentMovesHeldTickets(db: Db, req: PaymentRequest, buyerId: Id, newId: Id, now: int)
    requires Consistent(db) && newId !in db.payments
    requires req.reservationId in db.reservations && IsOpen(db.reservations[req.reservationId])
    requires !Replays(db.paymentKeys, req.idempotencyKey)
    requires InitiatePayment(db, req, buyerId, newId, now).result.Ok?
    ensures var next := InitiatePayment(db, req, buyerId, newId, now).db;
      && newId in next.payments
      && PaidBy(next, newId) == HeldBy(db, req.reservationId)
      && (forall t :: t in PaidBy(next, newId) ==>
          db.tickets[t].status == Reserved && next.tickets[t].status == PendingPayment)
  {
    var next := InitiatePayment(db, req, buyerId, newId, now).db;
    forall t | t in db.tickets
      ensures t in PaidBy(next, newId) <==> t in HeldBy(db, req.reservationId)
      ensures t in HeldBy(db, req.reservationId) ==> db.tickets[t].status == Reserved
    {
      assert PaymentMatches(db, db.tickets[t]) && ReservationMatches(db, db.tickets[t])
        && StatusMatchesLinks(db.tickets[t]);
    }
  }

  /** In every run, a successful first payment charges the ticket price times the number of tickets it moves. */
  lemma AmountMatchesTickets(ops: seq<Op>, req: PaymentRequest, buyerId: Id, newId: Id, now: int)
    requires PossibleRun(EMPTY, ops)
    requires forall op :: op in ops && op.Reserve? ==> SelectsQuantity(op.reserveRequest)
    requires var db := Run(EMPTY, ops);
      && newId !in db.payments && req.reservationId in db.reservations && IsOpen(db.reservations[req.reservationId])
      && !Replays(db.paymentKeys, req.idempotencyKey) && InitiatePayment(db, req, buyerId, newId, now).result.Ok?
    ensures var db := Run(EMPTY, ops);
      var next := InitiatePayment(db, req, buyerId, newId, now).db;
      && db.reservations[req.reservationId].lotteryId in db.lotteries
      && newId in next.payments
      && next.payments[newId].amount
         == db.lotteries[db.reservations[req.reservationId].lotteryId].ticketPrice * |PaidBy(next, newId)|
  {
    RunKeepsConsistent(EMPTY, ops);
    RunKeepsOpenHoldsQuantity(EMPTY, ops);
    FirstPaymentMovesHeldTickets(Run(EMPTY, ops), req, buyerId, newId, now);
  }

  /**
   Once a request passes its checks, its payment row is written; the call fails exactly when the reservation has
   expired. The row then stays without tickets, and the same key finds it: repeating the failed request reports success.
   */
  lemma PaymentFailsIffExpired(db: Db, req: PaymentRequest, buyerId: Id, newId: Id, now: int)
    requires Consistent(db) && newId !in db.payments && !KeyTaken(db.paymentKeys, req.idempotencyKey)
    requires req.reservationId in db.reservations && !db.reservations[req.reservationId].cancelled
      && req.lotteryId in db.lotteries
    ensures var reply := InitiatePayment(db, req, buyerId, newId, now);
      && newId in reply.db.payments
      && (reply.result.Err? <==> db.reservations[req.reservationId].expiresAt < now)
      && (reply.result.Err? ==> PaidBy(reply.db, newId) == {})
    ensures var reply := InitiatePayment(db, req, buyerId, newId, now);
      forall buyer, id, later :: req.idempotencyKey.Some? && req.idempotencyKey.value != "" ==>
        InitiatePayment(reply.db, req, buyer, id, later) == Reply(reply.db, Ok(newId))
  {
    var next := InitiatePayment(db, req, buyerId, newId, now).db;
    if db.reservations[req.reservationId].expiresAt < now {
      forall t | t in db.tickets
        ensures next.tickets[t].paymentId != Some(newId)
      {
        assert PaymentMatches(db, db.tickets[t]);
      }
    }
  }

  // ---- At most once per key ----

  /** Rows are never deleted, and keep their key. */
  ghost predicate Keeps<V>(before: map<string, V>, after: map<string, V>) {
    forall k :: k in before ==> k in after && after[k] == before[k]
  }

  ghost predicate KeepsKeys(db: Db, next: Db) {
    Keeps(db.reservationKeys, next.reservationKeys) && Keeps(db.paymentKeys, next.paymentKeys)
  }

  lemma ReserveKeepsKeys(db: Db, req: ReserveRequest, now: int, newId: Id, picked: set<Id>)
    ensures KeepsKeys(db, ReserveTickets(db, req, now, newId, picked).db)
  {
  }

  lemma InitiateKeepsKeys(db: Db, req: PaymentRequest, buyerId: Id, newId: Id, now: int)
    ensures KeepsKeys(db, InitiatePayment(db, req, buyerId, newId, now).db)
  {
  }

  ghost predicate SameKeys(db: Db, next: Db) {
    next.reservationKeys == db.reservationKeys && next.paymentKeys == db.paymentKeys
  }

  lemma ImportAddsNoKeys(db: Db, req: ImportRequest, newId: Id, picked: set<Id>, fault: FaultPoint)
    ensures SameKeys(db, ImportRow(db, req, newId, picked, fault).db)
  {
  }

  lemma ReviewAddsNoKeys(db: Db, id: Id)
    ensures SameKeys(db, FinalizeTickets(SetPaymentStatus(db, id, Approved), id))
    ensures SameKeys(db, RejectPayment(db, id).db)
  {
  }

  lemma StepKeepsKeys(db: Db, op: Op)
    requires Possible(db, op)
    ensures KeepsKeys(db, Step(db, op))
  {
    match op
    case CreateLottery(_, _, _, _) => assert SameKeys(db, Step(db, op));
    case EditLottery(_, _, _, _, _) => assert SameKeys(db, Step(db, op));
    case Reserve(req, now, newId, picked) => ReserveKeepsKeys(db, req, now, newId, picked);
    case Cancel(id) => assert SameKeys(db, CancelReservation(db, id));
    case Expire(id, _) => assert SameKeys(db, CancelReservation(db, id));
    case Initiate(req, buyerId, newId, now) => InitiateKeepsKeys(db, req, buyerId, newId, now);
    case Approve(id) => ReviewAddsNoKeys(db, id);
    case Reject(id) => ReviewAddsNoKeys(db, id);
    case WriteStatus(id, status) => assert SameKeys(db, SetPaymentStatus(db, id, status));
    case AutoApprove(id) => ReviewAddsNoKeys(db, id);
    case Import(req, newId, picked, fault) => ImportAddsNoKeys(db, req, newId, picked, fault);
  }

  lemma {:induction false} RunKeepsKeys(db: Db, ops: seq<Op>)
    requires PossibleRun(db, ops)
    ensures KeepsKeys(db, Run(db, ops))
    decreases |ops|
  {
    if ops != [] {
      StepKeepsKeys(db, ops[0]);
      RunKeepsKeys(Step(db, ops[0]), ops[1..]);
    }
  }

  /** A key belongs to at most one reservation and at most one payment. */
  ghost predicate KeysUsedOnce(db: Db) {
    && (forall r, s :: r in db.reservations && s in db.reservations && r != s ==>
          db.reservations[r].idempotencyKey.None?
            || db.reservations[r].idempotencyKey != db.reservations[s].idempotencyKey)
    && (forall p, q :: p in db.payments && q in db.payments && p != q ==>
          db.payments[p].idempotencyKey.None? || db.payments[p].idempotencyKey != db.payments[q].idempotencyKey)
  }

  lemma KeysAreUsedOnce(ops: seq<Op>)
    requires PossibleRun(EMPTY, ops)
    ensures KeysUsedOnce(Run(EMPTY, ops))
  {
    RunKeepsConsistent(EMPTY, ops);
  }

  lemma ReserveStoresKey(db: Db, req: ReserveRequest, now: int, newId: Id, picked: set<Id>)
    requires req.idempotencyKey.Some? && ReserveTickets(db, req, now, newId, picked).result.Ok?
    ensures var reply := ReserveTickets(db, req, now, newId, picked);
      req.idempotencyKey.value in reply.db.reservationKeys
      && reply.result == Ok(reply.db.reservationKeys[req.idempotencyKey.value])
  {
  }

  lemma TakenReservationKey(db: Db, req: ReserveRequest, now: int, newId: Id, picked: set<Id>)
    requires KeyTaken(db.reservationKeys, req.idempotencyKey)
    ensures ReserveTickets(db, req, now, newId, picked).db == db
    ensures req.idempotencyKey.value != "" ==>
      ReserveTickets(db, req, now, newId, picked).result == Ok(db.reservationKeys[req.idempotencyKey.value])
    ensures req.idempotencyKey.value == "" ==> ReserveTickets(db, req, now, newId, picked).result.Err?
  {
  }

  /** Once a reservation with a key exists, the same key later returns that reservation and changes nothing. */
  lemma ReservationReplays(db: Db, first: Op, between: seq<Op>, again: ReserveRequest, now: int, newId: Id,
                           picked: set<Id>)
    requires first.Reserve? && Possible(db, first) && PossibleRun(Step(db, first), between)
    requires ReserveTickets(db, first.reserveRequest, first.now, first.newId, first.picked).result.Ok?
    requires again.idempotencyKey == first.reserveRequest.idempotencyKey && again.idempotencyKey.Some?
    ensures var earlier := ReserveTickets(db, first.reserveRequest, first.now, first.newId, first.picked).result;
      var later := Run(Step(db, first), between);
      var reply := ReserveTickets(later, again, now, newId, picked);
      && reply.db == later
      && (again.idempotencyKey.value != "" ==> reply.result == earlier)
      && (again.idempotencyKey.value == "" ==> reply.result.Err?)
  {
    ReserveStoresKey(db, first.reserveRequest, first.now, first.newId, first.picked);
    RunKeepsKeys(Step(db, first), between);
    TakenReservationKey(Run(Step(db, first), between), again, now, newId, picked);
  }

  lemma InitiateStoresKey(db: Db, req: PaymentRequest, buyerId: Id, newId: Id, now: int)
    requires req.idempotencyKey.Some? && InitiatePayment(db, req, buyerId, newId, now).result.Ok?
    ensures var reply := InitiatePayment(db, req, buyerId, newId, now);
      req.idempotencyKey.value in reply.db.paymentKeys
      && reply.result == Ok(reply.db.paymentKeys[req.idempotencyKey.value])
  {
  }

  lemma TakenPaymentKey(db: Db, req: PaymentRequest, buyerId: Id, newId: Id, now: int)
    requires KeyTaken(db.paymentKeys, req.idempotencyKey)
    ensures InitiatePayment(db, req, buyerId, newId, now).db == db
    ensures req.idempotencyKey.value != "" ==>
      InitiatePayment(db, req, buyerId, newId, now).result == Ok(db.paymentKeys[req.idempotencyKey.value])
    ensures req.idempotencyKey.value == "" ==> InitiatePayment(db, req, buyerId, newId, now).result.Err?
  {
  }

  /** The same for payments. */
  lemma PaymentReplays(db: Db, first: Op, between: seq<Op>, again: PaymentRequest, buyerId: Id, newId: Id, now: int)
    requires first.Initiate? && Possible(db, first) && PossibleRun(Step(db, first), between)
    requires InitiatePayment(db, first.paymentRequest, first.buyerId, first.newId, first.now).result.Ok?
    requires again.idempotencyKey == first.paymentRequest.idempotencyKey && again.idempotencyKey.Some?
    ensures var earlier := InitiatePayment(db, first.paymentRequest, first.buyerId, first.newId, first.now).result;
      var later := Run(Step(db, first), between);
      var reply := InitiatePayment(later, again, buyerId, newId, now);
      && reply.db == later
      && (again.idempotencyKey.value != "" ==> reply.result == earlier)
      && (again.idempotencyKey.value == "" ==> reply.result.Err?)
  {
    InitiateStoresKey(db, first.paymentRequest, first.buyerId, first.newId, first.now);
    RunKeepsKeys(Step(db, first), between);
    TakenPaymentKey(Run(Step(db, first), between), again, buyerId, newId, now);
  }
}
