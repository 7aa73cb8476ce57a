/** One inductive invariant of the sales tables, kept by every step of every run. */
module SalesInvariant {
  import opened Wrappers
  import opened LotteryStatus
  import opened Sales

  /** A ticket's status says exactly which links are set; without a payment it names no buyer. */
  ghost predicate StatusMatchesLinks(t: Ticket) {
    && (t.status == Available <==> t.reservationId.None? && t.paymentId.None?)
    && (t.status == Reserved <==> t.reservationId.Some? && t.paymentId.None?)
    && (t.status == PendingPayment || t.status == Sold <==> t.paymentId.Some?)
    && (t.buyerId.Some? ==> t.paymentId.Some?)
  }

  /**
   An open reservation has only RESERVED tickets, a confirmed one only PENDING_PAYMENT or SOLD, a cancelled one none.
   */
  ghost predicate ReservationMatches(db: Db, t: Ticket) {
    t.reservationId.Some? ==>
      && t.reservationId.value in db.reservations
      && var r := db.reservations[t.reservationId.value];
        && !r.cancelled && r.lotteryId == t.lotteryId
        && (r.confirmed <==> t.status == PendingPayment || t.status == Sold)
  }

  ghost predicate PaymentMatches(db: Db, t: Ticket) {
    t.paymentId.Some? ==>
      && t.paymentId.value in db.payments
      && (t.status == Sold ==> t.buyerId == Some(db.payments[t.paymentId.value].buyerId))
  }

  ghost predicate TicketsConsistent(db: Db) {
    forall t :: t in db.tickets ==>
      && StatusMatchesLinks(db.tickets[t])
      && ReservationMatches(db, db.tickets[t])
      && PaymentMatches(db, db.tickets[t])
      && db.tickets[t].lotteryId in db.lotteries
  }

  ghost predicate ReservationsConsistent(db: Db) {
    forall r :: r in db.reservations ==>
      && !(db.reservations[r].confirmed && db.reservations[r].cancelled)
      && db.reservations[r].lotteryId in db.lotteries
  }

  ghost predicate PaymentsConsistent(db: Db) {
    forall p :: p in db.payments ==> db.payments[p].lotteryId in db.lotteries
  }

  /** The indexes list exactly the rows with a key, so a key belongs to at most one row. */
  ghost predicate KeysConsistent(db: Db) {
    && (forall k :: k in db.reservationKeys ==>
          db.reservationKeys[k] in db.reservations && db.reservations[db.reservationKeys[k]].idempotencyKey == Some(k))
    && (forall r :: r in db.reservations && db.reservations[r].idempotencyKey.Some? ==>
          db.reservations[r].idempotencyKey.value in db.reservationKeys
            && db.reservationKeys[db.reservations[r].idempotencyKey.value] == r)
    && (forall k :: k in db.paymentKeys ==>
          db.paymentKeys[k] in db.payments && db.payments[db.paymentKeys[k]].idempotencyKey == Some(k))
    && (forall p :: p in db.payments && db.payments[p].idempotencyKey.Some? ==>
          db.payments[p].idempotencyKey.value in db.paymentKeys
            && db.paymentKeys[db.payments[p].idempotencyKey.value] == p)
  }

  ghost predicate Consistent(db: Db) {
    TicketsConsistent(db) && ReservationsConsistent(db) && PaymentsConsistent(db) && KeysConsistent(db)
  }

  // ---- One lemma per kind of write ----

  lemma ApplyReservationKeepsTickets(db: Db, req: ReserveRequest, id: Id, expiresAt: int, chosen: set<Id>)
    requires Consistent(db) && id !in db.reservations && chosen <= AvailableIn(db, req.lotteryId)
    ensures TicketsConsistent(ApplyReservation(db, req, id, expiresAt, chosen))
  {
  }

  lemma ApplyReservationKeeps(db: Db, req: ReserveRequest, id: Id, expiresAt: int, chosen: set<Id>)
    requires Consistent(db) && id !in db.reservations && req.lotteryId in db.lotteries
    requires chosen <= AvailableIn(db, req.lotteryId)
    requires !KeyTaken(db.reservationKeys, req.idempotencyKey)
    ensures Consistent(ApplyReservation(db, req, id, expiresAt, chosen))
  {
    ApplyReservationKeepsTickets(db, req, id, expiresAt, chosen);
    var next := ApplyReservation(db, req, id, expiresAt, chosen);
    assert next.payments == db.payments && next.lotteries == db.lotteries && next.paymentKeys == db.paymentKeys;
  }

  lemma StartSellingKeeps(db: Db, lotteryId: Id)
    requires Consistent(db)
    ensures Consistent(StartSelling(db, lotteryId))
  {
  }

  lemma CancelKeeps(db: Db, id: Id)
    requires Consistent(db)
    ensures Consistent(CancelReservation(db, id))
  {
  }

  lemma ApplyConfirmationKeeps(db: Db, id: Id, paymentId: Id)
    requires Consistent(db) && paymentId in db.payments && id in db.reservations && !db.reservations[id].cancelled
    ensures Consistent(ApplyConfirmation(db, id, paymentId))
  {
    var next := ApplyConfirmation(db, id, paymentId);
    forall t | t in next.tickets
      ensures StatusMatchesLinks(next.tickets[t]) && ReservationMatches(next, next.tickets[t])
        && PaymentMatches(next, next.tickets[t])
      ensures next.tickets[t].lotteryId in next.lotteries
    {
      assert ReservationMatches(db, db.tickets[t]);
    }
  }

  lemma ConfirmKeeps(db: Db, id: Id, paymentId: Id, now: int)
    requires Consistent(db) && paymentId in db.payments
    ensures Consistent(ConfirmReservation(db, id, paymentId, now).db)
  {
    CancelKeeps(db, id);
    if id in db.reservations && !db.reservations[id].cancelled {
      ApplyConfirmationKeeps(db, id, paymentId);
    }
  }

  lemma CreatePaymentKeeps(db: Db, id: Id, payment: Payment)
    requires Consistent(db) && id !in db.payments && payment.lotteryId in db.lotteries
    requires !KeyTaken(db.paymentKeys, payment.idempotencyKey)
    ensures Consistent(CreatePayment(db, id, payment))
  {
  }

  lemma SetPaymentStatusKeeps(db: Db, id: Id, status: PaymentStatus)
    requires Consistent(db)
    ensures Consistent(SetPaymentStatus(db, id, status))
  {
  }

  lemma AddSoldKeeps(db: Db, lotteryId: Id, count: int)
    requires Consistent(db)
    ensures Consistent(AddSold(db, lotteryId, count))
  {
  }

  lemma FinalizeKeeps(db: Db, paymentId: Id)
    requires Consistent(db)
    ensures Consistent(FinalizeTickets(db, paymentId))
  {
  }

  lemma ReleasePaidKeeps(db: Db, paymentId: Id)
    requires Consistent(db)
    ensures Consistent(ReleasePaid(db, paymentId))
  {
  }

  lemma SellDirectlyKeeps(db: Db, chosen: set<Id>, lotteryId: Id, paymentId: Id)
    requires Consistent(db) && chosen <= AvailableIn(db, lotteryId) && paymentId in db.payments
    ensures Consistent(SellDirectly(db, chosen, paymentId, db.payments[paymentId].buyerId))
  {
  }

  lemma ImportKeeps(db: Db, req: ImportRequest, newId: Id, picked: set<Id>, fault: FaultPoint)
    requires Consistent(db) && Possible(db, Import(req, newId, picked, fault))
    ensures Consistent(ImportRow(db, req, newId, picked, fault).db)
  {
    if KnownLottery(db, req.lotteryId) {
      var payment := Payment(req.lotteryId, req.buyerId, ImportAmount(db, req), Approved, None);
      CreatePaymentKeeps(db, newId, payment);
      var paid := CreatePayment(db, newId, payment);
      SetPaymentStatusKeeps(paid, newId, UnderReview);
      assert AvailableIn(paid, req.lotteryId) == AvailableIn(db, req.lotteryId);
      SellDirectlyKeeps(paid, picked, req.lotteryId, newId);
      AddSoldKeeps(SellDirectly(paid, picked, newId, req.buyerId), req.lotteryId, req.quantity);
    }
  }

  lemma ReserveKeeps(db: Db, req: ReserveRequest, now: int, newId: Id, picked: set<Id>)
    requires Consistent(db) && Possible(db, Reserve(req, now, newId, picked))
    ensures Consistent(ReserveTickets(db, req, now, newId, picked).db)
  {
    var chosen := ChosenTickets(db, req, picked);
    if req.lotteryId in db.lotteries && !KeyTaken(db.reservationKeys, req.idempotencyKey) {
      var expiresAt := now + RESERVATION_TIMEOUT_MS;
      ApplyReservationKeeps(db, req, newId, expiresAt, chosen);
      StartSellingKeeps(ApplyReservation(db, req, newId, expiresAt, chosen), req.lotteryId);
    }
  }

  lemma InitiateKeeps(db: Db, req: PaymentRequest, buyerId: Id, newId: Id, now: int)
    requires Consistent(db) && newId !in db.payments
    ensures Consistent(InitiatePayment(db, req, buyerId, newId, now).db)
  {
    if req.reservationId in db.reservations && req.lotteryId in db.lotteries
      && !KeyTaken(db.paymentKeys, req.idempotencyKey) {
      var amount := AmountDue(db, req.reservationId);
      var payment := Payment(req.lotteryId, buyerId, amount, Initiated, req.idempotencyKey);
      CreatePaymentKeeps(db, newId, payment);
      ConfirmKeeps(CreatePayment(db, newId, payment), req.reservationId, newId, now);
    }
  }

  lemma AddLotteryKeeps(db: Db, lotteryId: Id, ticketPrice: nat, saleEndDate: int, numbers: map<Id, string>)
    requires Consistent(db) && lotteryId !in db.lotteries && numbers.Keys !! db.tickets.Keys
    ensures Consistent(AddLottery(db, lotteryId, ticketPrice, saleEndDate, numbers))
  {
  }

  lemma RewriteLotteryKeeps(db: Db, lotteryId: Id, status: Status, deleted: bool, saleEndDate: int, ticketPrice: nat)
    requires Consistent(db)
    ensures Consistent(RewriteLottery(db, lotteryId, status, deleted, saleEndDate, ticketPrice))
  {
  }

  lemma StepKeepsConsistent(db: Db, op: Op)
    requires Consistent(db) && Possible(db, op)
    ensures Consistent(Step(db, op))
  {
    match op
    case CreateLottery(lotteryId, ticketPrice, saleEndDate, numbers) =>
      AddLotteryKeeps(db, lotteryId, ticketPrice, saleEndDate, numbers);
    case EditLottery(lotteryId, status, deleted, saleEndDate, ticketPrice) =>
      RewriteLotteryKeeps(db, lotteryId, status, deleted, saleEndDate, ticketPrice);
    case Reserve(req, now, newId, picked) => ReserveKeeps(db, req, now, newId, picked);
    case Cancel(id) => CancelKeeps(db, id);
    case Expire(id, now) => CancelKeeps(db, id);
    case Initiate(req, buyerId, newId, now) => InitiateKeeps(db, req, buyerId, newId, now);
    case Approve(id) =>
      SetPaymentStatusKeeps(db, id, Approved);
      FinalizeKeeps(SetPaymentStatus(db, id, Approved), id);
    case Reject(id) =>
      SetPaymentStatusKeeps(db, id, Rejected);
      ReleasePaidKeeps(SetPaymentStatus(db, id, Rejected), id);
    case WriteStatus(id, status) => SetPaymentStatusKeeps(db, id, status);
    case AutoApprove(id) =>
      SetPaymentStatusKeeps(db, id, Approved);
      FinalizeKeeps(SetPaymentStatus(db, id, Approved), id);
    case Import(req, newId, picked, fault) => ImportKeeps(db, req, newId, picked, fault);
  }

  /** Every reachable state is consistent. */
  lemma {:induction false} RunKeepsConsistent(db: Db, ops: seq<Op>)
    requires Consistent(db) && PossibleRun(db, ops)
    ensures Consistent(Run(db, ops))
    decreases |ops|
  {
    if ops != [] {
      StepKeepsConsistent(db, ops[0]);
      RunKeepsConsistent(Step(db, ops[0]), ops[1..]);
    }
  }

  lemma EveryReachableState(ops: seq<Op>)
    requires PossibleRun(EMPTY, ops)
    ensures Consistent(Run(EMPTY, ops))
  {
    RunKeepsConsistent(EMPTY, ops);
  }
}
