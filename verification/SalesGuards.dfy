/**
 Exactly when each sales call succeeds, and every row other than tickets that it writes. The conditions are stated on
 the rows themselves.
 */
module SalesGuards {
  import opened Wrappers
  import opened LotteryStatus
  import opened Sales
  import opened SalesInvariant
  import opened Sets

  // ---- Reservations ----

  /** The lottery is there, on sale, and its sale has not ended. */
  ghost predicate OnSale(db: Db, lotteryId: Id, now: int) {
    && lotteryId in db.lotteries
    && !db.lotteries[lotteryId].deleted
    && db.lotteries[lotteryId].status in {Published, Selling}
    && now <= db.lotteries[lotteryId].saleEndDate
  }

  ghost predicate IsAvailable(db: Db, t: Id, lotteryId: Id) {
    t in db.tickets && db.tickets[t].lotteryId == lotteryId && db.tickets[t].status == Available
  }

  /** As many available tickets as numbers named, or at least the quantity asked for. */
  ghost predicate EnoughAvailable(db: Db, req: ReserveRequest) {
    var free := set t | t in db.tickets && IsAvailable(db, t, req.lotteryId);
    if req.ticketNumbers == [] then |free| >= req.quantity
    else |set t | t in free && db.tickets[t].number in req.ticketNumbers| == |req.ticketNumbers|
  }

  ghost predicate NewKey(keys: map<string, Id>, key: Option<string>) {
    key.Some? ==> key.value !in keys
  }

  /** A used key that is not empty is answered with its first row. */
  ghost predicate IsReplay(keys: map<string, Id>, key: Option<string>) {
    key.Some? && key.value != "" && key.value in keys
  }

  lemma AvailableRows(db: Db, lotteryId: Id, numbers: seq<string>)
    ensures var free := set t | t in db.tickets && IsAvailable(db, t, lotteryId);
      && AvailableIn(db, lotteryId) == free
      && AvailableByNumber(db, lotteryId, numbers) == set t | t in free && db.tickets[t].number in numbers
  {
  }

  lemma EnoughIff(db: Db, req: ReserveRequest, picked: set<Id>)
    requires |picked| == Min(req.quantity, |AvailableIn(db, req.lotteryId)|)
    ensures EnoughAvailable(db, req) <==>
      if req.ticketNumbers == [] then |ChosenTickets(db, req, picked)| >= req.quantity
      else |ChosenTickets(db, req, picked)| == |req.ticketNumbers|
  {
    AvailableRows(db, req.lotteryId, req.ticketNumbers);
    hide IsAvailable, AvailableIn, AvailableByNumber;
  }

  /** Ticket numbers are unique within a lottery. */
  ghost predicate UniqueNumbers(db: Db) {
    forall t, u :: t in db.tickets && u in db.tickets && t != u ==>
      db.tickets[t].lotteryId != db.tickets[u].lotteryId || db.tickets[t].number != db.tickets[u].number
  }

  ghost predicate NumberAvailable(db: Db, lotteryId: Id, number: string) {
    exists t :: IsAvailable(db, t, lotteryId) && db.tickets[t].number == number
  }

  ghost function NumberOf(db: Db): Id -> string {
    (t: Id) => if t in db.tickets then db.tickets[t].number else ""
  }

  /** Comparing the two counts is enough: they are equal exactly when no number is named twice and each is available. */
  lemma NamedNumbersIff(db: Db, req: ReserveRequest)
    requires UniqueNumbers(db) && req.ticketNumbers != []
    ensures EnoughAvailable(db, req) <==>
      && NoRepeats(req.ticketNumbers)
      && forall n :: n in req.ticketNumbers ==> NumberAvailable(db, req.lotteryId, n)
  {
    var free := set t | t in db.tickets && IsAvailable(db, t, req.lotteryId);
    var named := set t | t in free && db.tickets[t].number in req.ticketNumbers;
    var found, asked := Image(named, NumberOf(db)), Elements(req.ticketNumbers);
    assert Injective(named, NumberOf(db));
    ImageSize(named, NumberOf(db));
    ElementCount(req.ticketNumbers);
    FoundNumbers(db, req, named, found);
    SubsetSize(found, asked);
    if |named| == |req.ticketNumbers| {
      SameSizeSubset(found, asked);
    } else if forall n :: n in req.ticketNumbers ==> NumberAvailable(db, req.lotteryId, n) {
      assert found == asked;
    }
  }

  lemma FoundNumbers(db: Db, req: ReserveRequest, named: set<Id>, found: set<string>)
    requires forall t :: t in named <==> IsAvailable(db, t, req.lotteryId) && db.tickets[t].number in req.ticketNumbers
    requires found == Image(named, NumberOf(db))
    ensures forall n :: n in found <==> n in req.ticketNumbers && NumberAvailable(db, req.lotteryId, n)
  {
    forall n | n in req.ticketNumbers && NumberAvailable(db, req.lotteryId, n)
      ensures n in found
    {
      var t :| IsAvailable(db, t, req.lotteryId) && db.tickets[t].number == n;
      assert t in named && NumberOf(db)(t) == n;
    }
  }

  /** The rows a reservation writes besides its tickets: its own, for fifteen minutes, and the lottery's status. */
  ghost predicate ReservationWritten(db: Db, next: Db, req: ReserveRequest, now: int, newId: Id) {
    && next.reservations == db.reservations[
         newId := Reservation(req.lotteryId, req.quantity, now + 900_000, false, false, req.idempotencyKey)]
    && req.lotteryId in db.lotteries
    && next.lotteries == db.lotteries[req.lotteryId := db.lotteries[req.lotteryId].(status := Selling)]
    && next.payments == db.payments
  }

  /** The answer to a request, and everything it writes besides tickets. Only the last case writes anything at all. */
  ghost predicate ReserveAnswered(db: Db, next: Db, req: ReserveRequest, now: int, newId: Id, r: Result<Id, Error>) {
    if IsReplay(db.reservationKeys, req.idempotencyKey)
    then next == db && r == Ok(db.reservationKeys[req.idempotencyKey.value])
    else if req.lotteryId !in db.lotteries || db.lotteries[req.lotteryId].deleted then next == db && r == Err(NotFound)
    else if !OnSale(db, req.lotteryId, now) then next == db && r == Err(BadRequest)
    else if !EnoughAvailable(db, req) then next == db && r == Err(Conflict)
    else if !NewKey(db.reservationKeys, req.idempotencyKey) then next == db && r == Err(UniqueViolation)
    else r == Ok(newId) && ReservationWritten(db, next, req, now, newId)
  }

  /** A request is a replay, or succeeds exactly when its lottery is on sale, the tickets are there and its key new. */
  lemma ReserveSucceedsIff(db: Db, req: ReserveRequest, now: int, newId: Id, picked: set<Id>)
    requires Possible(db, Reserve(req, now, newId, picked))
    ensures var reply := ReserveTickets(db, req, now, newId, picked);
      ReserveAnswered(db, reply.db, req, now, newId, reply.result)
  {
    hide EnoughAvailable, AvailableIn, ChosenTickets;
    EnoughIff(db, req, picked);
    if OnSale(db, req.lotteryId, now) {
      var chosen := ChosenTickets(db, req, picked);
      SellingStarts(ApplyReservation(db, req, newId, now + RESERVATION_TIMEOUT_MS, chosen), req.lotteryId);
    }
  }

  lemma SellingStarts(db: Db, lotteryId: Id)
    requires lotteryId in db.lotteries && db.lotteries[lotteryId].status in {Published, Selling}
    ensures StartSelling(db, lotteryId).lotteries
      == db.lotteries[lotteryId := db.lotteries[lotteryId].(status := Selling)]
  {
  }

  /** A reservation is confirmed exactly when it exists, is not cancelled and its time has not passed. */
  lemma ConfirmSucceedsIff(db: Db, id: Id, paymentId: Id, now: int)
    ensures var reply := ConfirmReservation(db, id, paymentId, now);
      && (reply.result.Ok? <==>
            id in db.reservations && !db.reservations[id].cancelled && now <= db.reservations[id].expiresAt)
      && (reply.result.Ok? ==>
            && reply.result == Ok(paymentId)
            && reply.db.reservations == db.reservations[id := db.reservations[id].(confirmed := true)])
      && (id !in db.reservations ==> reply == Reply(db, Err(NotFound)))
      && (id in db.reservations && reply.result.Err? ==> reply.result == Err(BadRequest))
      && (id in db.reservations && db.reservations[id].cancelled ==> reply.db == db)
      && reply.db.payments == db.payments && reply.db.lotteries == db.lotteries
  {
  }

  // ---- Payments ----

  /**
   The answer to a payment request: it is a replay, or needs a reservation that is neither cancelled nor out of time, an
   existing lottery and a new key. The payment row is written before the time is checked.
   */
  ghost predicate InitiateAnswered(db: Db, next: Db, req: PaymentRequest, buyerId: Id, newId: Id, now: int,
                                   r: Result<Id, Error>)
  {
    if IsReplay(db.paymentKeys, req.idempotencyKey)
    then next == db && r == Ok(db.paymentKeys[req.idempotencyKey.value])
    else if req.reservationId !in db.reservations then next == db && r == Err(NotFound)
    else if db.reservations[req.reservationId].cancelled then next == db && r == Err(BadRequest)
    else if req.lotteryId !in db.lotteries then next == db && r == Err(ForeignKeyViolation)
    else if !NewKey(db.paymentKeys, req.idempotencyKey) then next == db && r == Err(UniqueViolation)
    else
      && PaymentWritten(db, next, req, buyerId, newId)
      && (db.reservations[req.reservationId].expiresAt < now ==> r == Err(BadRequest))
      && (now <= db.reservations[req.reservationId].expiresAt ==>
            && r == Ok(newId)
            && next.reservations
               == db.reservations[req.reservationId := db.reservations[req.reservationId].(confirmed := true)])
  }

  lemma InitiateSucceedsIff(db: Db, req: PaymentRequest, buyerId: Id, newId: Id, now: int)
    requires Consistent(db) && newId !in db.payments
    ensures var reply := InitiatePayment(db, req, buyerId, newId, now);
      InitiateAnswered(db, reply.db, req, buyerId, newId, now, reply.result)
  {
    hide ApplyConfirmation, CancelReservation;
    if req.reservationId in db.reservations {
      HasLottery(db, req.reservationId);
      hide Consistent;
      var payment := Payment(req.lotteryId, buyerId, AmountDue(db, req.reservationId), Initiated, req.idempotencyKey);
      ConfirmSucceedsIff(CreatePayment(db, newId, payment), req.reservationId, newId, now);
    }
  }

  lemma HasLottery(db: Db, id: Id)
    requires Consistent(db) && id in db.reservations
    ensures db.reservations[id].lotteryId in db.lotteries
  {
  }

  ghost predicate PaymentWritten(db: Db, next: Db, req: PaymentRequest, buyerId: Id, newId: Id) {
    && req.reservationId in db.reservations
    && var r := db.reservations[req.reservationId];
      && r.lotteryId in db.lotteries
      && next.payments == db.payments[newId :=
           Payment(req.lotteryId, buyerId, db.lotteries[r.lotteryId].ticketPrice * r.quantity, Initiated,
                   req.idempotencyKey)]
      && next.lotteries == db.lotteries
  }

  lemma OneOfSix(s: PaymentStatus)
    ensures s in {Initiated, Submitted, UnderReview, Approved, Rejected, Refunded}
  {
    assert s.Initiated? || s.Submitted? || s.UnderReview? || s.Approved? || s.Rejected? || s.Refunded?;
  }

  /** A payment can be approved unless it is approved or refunded already. */
  lemma ApproveSucceedsIff(db: Db, id: Id)
    ensures var reply := ApprovePayment(db, id);
      && (reply.result.Ok? <==> id in db.payments && db.payments[id].status !in {Approved, Refunded})
      && (reply.result.Ok? ==>
            && reply.db.payments == db.payments[id := db.payments[id].(status := Approved)]
            && reply.db.reservations == db.reservations)
      && (reply.result.Err? ==>
            reply == Reply(db, Err(if id in db.payments then BadRequest else NotFound)))
  {
    if id in db.payments {
      OneOfSix(db.payments[id].status);
    }
  }

  /** A payment can be rejected unless it is rejected or refunded already; an approved one can. */
  lemma RejectSucceedsIff(db: Db, id: Id)
    ensures var reply := RejectPayment(db, id);
      && (reply.result.Ok? <==> id in db.payments && db.payments[id].status !in {Rejected, Refunded})
      && (reply.result.Ok? ==>
            && reply.db.payments == db.payments[id := db.payments[id].(status := Rejected)]
            && reply.db.reservations == db.reservations && reply.db.lotteries == db.lotteries)
      && (reply.result.Err? ==>
            reply == Reply(db, Err(if id in db.payments then BadRequest else NotFound)))
  {
    if id in db.payments {
      OneOfSix(db.payments[id].status);
    }
  }

  // ---- Import rows ----

  /** The operator's own amount, where the spreadsheet has one, and else the price of the tickets asked for. */
  ghost predicate Charges(db: Db, req: ImportRequest, amount: int) {
    && req.lotteryId in db.lotteries
    && (req.amountPaid.Some? ==> amount == req.amountPaid.value)
    && (req.amountPaid.None? ==> amount == db.lotteries[req.lotteryId].ticketPrice * req.quantity)
  }

  ghost predicate ImportWritten(db: Db, next: Db, req: ImportRequest, newId: Id, amount: int, status: PaymentStatus,
                                sold: int)
  {
    && req.lotteryId in db.lotteries
    && next.payments == db.payments[newId := Payment(req.lotteryId, req.buyerId, amount, status, None)]
    && next.lotteries == db.lotteries[req.lotteryId := db.lotteries[req.lotteryId].(
         ticketsSold := db.lotteries[req.lotteryId].ticketsSold + sold)]
    && next.reservations == db.reservations
  }

  /** Each way an import row can end, by its lottery, the tickets left and where a fault strikes. */
  lemma ImportRowOutcome(db: Db, req: ImportRequest, newId: Id, picked: set<Id>, fault: FaultPoint)
    requires Possible(db, Import(req, newId, picked, fault))
    ensures var r := ImportRow(db, req, newId, picked, fault);
      if req.lotteryId !in db.lotteries || db.lotteries[req.lotteryId].deleted
      then r == ImportReply(db, RowResult(RowError, 0, {}))
      else
        && Charges(db, req, r.row.amount)
        && match fault
           case BeforePayment => r.row.status == RowError && r.db == db
           case AfterPayment =>
             r.row.status == RowError && ImportWritten(db, r.db, req, newId, r.row.amount, Approved, 0)
           case _ =>
             if |set t | t in db.tickets && IsAvailable(db, t, req.lotteryId)| < req.quantity
             then r.row.status == RowUnderReview
                  && ImportWritten(db, r.db, req, newId, r.row.amount, UnderReview, 0)
             else r.row.status == (if fault == NoFault then RowApproved else RowError)
                  && ImportWritten(db, r.db, req, newId, r.row.amount, Approved, req.quantity)
  {
    AvailableRows(db, req.lotteryId, []);
    hide AvailableIn, IsAvailable;
  }
}
