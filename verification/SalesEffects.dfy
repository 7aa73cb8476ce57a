/** What each sales call does to the tickets it concerns, and that it leaves all other tickets alone. */
module SalesEffects {
  import opened Wrappers
  import opened Sales
  import opened SalesInvariant
  import opened SalesRequests

  ghost predicate OthersSame(db: Db, next: Db, concerned: set<Id>) {
    && next.tickets.Keys == db.tickets.Keys
    && forall t :: t in db.tickets && t !in concerned ==> next.tickets[t] == db.tickets[t]
  }

  ghost predicate AllFree(db: Db, tickets: set<Id>) {
    forall t :: t in tickets ==> t in db.tickets && IsFree(db.tickets[t])
  }

  predicate IsFree(t: Ticket) {
    t.status == Available && t.reservationId.None? && t.paymentId.None? && t.buyerId.None?
  }

  ghost predicate AllReserved(db: Db, tickets: set<Id>, reservationId: Id) {
    forall t :: t in tickets ==>
      t in db.tickets && db.tickets[t].status == Reserved && db.tickets[t].reservationId == Some(reservationId)
  }

  ghost predicate AllPending(db: Db, tickets: set<Id>, paymentId: Id) {
    forall t :: t in tickets ==>
      t in db.tickets && db.tickets[t].status == PendingPayment && db.tickets[t].paymentId == Some(paymentId)
  }

  ghost predicate AllSold(db: Db, tickets: set<Id>, paymentId: Id, buyerId: Id) {
    forall t :: t in tickets ==>
      t in db.tickets && db.tickets[t].status == Sold && db.tickets[t].paymentId == Some(paymentId)
      && db.tickets[t].buyerId == Some(buyerId)
  }

  /** The tickets of the named numbers, or as many as asked for. */
  ghost predicate SelectedFor(db: Db, req: ReserveRequest, chosen: set<Id>) {
    && chosen <= AvailableIn(db, req.lotteryId)
    && (if |req.ticketNumbers| > 0
        then |chosen| == |req.ticketNumbers| && forall t :: t in chosen ==> db.tickets[t].number in req.ticketNumbers
        else |chosen| == req.quantity)
  }

  /** A reservation takes free tickets of its lottery, the named ones or the number asked for, and no others. */
  lemma ReserveTakesSelected(db: Db, req: ReserveRequest, now: int, newId: Id, picked: set<Id>)
    requires Consistent(db) && Possible(db, Reserve(req, now, newId, picked))
    requires ReserveTickets(db, req, now, newId, picked).result.Ok? && !Replays(db.reservationKeys, req.idempotencyKey)
    ensures var next := ReserveTickets(db, req, now, newId, picked).db;
      && SelectedFor(db, req, HeldBy(next, newId))
      && AllReserved(next, HeldBy(next, newId), newId) && OthersSame(db, next, HeldBy(next, newId))
  {
    var chosen := ChosenTickets(db, req, picked);
    var expiresAt := now + RESERVATION_TIMEOUT_MS;
    var applied := ApplyReservation(db, req, newId, expiresAt, chosen);
    ApplyReservationHolds(db, req, newId, expiresAt, chosen);
    StartSellingKeepsHeld(applied, req.lotteryId);
    assert HeldBy(StartSelling(applied, req.lotteryId), newId) == HeldBy(applied, newId) == chosen;
  }

  /** Cancelling an open reservation frees what it held; any other id changes nothing at all. */
  lemma CancelFreesHeld(db: Db, id: Id)
    requires Consistent(db)
    ensures var next := CancelReservation(db, id);
      if id in db.reservations && IsOpen(db.reservations[id])
      then AllFree(next, HeldBy(db, id)) && OthersSame(db, next, HeldBy(db, id)) && next.reservations[id].cancelled
      else next == db
  {
    if id in db.reservations && IsOpen(db.reservations[id]) {
      forall t | t in HeldBy(db, id)
        ensures db.tickets[t].paymentId.None? && db.tickets[t].buyerId.None?
      {
        assert ReservationMatches(db, db.tickets[t]) && StatusMatchesLinks(db.tickets[t]);
      }
    }
  }

  lemma CancelPaysNothing(db: Db, id: Id, paymentId: Id)
    ensures PaidBy(CancelReservation(db, id), paymentId) == PaidBy(db, paymentId)
  {
    var next := CancelReservation(db, id);
    assert next.tickets.Keys == db.tickets.Keys;
    assert forall t :: t in db.tickets ==> next.tickets[t].paymentId == db.tickets[t].paymentId;
  }

  lemma ConfirmationMovesHeld(db: Db, id: Id, paymentId: Id)
    requires id in db.reservations
    ensures var next := ApplyConfirmation(db, id, paymentId);
      AllPending(next, HeldBy(db, id), paymentId) && OthersSame(db, next, HeldBy(db, id))
  {
  }

  /** A confirmation moves the held tickets to the payment; a failed one pays for nothing. */
  lemma ConfirmMovesHeld(db: Db, id: Id, paymentId: Id, now: int)
    ensures var reply := ConfirmReservation(db, id, paymentId, now);
      && (reply.result.Ok? ==>
            AllPending(reply.db, HeldBy(db, id), paymentId) && OthersSame(db, reply.db, HeldBy(db, id)))
      && (reply.result.Err? ==> PaidBy(reply.db, paymentId) == PaidBy(db, paymentId))
  {
    hide ApplyConfirmation, CancelReservation, AllPending, OthersSame, PaidBy, HeldBy;
    CancelPaysNothing(db, id, paymentId);
    if id in db.reservations {
      ConfirmationMovesHeld(db, id, paymentId);
    }
  }

  /** Finalizing sells the payment's tickets to its buyer and counts each once for the payment's lottery. */
  lemma FinalizeSellsPaid(db: Db, paymentId: Id)
    requires Consistent(db) && paymentId in db.payments
    ensures var next := FinalizeTickets(db, paymentId);
      var l := db.payments[paymentId].lotteryId;
      && AllSold(next, PaidBy(db, paymentId), paymentId, db.payments[paymentId].buyerId)
      && OthersSame(db, next, PaidBy(db, paymentId))
      && l in db.lotteries && l in next.lotteries
      && next.lotteries[l].ticketsSold == db.lotteries[l].ticketsSold + |PaidBy(db, paymentId)|
      && forall k :: k in db.lotteries && k != l ==> k in next.lotteries && next.lotteries[k] == db.lotteries[k]
  {
  }

  lemma ApprovalSellsPaid(db: Db, id: Id)
    requires Consistent(db)
    ensures var reply := ApprovePayment(db, id);
      if reply.result.Ok?
      then id in db.payments && AllSold(reply.db, PaidBy(db, id), id, db.payments[id].buyerId)
           && OthersSame(db, reply.db, PaidBy(db, id))
           && id in reply.db.payments && reply.db.payments[id].status == Approved
      else reply.db == db
  {
    hide FinalizeTickets, Consistent;
    if ApprovePayment(db, id).result.Ok? {
      var written := SetPaymentStatus(db, id, Approved);
      SetPaymentStatusKeeps(db, id, Approved);
      FinalizeSellsPaid(written, id);
      FinalizeKeepsPayments(written, id);
      assert PaidBy(written, id) == PaidBy(db, id);
    }
  }

  lemma FinalizeKeepsPayments(db: Db, id: Id)
    ensures FinalizeTickets(db, id).payments == db.payments
  {
  }

  /** A rejection frees the payment's tickets, waiting or sold, and a refused one changes nothing. */
  lemma RejectionFreesPaid(db: Db, id: Id)
    requires Consistent(db)
    ensures var reply := RejectPayment(db, id);
      if reply.result.Ok?
      then AllFree(reply.db, PaidBy(db, id)) && OthersSame(db, reply.db, PaidBy(db, id))
           && id in reply.db.payments && reply.db.payments[id].status == Rejected
      else reply.db == db
  {
    forall t | t in PaidBy(db, id)
      ensures db.tickets[t].status == PendingPayment || db.tickets[t].status == Sold
    {
      assert StatusMatchesLinks(db.tickets[t]);
    }
  }
}
