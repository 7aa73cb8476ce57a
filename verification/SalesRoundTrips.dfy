/** What one call undoes of another: cancelling a reservation, and rejecting a sale. */
module SalesRoundTrips {
  import opened Wrappers
  import opened Sales
  import opened SalesInvariant
  import opened SalesRequests

  /** The tickets are those of db, except that the chosen ones look like this. */
  ghost predicate ChosenBecome(db: Db, next: Db, chosen: set<Id>, status: TicketStatus, reservationId: Option<Id>,
                               paymentId: Option<Id>, buyerId: Option<Id>)
  {
    && next.tickets.Keys == db.tickets.Keys
    && forall t :: t in db.tickets ==>
         next.tickets[t] == if t in chosen
           then Ticket(db.tickets[t].lotteryId, db.tickets[t].number, status, reservationId, paymentId, buyerId)
                            else db.tickets[t]
  }

  ghost predicate ChosenAreFree(db: Db, chosen: set<Id>) {
    forall t :: t in chosen ==> t in db.tickets && db.tickets[t].status == Available
  }

  lemma FreeTicketsHaveNoLinks(db: Db, next: Db, chosen: set<Id>)
    requires Consistent(db) && ChosenAreFree(db, chosen) && ChosenBecome(db, next, chosen, Available, None, None, None)
    ensures next.tickets == db.tickets
  {
    forall t | t in db.tickets
      ensures next.tickets[t] == db.tickets[t]
    {
      assert StatusMatchesLinks(db.tickets[t]);
    }
  }

  lemma ReserveMarksChosen(db: Db, req: ReserveRequest, now: int, newId: Id, picked: set<Id>)
    requires Consistent(db) && Possible(db, Reserve(req, now, newId, picked))
    requires ReserveTickets(db, req, now, newId, picked).result.Ok? && !Replays(db.reservationKeys, req.idempotencyKey)
    ensures var next := ReserveTickets(db, req, now, newId, picked).db;
      && ChosenBecome(db, next, ChosenTickets(db, req, picked), Reserved, Some(newId), None, None)
      && newId in next.reservations && IsOpen(next.reservations[newId])
      && next.reservations[newId].expiresAt == now + RESERVATION_TIMEOUT_MS
      && next.reservations[newId].lotteryId == req.lotteryId
    ensures ChosenAreFree(db, ChosenTickets(db, req, picked))
  {
    forall t | t in ChosenTickets(db, req, picked)
      ensures t in db.tickets && StatusMatchesLinks(db.tickets[t])
    {
    }
  }

  lemma CancelFreesChosen(db: Db, reserved: Db, id: Id, chosen: set<Id>)
    requires Consistent(db) && id !in db.reservations
      && ChosenBecome(db, reserved, chosen, Reserved, Some(id), None, None)
    requires id in reserved.reservations && IsOpen(reserved.reservations[id])
    ensures ChosenBecome(db, CancelReservation(reserved, id), chosen, Available, None, None, None)
  {
    forall t | t in db.tickets
      ensures db.tickets[t].reservationId != Some(id)
    {
      assert ReservationMatches(db, db.tickets[t]);
    }
  }

  /** Cancelling a reservation puts the ticket table back exactly as it was before. */
  lemma CancelUndoesReserve(db: Db, req: ReserveRequest, now: int, newId: Id, picked: set<Id>)
    requires Consistent(db) && Possible(db, Reserve(req, now, newId, picked))
    requires ReserveTickets(db, req, now, newId, picked).result.Ok? && !Replays(db.reservationKeys, req.idempotencyKey)
    ensures CancelReservation(ReserveTickets(db, req, now, newId, picked).db, newId).tickets == db.tickets
  {
    var reserved := ReserveTickets(db, req, now, newId, picked).db;
    var chosen := ChosenTickets(db, req, picked);
    ReserveMarksChosen(db, req, now, newId, picked);
    hide ReserveTickets, ChosenTickets, CancelReservation, ChosenBecome, ChosenAreFree, Consistent;
    CancelFreesChosen(db, reserved, newId, chosen);
    FreeTicketsHaveNoLinks(db, CancelReservation(reserved, newId), chosen);
  }

  /** A reservation can be paid for up to and including its expiry time, and expired from then on. */
  lemma HoldLastsFifteenMinutes(db: Db, req: ReserveRequest, now: int, newId: Id, picked: set<Id>, paymentId: Id,
                                later: int)
    requires Consistent(db) && Possible(db, Reserve(req, now, newId, picked))
    requires ReserveTickets(db, req, now, newId, picked).result.Ok? && !Replays(db.reservationKeys, req.idempotencyKey)
    ensures var next := ReserveTickets(db, req, now, newId, picked).db;
      && (ConfirmReservation(next, newId, paymentId, later).result.Ok? <==> later <= now + RESERVATION_TIMEOUT_MS)
      && (ExpireReservation(next, newId, later).tickets == db.tickets || ExpireReservation(next, newId, later) == next)
      && newId in ExpireReservation(next, newId, later).reservations
      && (ExpireReservation(next, newId, later).reservations[newId].cancelled
          <==> later >= now + RESERVATION_TIMEOUT_MS)
  {
    ReserveMarksChosen(db, req, now, newId, picked);
    CancelUndoesReserve(db, req, now, newId, picked);
    hide ReserveTickets, Consistent, ChosenBecome, ChosenAreFree;
  }

  lemma ConfirmMarksChosen(db: Db, reserved: Db, id: Id, paymentId: Id, now: int, chosen: set<Id>)
    requires Consistent(db) && id !in db.reservations
      && ChosenBecome(db, reserved, chosen, Reserved, Some(id), None, None)
    requires ConfirmReservation(reserved, id, paymentId, now).result.Ok?
    ensures ChosenBecome(db, ConfirmReservation(reserved, id, paymentId, now).db, chosen, PendingPayment, Some(id),
                         Some(paymentId), None)
  {
    forall t | t in db.tickets
      ensures db.tickets[t].reservationId != Some(id)
    {
      assert ReservationMatches(db, db.tickets[t]);
    }
  }

  lemma FinalizeMarksChosen(db: Db, pending: Db, paymentId: Id, id: Id, chosen: set<Id>)
    requires Consistent(db) && paymentId !in db.payments && paymentId in pending.payments
    requires ChosenBecome(db, pending, chosen, PendingPayment, Some(id), Some(paymentId), None)
    ensures ChosenBecome(db, FinalizeTickets(pending, paymentId), chosen, Sold, Some(id), Some(paymentId),
                         Some(pending.payments[paymentId].buyerId))
    ensures PaidBy(pending, paymentId) == chosen * db.tickets.Keys
  {
    forall t | t in db.tickets
      ensures db.tickets[t].paymentId != Some(paymentId)
    {
      assert PaymentMatches(db, db.tickets[t]);
    }
  }

  lemma ReleaseFreesChosen(db: Db, sold: Db, paymentId: Id, id: Id, buyerId: Id, chosen: set<Id>)
    requires Consistent(db) && paymentId !in db.payments
    requires ChosenBecome(db, sold, chosen, Sold, Some(id), Some(paymentId), Some(buyerId))
    ensures ChosenBecome(db, ReleasePaid(sold, paymentId), chosen, Available, None, None, None)
  {
    forall t | t in db.tickets
      ensures db.tickets[t].paymentId != Some(paymentId)
    {
      assert PaymentMatches(db, db.tickets[t]);
    }
  }

  lemma PaidCycle(db: Db, reserved: Db, id: Id, chosen: set<Id>, pay: PaymentRequest, buyerId: Id, paymentId: Id,
                  payTime: int)
    requires Consistent(db) && id !in db.reservations && paymentId !in db.payments
    requires ChosenBecome(db, reserved, chosen, Reserved, Some(id), None, None)
    requires reserved.payments == db.payments && reserved.paymentKeys == db.paymentKeys
    requires pay.reservationId == id && !Replays(db.paymentKeys, pay.idempotencyKey)
    requires InitiatePayment(reserved, pay, buyerId, paymentId, payTime).result.Ok?
    ensures var pending := InitiatePayment(reserved, pay, buyerId, paymentId, payTime).db;
      && ChosenBecome(db, pending, chosen, PendingPayment, Some(id), Some(paymentId), None)
      && paymentId in pending.payments && pending.payments[paymentId].status == Initiated
      && pending.payments[paymentId].lotteryId == pay.lotteryId
      && pending.lotteries == reserved.lotteries
  {
    var amount := AmountDue(reserved, id);
    var created := CreatePayment(reserved, paymentId,
                                 Payment(pay.lotteryId, buyerId, amount, Initiated, pay.idempotencyKey));
    assert ChosenBecome(db, created, chosen, Reserved, Some(id), None, None);
    assert InitiatePayment(reserved, pay, buyerId, paymentId, payTime)
      == ConfirmReservation(created, id, paymentId, payTime);
    hide ChosenBecome, Consistent, InitiatePayment;
    ConfirmMarksChosen(db, created, id, paymentId, payTime, chosen);
  }

  lemma SameTicketsSameChosen(db: Db, a: Db, b: Db, chosen: set<Id>, status: TicketStatus, reservationId: Option<Id>,
                              paymentId: Option<Id>, buyerId: Option<Id>)
    requires ChosenBecome(db, a, chosen, status, reservationId, paymentId, buyerId) && a.tickets == b.tickets
    ensures ChosenBecome(db, b, chosen, status, reservationId, paymentId, buyerId)
  {
  }

  lemma ApprovalMarksChosen(db: Db, pending: Db, id: Id, chosen: set<Id>, paymentId: Id)
    requires Consistent(db) && paymentId !in db.payments && chosen <= db.tickets.Keys
    requires ChosenBecome(db, pending, chosen, PendingPayment, Some(id), Some(paymentId), None)
    requires paymentId in pending.payments && pending.payments[paymentId].status == Initiated
    ensures var approved := ApprovePayment(pending, paymentId);
      && approved.result.Ok? && paymentId in approved.db.payments && approved.db.payments[paymentId].status == Approved
      && ChosenBecome(db, approved.db, chosen, Sold, Some(id), Some(paymentId),
                      Some(pending.payments[paymentId].buyerId))
      && approved.db.lotteries == AddSold(pending, pending.payments[paymentId].lotteryId, |chosen|).lotteries
  {
    var written := SetPaymentStatus(pending, paymentId, Approved);
    ApprovalIsFinalization(pending, paymentId);
    hide *;
    SameTicketsSameChosen(db, pending, written, chosen, PendingPayment, Some(id), Some(paymentId), None);
    FinalizeMarksChosen(db, written, paymentId, id, chosen);
    assert chosen * db.tickets.Keys == chosen;
    FinalizeCountsPaid(written, paymentId);
    SameCounters(pending, written, pending.payments[paymentId].lotteryId, |chosen|);
  }

  lemma ApprovalIsFinalization(db: Db, id: Id)
    requires id in db.payments && db.payments[id].status == Initiated
    ensures var written := SetPaymentStatus(db, id, Approved);
      && ApprovePayment(db, id) == Reply(FinalizeTickets(written, id), Ok(id))
      && written.tickets == db.tickets && written.lotteries == db.lotteries
      && id in written.payments && written.payments[id] == db.payments[id].(status := Approved)
  {
  }

  lemma SameCounters(a: Db, b: Db, lotteryId: Id, count: int)
    requires a.lotteries == b.lotteries
    ensures AddSold(a, lotteryId, count).lotteries == AddSold(b, lotteryId, count).lotteries
  {
  }

  lemma FinalizeCountsPaid(db: Db, paymentId: Id)
    requires paymentId in db.payments
    ensures FinalizeTickets(db, paymentId).payments == db.payments
    ensures FinalizeTickets(db, paymentId).lotteries
      == AddSold(db, db.payments[paymentId].lotteryId, |PaidBy(db, paymentId)|).lotteries
  {
  }

  lemma RejectionFreesChosen(db: Db, approved: Db, id: Id, chosen: set<Id>, paymentId: Id, buyerId: Id)
    requires Consistent(db) && paymentId !in db.payments
    requires ChosenBecome(db, approved, chosen, Sold, Some(id), Some(paymentId), Some(buyerId))
    requires paymentId in approved.payments && approved.payments[paymentId].status == Approved
    ensures var rejected := RejectPayment(approved, paymentId);
      && rejected.result.Ok? && rejected.db.lotteries == approved.lotteries
      && ChosenBecome(db, rejected.db, chosen, Available, None, None, None)
  {
    var written := SetPaymentStatus(approved, paymentId, Rejected);
    hide Consistent, ChosenBecome, ReleasePaid;
    SameTicketsSameChosen(db, approved, written, chosen, Sold, Some(id), Some(paymentId), Some(buyerId));
    ReleaseFreesChosen(db, written, paymentId, id, buyerId, chosen);
    assert ReleasePaid(written, paymentId).lotteries == approved.lotteries by {
      ReleaseTouchesTicketsOnly(written, paymentId);
    }
  }

  lemma ReleaseTouchesTicketsOnly(db: Db, paymentId: Id)
    ensures ReleasePaid(db, paymentId).lotteries == db.lotteries && ReleasePaid(db, paymentId).payments == db.payments
  {
  }

  /**
   A whole sale that is rejected in the end (reserve, pay, approve, reject) leaves the ticket table exactly as it was,
   while ticketsSold has risen for good by the number of tickets that came back.
   */
  lemma RejectUndoesSaleButNotCounter(db: Db, req: ReserveRequest, now: int, newId: Id, picked: set<Id>,
                                      pay: PaymentRequest, buyerId: Id, paymentId: Id, payTime: int)
    requires Consistent(db) && Possible(db, Reserve(req, now, newId, picked))
      && !Replays(db.reservationKeys, req.idempotencyKey)
    requires ReserveTickets(db, req, now, newId, picked).result.Ok?
    requires paymentId !in db.payments && pay.reservationId == newId && pay.lotteryId == req.lotteryId
    requires !Replays(db.paymentKeys, pay.idempotencyKey)
    requires InitiatePayment(ReserveTickets(db, req, now, newId, picked).db, pay, buyerId, paymentId,
                             payTime).result.Ok?
    ensures var pending := InitiatePayment(ReserveTickets(db, req, now, newId, picked).db, pay, buyerId, paymentId,
                                           payTime).db;
      var approved := ApprovePayment(pending, paymentId);
      var rejected := RejectPayment(approved.db, paymentId);
      && approved.result.Ok? && rejected.result.Ok?
      && rejected.db.tickets == db.tickets
      && req.lotteryId in db.lotteries && req.lotteryId in rejected.db.lotteries
      && rejected.db.lotteries[req.lotteryId].ticketsSold
           == db.lotteries[req.lotteryId].ticketsSold + |ChosenTickets(db, req, picked)|
  {
    var reserved := ReserveTickets(db, req, now, newId, picked).db;
    var chosen := ChosenTickets(db, req, picked);
    ReserveMarksChosen(db, req, now, newId, picked);
    assert chosen <= db.tickets.Keys;
    assert reserved.payments == db.payments && reserved.paymentKeys == db.paymentKeys && newId !in db.reservations;
    assert req.lotteryId in db.lotteries && req.lotteryId in reserved.lotteries;
    assert reserved.lotteries[req.lotteryId].ticketsSold == db.lotteries[req.lotteryId].ticketsSold;
    hide ReserveTickets, InitiatePayment, ChosenBecome, ChosenAreFree, Consistent, ChosenTickets, ApprovePayment,
      RejectPayment;
    PaidCycle(db, reserved, newId, chosen, pay, buyerId, paymentId, payTime);
    var pending := InitiatePayment(reserved, pay, buyerId, paymentId, payTime).db;
    ApprovalMarksChosen(db, pending, newId, chosen, paymentId);
    RejectionFreesChosen(db, ApprovePayment(pending, paymentId).db, newId, chosen, paymentId,
                         pending.payments[paymentId].buyerId);
    FreeTicketsHaveNoLinks(db, RejectPayment(ApprovePayment(pending, paymentId).db, paymentId).db, chosen);
  }
}
