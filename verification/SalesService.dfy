/**
 The ticket and payment services as an object over the sales tables. Every method writes the
 tables step by step, as the source does, and is proved to have the effect of the function of the
 same name; the lemmas about those functions then hold of the object.
 */
module SalesService {
  import opened Wrappers
  import opened LotteryStatus
  import opened Sales
  import opened SalesInvariant
  import opened SalesRequests
  import opened SalesEffects
  import opened SalesGuards
  import opened BulkImport

  class Service {
    var tickets: map<Id, Ticket>
    var reservations: map<Id, Reservation>
    var payments: map<Id, Payment>
    var lotteries: map<Id, Lottery>
    var reservationKeys: map<string, Id>
    var paymentKeys: map<string, Id>

    constructor ()
      ensures Tables() == EMPTY && Valid()
    {
      tickets, reservations, payments, lotteries, reservationKeys, paymentKeys :=
        map[], map[], map[], map[], map[], map[];
    }

    function Tables(): Db
      reads this
    {
      Db(tickets, reservations, payments, lotteries, reservationKeys, paymentKeys)
    }

    ghost predicate Valid()
      reads this
    {
      Consistent(Tables())
    }

    // ---- Tickets ----

    method Reserve(req: ReserveRequest, now: int, newId: Id, picked: set<Id>) returns (r: Result<Id, Error>)
      requires Valid() && Possible(Tables(), Op.Reserve(req, now, newId, picked))
      modifies this
      ensures Valid()
      ensures Reply(Tables(), r) == ReserveTickets(old(Tables()), req, now, newId, picked)
      ensures r.Ok? && !Replays(old(reservationKeys), req.idempotencyKey) ==>
        HoldsSelection(old(Tables()), Tables(), req, newId)
      ensures ReserveAnswered(old(Tables()), Tables(), req, now, newId, r)
    {
      hide ReserveAnswered, HoldsSelection, ReserveTickets, Consistent;
      ReserveSucceedsIff(Tables(), req, now, newId, picked);
      ReserveKeeps(Tables(), req, now, newId, picked);
      ReserveReports(Tables(), req, now, newId, picked);
      r := ReserveRows(req, now, newId, picked);
    }

    method ReserveRows(req: ReserveRequest, now: int, newId: Id, picked: set<Id>) returns (r: Result<Id, Error>)
      requires Possible(Tables(), Op.Reserve(req, now, newId, picked))
      modifies this
      ensures Reply(Tables(), r) == ReserveTickets(old(Tables()), req, now, newId, picked)
    {
      if req.idempotencyKey.Some? && req.idempotencyKey.value != "" && req.idempotencyKey.value in reservationKeys {
        return Ok(reservationKeys[req.idempotencyKey.value]);
      }
      if req.lotteryId !in lotteries || lotteries[req.lotteryId].deleted {
        return Err(NotFound);
      }
      var lottery := lotteries[req.lotteryId];
      if lottery.status != Published && lottery.status != Selling {
        return Err(BadRequest);
      }
      if lottery.saleEndDate < now {
        return Err(BadRequest);
      }
      var ticketIds, enough := SelectTickets(req, picked);
      if !enough {
        return Err(Conflict);
      }
      if req.idempotencyKey.Some? && req.idempotencyKey.value in reservationKeys {
        return Err(UniqueViolation);
      }
      WriteReservation(req, newId, now + RESERVATION_TIMEOUT_MS, ticketIds);
      if lottery.status == Published {
        MarkSelling(req.lotteryId);
      }
      r := Ok(newId);
    }

    method MarkSelling(lotteryId: Id)
      requires lotteryId in lotteries && lotteries[lotteryId].status == Published
      modifies this`lotteries
      ensures Tables() == StartSelling(old(Tables()), lotteryId)
    {
      lotteries := lotteries[lotteryId := lotteries[lotteryId].(status := Selling)];
    }

    method SelectTickets(req: ReserveRequest, picked: set<Id>) returns (ticketIds: set<Id>, enough: bool)
      requires picked <= AvailableIn(Tables(), req.lotteryId)
      requires |picked| == Min(req.quantity, |AvailableIn(Tables(), req.lotteryId)|)
      ensures enough ==> SelectedFor(Tables(), req, ticketIds)
      ensures !enough && req.ticketNumbers == [] ==> |AvailableIn(Tables(), req.lotteryId)| < req.quantity
      ensures var manual := |req.ticketNumbers| > 0;
        && ticketIds == ChosenTickets(Tables(), req, picked)
        && (enough <==> if manual then |ticketIds| == |req.ticketNumbers| else |ticketIds| >= req.quantity)
    {
      if |req.ticketNumbers| > 0 {
        ticketIds := AvailableByNumber(Tables(), req.lotteryId, req.ticketNumbers);
        enough := |ticketIds| == |req.ticketNumbers|;
      } else {
        ticketIds := picked;
        enough := |ticketIds| >= req.quantity;
      }
    }

    method WriteReservation(req: ReserveRequest, newId: Id, expiresAt: int, ticketIds: set<Id>)
      modifies this
      ensures Tables() == ApplyReservation(old(Tables()), req, newId, expiresAt, ticketIds)
    {
      reservations := reservations[newId :=
        Reservation(req.lotteryId, req.quantity, expiresAt, false, false, req.idempotencyKey)];
      reservationKeys := AddKey(reservationKeys, req.idempotencyKey, newId);
      tickets := map t | t in tickets ::
        if t in ticketIds then tickets[t].(status := Reserved, reservationId := Some(newId)) else tickets[t];
    }

    method Cancel(id: Id)
      requires Valid()
      modifies this
      ensures Valid() && Tables() == CancelReservation(old(Tables()), id)
      ensures id in old(reservations) && IsOpen(old(reservations)[id]) ==>
        AllFree(Tables(), old(HeldBy(Tables(), id))) && OthersSame(old(Tables()), Tables(), old(HeldBy(Tables(), id)))
      ensures reservations == if id in old(reservations) && IsOpen(old(reservations)[id])
        then old(reservations)[id := old(reservations)[id].(cancelled := true)] else old(reservations)
    {
      CancelKeeps(Tables(), id);
      CancelFreesHeld(Tables(), id);
      if id !in reservations || reservations[id].cancelled || reservations[id].confirmed {
        return;
      }
      tickets := map t | t in tickets ::
        if tickets[t].reservationId == Some(id) then tickets[t].(status := Available, reservationId := None)
        else tickets[t];
      reservations := reservations[id := reservations[id].(cancelled := true)];
    }

    method Expire(id: Id, now: int)
      requires Valid()
      modifies this
      ensures Valid() && Tables() == ExpireReservation(old(Tables()), id, now)
      ensures id in old(reservations) && IsOpen(old(reservations)[id]) ==>
        if old(reservations)[id].expiresAt <= now then AllFree(Tables(), old(HeldBy(Tables(), id)))
        else Tables() == old(Tables())
      ensures !(id in old(reservations) && IsOpen(old(reservations)[id])) ==> Tables() == old(Tables())
    {
      if id !in reservations || reservations[id].confirmed || reservations[id].cancelled {
        return;
      }
      if reservations[id].expiresAt > now {
        return;
      }
      Cancel(id);
    }

    method Confirm(id: Id, paymentId: Id, now: int) returns (r: Result<Id, Error>)
      requires Valid() && paymentId in payments
      modifies this
      ensures Valid() && Reply(Tables(), r) == ConfirmReservation(old(Tables()), id, paymentId, now)
      ensures r.Ok? ==> AllPending(Tables(), old(HeldBy(Tables(), id)), paymentId)
      ensures r.Ok? ==> OthersSame(old(Tables()), Tables(), old(HeldBy(Tables(), id)))
      ensures r.Err? ==> PaidBy(Tables(), paymentId) == old(PaidBy(Tables(), paymentId))
      ensures r.Ok? <==>
        id in old(reservations) && !old(reservations)[id].cancelled && now <= old(reservations)[id].expiresAt
    {
      ConfirmKeeps(Tables(), id, paymentId, now);
      hide Consistent, AllPending, OthersSame, PaidBy, HeldBy;
      ConfirmMovesHeld(Tables(), id, paymentId, now);
      if id !in reservations {
        return Err(NotFound);
      }
      if reservations[id].cancelled {
        return Err(BadRequest);
      }
      if reservations[id].expiresAt < now {
        Cancel(id);
        return Err(BadRequest);
      }
      tickets := map t | t in tickets ::
        if tickets[t].reservationId == Some(id)
        then tickets[t].(status := PendingPayment, paymentId := Some(paymentId)) else tickets[t];
      reservations := reservations[id := reservations[id].(confirmed := true)];
      r := Ok(paymentId);
    }

    method Finalize(paymentId: Id)
      requires Valid()
      modifies this
      ensures Valid() && Tables() == FinalizeTickets(old(Tables()), paymentId)
      ensures paymentId in old(payments) ==>
        && AllSold(Tables(), old(PaidBy(Tables(), paymentId)), paymentId, old(payments)[paymentId].buyerId)
        && OthersSame(old(Tables()), Tables(), old(PaidBy(Tables(), paymentId)))
    {
      hide Consistent, AllSold, OthersSame, PaidBy;
      FinalizeKeeps(Tables(), paymentId);
      if paymentId in payments {
        FinalizeSellsPaid(Tables(), paymentId);
      }
      if paymentId !in payments {
        return;
      }
      var payment := payments[paymentId];
      var count := |PaidBy(Tables(), paymentId)|;
      tickets := map t | t in tickets ::
        if tickets[t].paymentId == Some(paymentId) then tickets[t].(status := Sold, buyerId := Some(payment.buyerId))
        else tickets[t];
      if payment.lotteryId in lotteries {
        var lottery := lotteries[payment.lotteryId];
        lotteries := lotteries[payment.lotteryId := lottery.(ticketsSold := lottery.ticketsSold + count)];
      }
    }

    // ---- Payments ----

    method Initiate(req: PaymentRequest, buyerId: Id, newId: Id, now: int) returns (r: Result<Id, Error>)
      requires Valid() && newId !in payments
      modifies this
      ensures Valid() && Reply(Tables(), r) == InitiatePayment(old(Tables()), req, buyerId, newId, now)
      ensures r.Ok? && !Replays(old(paymentKeys), req.idempotencyKey) && IsOpen(old(reservations)[req.reservationId])
        ==> PaidBy(Tables(), newId) == old(HeldBy(Tables(), req.reservationId))
      ensures r.Ok? && !Replays(old(paymentKeys), req.idempotencyKey) && IsOpen(old(reservations)[req.reservationId])
        ==> AllPending(Tables(), PaidBy(Tables(), newId), newId)
      ensures InitiateAnswered(old(Tables()), Tables(), req, buyerId, newId, now, r)
    {
      hide Consistent, AllPending, OthersSame, PaidBy, HeldBy, InitiateAnswered;
      InitiateReports(Tables(), req, buyerId, newId, now);
      InitiateSucceedsIff(Tables(), req, buyerId, newId, now);
      if req.idempotencyKey.Some? && req.idempotencyKey.value != "" && req.idempotencyKey.value in paymentKeys {
        return Ok(paymentKeys[req.idempotencyKey.value]);
      }
      if req.reservationId !in reservations {
        return Err(NotFound);
      }
      var reservation := reservations[req.reservationId];
      if reservation.cancelled {
        return Err(BadRequest);
      }
      ReservationsHaveLotteries(Tables(), req.reservationId);
      var amount := lotteries[reservation.lotteryId].ticketPrice * reservation.quantity;
      if req.lotteryId !in lotteries {
        return Err(ForeignKeyViolation);
      }
      if req.idempotencyKey.Some? && req.idempotencyKey.value in paymentKeys {
        return Err(UniqueViolation);
      }
      var payment := Payment(req.lotteryId, buyerId, amount, Initiated, req.idempotencyKey);
      CreatePaymentKeeps(Tables(), newId, payment);
      WritePayment(newId, payment);
      r := Confirm(req.reservationId, newId, now);
    }

    method WritePayment(id: Id, payment: Payment)
      modifies this
      ensures Tables() == CreatePayment(old(Tables()), id, payment)
    {
      payments := payments[id := payment];
      paymentKeys := AddKey(paymentKeys, payment.idempotencyKey, id);
    }

    method Approve(id: Id) returns (r: Result<Id, Error>)
      requires Valid()
      modifies this
      ensures Valid() && Reply(Tables(), r) == ApprovePayment(old(Tables()), id)
      ensures r.Ok? ==>
        id in old(payments) && AllSold(Tables(), old(PaidBy(Tables(), id)), id, old(payments)[id].buyerId)
      ensures r.Ok? ==> OthersSame(old(Tables()), Tables(), old(PaidBy(Tables(), id)))
      ensures r.Err? ==> Tables() == old(Tables())
      ensures r.Ok? <==> id in old(payments) && old(payments)[id].status !in {Approved, Refunded}
      ensures r.Err? ==> r == Err(if id in old(payments) then BadRequest else NotFound)
      ensures r.Ok? ==> payments == old(payments)[id := old(payments)[id].(status := Approved)]
    {
      hide Consistent, AllSold, OthersSame, PaidBy;
      ApproveSucceedsIff(Tables(), id);
      ApprovalSellsPaid(Tables(), id);
      if id !in payments {
        return Err(NotFound);
      }
      if payments[id].status !in {Initiated, Submitted, UnderReview, Rejected} {
        return Err(BadRequest);
      }
      SetPaymentStatusKeeps(Tables(), id, Approved);
      payments := payments[id := payments[id].(status := Approved)];
      Finalize(id);
      r := Ok(id);
    }

    method Reject(id: Id) returns (r: Result<Id, Error>)
      requires Valid()
      modifies this
      ensures Valid() && Reply(Tables(), r) == RejectPayment(old(Tables()), id)
      ensures r.Ok? ==> AllFree(Tables(), old(PaidBy(Tables(), id)))
      ensures r.Ok? ==> OthersSame(old(Tables()), Tables(), old(PaidBy(Tables(), id)))
      ensures r.Err? ==> Tables() == old(Tables())
      ensures r.Ok? <==> id in old(payments) && old(payments)[id].status !in {Rejected, Refunded}
      ensures r.Err? ==> r == Err(if id in old(payments) then BadRequest else NotFound)
      ensures r.Ok? ==> payments == old(payments)[id := old(payments)[id].(status := Rejected)]
    {
      hide Consistent, AllFree, OthersSame, PaidBy;
      RejectSucceedsIff(Tables(), id);
      RejectionFreesPaid(Tables(), id);
      if id !in payments {
        return Err(NotFound);
      }
      if payments[id].status !in {Initiated, Submitted, UnderReview, Approved} {
        return Err(BadRequest);
      }
      SetPaymentStatusKeeps(Tables(), id, Rejected);
      payments := payments[id := payments[id].(status := Rejected)];
      ReleasePaidKeeps(Tables(), id);
      tickets := map t | t in tickets ::
        if tickets[t].paymentId == Some(id) && (tickets[t].status == PendingPayment || tickets[t].status == Sold)
        then tickets[t].(status := Available, paymentId := None, reservationId := None, buyerId := None)
        else tickets[t];
      r := Ok(id);
    }

    // ---- Bulk import ----

    method CommitRow(row: ImportRequest, paymentId: Id, chosen: set<Id>)
      requires row.lotteryId in lotteries
      modifies this
      ensures Tables() == AddSold(SellDirectly(old(Tables()), chosen, paymentId, row.buyerId), row.lotteryId,
                                  row.quantity)
    {
      tickets := map t | t in tickets ::
        if t in chosen then tickets[t].(status := Sold, paymentId := Some(paymentId), buyerId := Some(row.buyerId))
        else tickets[t];
      var lottery := lotteries[row.lotteryId];
      lotteries := lotteries[row.lotteryId := lottery.(ticketsSold := lottery.ticketsSold + row.quantity)];
    }

    method ImportOne(row: ImportRequest, c: Choice) returns (result: RowResult)
      requires Valid() && Possible(Tables(), ImportOf(row, c))
      modifies this
      ensures Valid()
      ensures ImportReply(Tables(), result) == ImportRow(old(Tables()), row, c.newId, c.picked, c.fault)
      ensures RowSettled(old(Tables()), Tables(), row, c) && RowReported(old(Tables()), row, c, result)
      ensures row.lotteryId in old(lotteries) && !old(lotteries)[row.lotteryId].deleted ==>
        Charges(old(Tables()), row, result.amount)
    {
      ImportRowOutcome(Tables(), row, c.newId, c.picked, c.fault);
      ImportKeeps(Tables(), row, c.newId, c.picked, c.fault);
      RowSettles(Tables(), row, c);
      result := ImportRows(row, c);
    }

    method ImportRows(row: ImportRequest, c: Choice) returns (result: RowResult)
      modifies this
      ensures ImportReply(Tables(), result) == ImportRow(old(Tables()), row, c.newId, c.picked, c.fault)
    {
      if row.lotteryId !in lotteries || lotteries[row.lotteryId].deleted {
        return RowResult(RowError, 0, {});
      }
      var amount :=
        if row.amountPaid.Some? then row.amountPaid.value else lotteries[row.lotteryId].ticketPrice * row.quantity;
      if c.fault == BeforePayment {
        return RowResult(RowError, amount, {});
      }
      payments := payments[c.newId := Payment(row.lotteryId, row.buyerId, amount, Approved, None)];
      if c.fault == AfterPayment {
        return RowResult(RowError, amount, {});
      }
      if |c.picked| < row.quantity {
        payments := payments[c.newId := payments[c.newId].(status := UnderReview)];
        return RowResult(RowUnderReview, amount, {});
      }
      CommitRow(row, c.newId, c.picked);
      if c.fault == AfterCommit {
        return RowResult(RowError, amount, {});
      }
      result := RowResult(RowApproved, amount, c.picked);
    }

    /** One result per row in order; `imported` counts the approved ones and `errors` all others. */
    method ProcessBulkImport(rows: seq<ImportRequest>, choices: seq<Choice>)
      returns (resultRows: seq<RowResult>, imported: nat, errors: nat)
      requires Valid() && PossibleImport(Tables(), rows, choices)
      modifies this
      ensures Valid()
      ensures Outcome(Tables(), resultRows) == ImportAll(old(Tables()), rows, choices)
      ensures |resultRows| == |rows| == imported + errors
      ensures imported == CountStatus(resultRows, RowApproved)
    {
      hide Consistent, RowSettled, RowReported;
      resultRows, imported, errors := [], 0, 0;
      ghost var whole := ImportAll(Tables(), rows, choices);
      assert rows[0..] == rows && choices[0..] == choices;
      for k := 0 to |rows|
        invariant Valid() && |resultRows| == k == imported + errors
        invariant imported == CountStatus(resultRows, RowApproved)
        invariant Remaining(Tables(), rows, choices, k, resultRows, whole)
      {
        ghost var before := Tables();
        var row := ImportOne(rows[k], choices[k]);
        RowDone(before, rows, choices, k, resultRows, whole);
        resultRows := resultRows + [row];
        CountSnoc(resultRows);
        if row.status == RowApproved {
          imported := imported + 1;
        } else {
          errors := errors + 1;
        }
      }
    }
  }

  lemma ReservationsHaveLotteries(db: Db, id: Id)
    requires Consistent(db) && id in db.reservations
    ensures db.reservations[id].lotteryId in db.lotteries
  {
  }

  /** The new reservation holds what was selected, and no other ticket changed. */
  ghost predicate HoldsSelection(db: Db, next: Db, req: ReserveRequest, newId: Id) {
    && SelectedFor(db, req, HeldBy(next, newId))
    && AllReserved(next, HeldBy(next, newId), newId)
    && OthersSame(db, next, HeldBy(next, newId))
  }

  lemma ReserveReports(db: Db, req: ReserveRequest, now: int, newId: Id, picked: set<Id>)
    requires Consistent(db) && Possible(db, Op.Reserve(req, now, newId, picked))
    ensures var reply := ReserveTickets(db, req, now, newId, picked);
      reply.result.Ok? && !Replays(db.reservationKeys, req.idempotencyKey) ==> HoldsSelection(db, reply.db, req, newId)
  {
    hide ReserveTickets;
    if ReserveTickets(db, req, now, newId, picked).result.Ok? && !Replays(db.reservationKeys, req.idempotencyKey) {
      ReserveTakesSelected(db, req, now, newId, picked);
    }
  }

  lemma InitiateReports(db: Db, req: PaymentRequest, buyerId: Id, newId: Id, now: int)
    requires Consistent(db) && newId !in db.payments
    ensures var reply := InitiatePayment(db, req, buyerId, newId, now);
      reply.result.Ok? && !Replays(db.paymentKeys, req.idempotencyKey) ==>
        && req.reservationId in db.reservations
        && (IsOpen(db.reservations[req.reservationId]) ==>
              && PaidBy(reply.db, newId) == HeldBy(db, req.reservationId)
              && AllPending(reply.db, PaidBy(reply.db, newId), newId))
  {
    var reply := InitiatePayment(db, req, buyerId, newId, now);
    if reply.result.Ok? && !Replays(db.paymentKeys, req.idempotencyKey) {
      assert req.reservationId in db.reservations;
      hide InitiatePayment;
      if IsOpen(db.reservations[req.reservationId]) {
        FirstPaymentMovesHeldTickets(db, req, buyerId, newId, now);
      }
    }
  }

  /** Importing the rows from k on completes the import. */
  ghost predicate Remaining(db: Db, rows: seq<ImportRequest>, choices: seq<Choice>, k: nat, done: seq<RowResult>,
                            whole: Outcome)
  {
    && k <= |rows| == |choices|
    && PossibleImport(db, rows[k..], choices[k..])
    && (k < |rows| ==> Possible(db, ImportOf(rows[k], choices[k])))
    && var rest := ImportAll(db, rows[k..], choices[k..]);
      whole == Outcome(rest.db, done + rest.results)
  }

  lemma RowDone(db: Db, rows: seq<ImportRequest>, choices: seq<Choice>, k: nat, done: seq<RowResult>, whole: Outcome)
    requires k < |rows| && Remaining(db, rows, choices, k, done, whole)
    ensures var first := ImportRow(db, rows[k], choices[k].newId, choices[k].picked, choices[k].fault);
      Remaining(first.db, rows, choices, k + 1, done + [first.row], whole)
  {
    assert rows[k..][0] == rows[k] && choices[k..][0] == choices[k];
    assert rows[k..][1..] == rows[k + 1..] && choices[k..][1..] == choices[k + 1..];
    var first := ImportRow(db, rows[k], choices[k].newId, choices[k].picked, choices[k].fault);
    var rest := ImportAll(first.db, rows[k + 1..], choices[k + 1..]);
    assert done + ([first.row] + rest.results) == done + [first.row] + rest.results;
    NextPossible(first.db, rows, choices, k + 1);
  }

  lemma NextPossible(db: Db, rows: seq<ImportRequest>, choices: seq<Choice>, k: nat)
    requires k <= |rows| == |choices| && PossibleImport(db, rows[k..], choices[k..])
    ensures k < |rows| ==> Possible(db, ImportOf(rows[k], choices[k]))
  {
    if k < |rows| {
      assert rows[k..][0] == rows[k] && choices[k..][0] == choices[k];
    }
  }

  lemma CountSnoc(results: seq<RowResult>)
    requires results != []
    ensures CountStatus(results, RowApproved)
         == CountStatus(results[..|results| - 1], RowApproved)
           + (if results[|results| - 1].status == RowApproved then 1 else 0)
  {
  }
}
