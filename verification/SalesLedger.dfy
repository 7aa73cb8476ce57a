/**
 The sales ledger: what the `ticketsSold` counter of a lottery means after any run. Sold tickets
 are attributed to the lottery of their payment, which is the row whose counter a sale raises.
 */
module SalesLedger {
  import opened Wrappers
  import opened LotteryStatus
  import opened Sales
  import opened SalesInvariant

  /** The live SOLD tickets paid by payments of lottery l. */
  ghost function SoldFor(db: Db, l: Id): set<Id> {
    set t | t in db.tickets && db.tickets[t].status == Sold && db.tickets[t].paymentId.Some?
            && db.tickets[t].paymentId.value in db.payments && db.payments[db.tickets[t].paymentId.value].lotteryId == l
  }

  ghost function TicketsSold(db: Db, l: Id): int {
    if l in db.lotteries then db.lotteries[l].ticketsSold else 0
  }

  /** The tickets of a payment that are SOLD already. */
  ghost function SoldBefore(db: Db, paymentId: Id): set<Id> {
    set t | t in PaidBy(db, paymentId) && db.tickets[t].status == Sold
  }

  ghost predicate Finalizes(db: Db, op: Op) {
    match op
    case Approve(p) => ApprovePayment(db, p).result.Ok?
    case AutoApprove(p) => p in db.payments
    case _ => false
  }

  /** Tickets a step counts again although they were SOLD before it. */
  ghost function Recounted(db: Db, op: Op, l: Id): nat {
    if Finalizes(db, op) && op.paymentId in db.payments && db.payments[op.paymentId].lotteryId == l
    then |SoldBefore(db, op.paymentId)| else 0
  }

  /** Import quantities are not validated; the counter is a count only while they are not negative. */
  ghost predicate CountsUp(op: Op) {
    op.Import? ==> op.importRequest.quantity >= 0
  }

  // ---- One step ----

  ghost predicate CounterFollows(db: Db, next: Db, l: Id, recounted: nat) {
    TicketsSold(next, l) - TicketsSold(db, l) == |SoldFor(next, l) - SoldFor(db, l)| + recounted
  }

  lemma QuietStep(db: Db, next: Db, l: Id)
    requires TicketsSold(next, l) == TicketsSold(db, l) && SoldFor(next, l) <= SoldFor(db, l)
    ensures CounterFollows(db, next, l, 0)
  {
    assert SoldFor(next, l) - SoldFor(db, l) == {};
  }

  lemma FinalizeSells(db: Db, paymentId: Id, l: Id)
    requires Consistent(db) && paymentId in db.payments && db.payments[paymentId].lotteryId == l
    ensures SoldFor(FinalizeTickets(db, paymentId), l) - SoldFor(db, l)
      == PaidBy(db, paymentId) - SoldBefore(db, paymentId)
  {
  }

  lemma FinalizeFollows(db: Db, paymentId: Id, l: Id)
    requires Consistent(db) && paymentId in db.payments
    ensures CounterFollows(db, FinalizeTickets(db, paymentId), l,
                           if db.payments[paymentId].lotteryId == l then |SoldBefore(db, paymentId)| else 0)
  {
    var next := FinalizeTickets(db, paymentId);
    var mine, before := PaidBy(db, paymentId), SoldBefore(db, paymentId);
    if db.payments[paymentId].lotteryId == l {
      FinalizeSells(db, paymentId, l);
      assert mine == before + (mine - before);
      assert l in db.lotteries;
    } else {
      QuietStep(db, next, l);
    }
  }

  lemma StatusWriteIsQuiet(db: Db, id: Id, status: PaymentStatus, l: Id)
    ensures SoldFor(SetPaymentStatus(db, id, status), l) == SoldFor(db, l)
    ensures TicketsSold(SetPaymentStatus(db, id, status), l) == TicketsSold(db, l)
  {
  }

  lemma CreatePaymentIsQuiet(db: Db, id: Id, payment: Payment, l: Id)
    requires Consistent(db) && id !in db.payments
    ensures SoldFor(CreatePayment(db, id, payment), l) == SoldFor(db, l)
    ensures TicketsSold(CreatePayment(db, id, payment), l) == TicketsSold(db, l)
  {
    forall t | t in db.tickets
      ensures t in SoldFor(CreatePayment(db, id, payment), l) <==> t in SoldFor(db, l)
    {
      assert PaymentMatches(db, db.tickets[t]);
    }
  }

  lemma SaleFollows(db: Db, chosen: set<Id>, lotteryId: Id, paymentId: Id, count: int, l: Id)
    requires Consistent(db) && chosen <= AvailableIn(db, lotteryId) && lotteryId in db.lotteries
    requires paymentId in db.payments && db.payments[paymentId].lotteryId == lotteryId
    ensures var next := AddSold(SellDirectly(db, chosen, paymentId, db.payments[paymentId].buyerId), lotteryId, count);
      && TicketsSold(next, l) - TicketsSold(db, l) == (if l == lotteryId then count else 0)
      && SoldFor(next, l) - SoldFor(db, l) == (if l == lotteryId then chosen else {})
      && SoldFor(db, l) <= SoldFor(next, l)
  {
    var next := AddSold(SellDirectly(db, chosen, paymentId, db.payments[paymentId].buyerId), lotteryId, count);
    forall t | t in db.tickets
      ensures t in SoldFor(next, l) <==> t in SoldFor(db, l) || (l == lotteryId && t in chosen)
      ensures t in chosen ==> t !in SoldFor(db, l)
    {
    }
  }

  /** A committed import row: the counter of its lottery rises by the quantity, its sold set by the tickets picked. */
  lemma ImportEffect(db: Db, req: ImportRequest, newId: Id, picked: set<Id>, fault: FaultPoint, l: Id)
    requires Consistent(db) && Possible(db, Import(req, newId, picked, fault))
    ensures var next := ImportRow(db, req, newId, picked, fault).db;
      var committed := Committed(db, req, picked, fault) && l == req.lotteryId;
      && TicketsSold(next, l) - TicketsSold(db, l) == (if committed then req.quantity else 0)
      && SoldFor(next, l) - SoldFor(db, l) == (if committed then picked else {})
  {
    if KnownLottery(db, req.lotteryId) && fault != BeforePayment {
      var payment := Payment(req.lotteryId, req.buyerId, ImportAmount(db, req), Approved, None);
      var paid := CreatePayment(db, newId, payment);
      CreatePaymentKeeps(db, newId, payment);
      CreatePaymentIsQuiet(db, newId, payment, l);
      StatusWriteIsQuiet(paid, newId, UnderReview, l);
      assert AvailableIn(paid, req.lotteryId) == AvailableIn(db, req.lotteryId);
      SaleFollows(paid, picked, req.lotteryId, newId, req.quantity, l);
    }
  }

  /** The counter of a committed row is right exactly when its quantity is not negative. */
  lemma ImportCountsIffNotNegative(db: Db, req: ImportRequest, newId: Id, picked: set<Id>)
    requires Consistent(db) && Possible(db, Import(req, newId, picked, NoFault))
    ensures CounterFollows(db, ImportRow(db, req, newId, picked, NoFault).db, req.lotteryId, 0)
      <==> req.quantity >= 0 || !KnownLottery(db, req.lotteryId)
  {
    ImportEffect(db, req, newId, picked, NoFault, req.lotteryId);
  }

  lemma ReserveIsQuiet(db: Db, req: ReserveRequest, now: int, newId: Id, picked: set<Id>, l: Id)
    requires Consistent(db) && Possible(db, Reserve(req, now, newId, picked))
    ensures SoldFor(ReserveTickets(db, req, now, newId, picked).db, l) <= SoldFor(db, l)
    ensures TicketsSold(ReserveTickets(db, req, now, newId, picked).db, l) == TicketsSold(db, l)
  {
  }

  lemma CancelIsQuiet(db: Db, id: Id, l: Id)
    ensures SoldFor(CancelReservation(db, id), l) <= SoldFor(db, l)
    ensures TicketsSold(CancelReservation(db, id), l) == TicketsSold(db, l)
  {
  }

  lemma ConfirmIsQuiet(db: Db, id: Id, paymentId: Id, now: int, l: Id)
    ensures SoldFor(ConfirmReservation(db, id, paymentId, now).db, l) <= SoldFor(db, l)
    ensures TicketsSold(ConfirmReservation(db, id, paymentId, now).db, l) == TicketsSold(db, l)
  {
    CancelIsQuiet(db, id, l);
  }

  lemma InitiateIsQuiet(db: Db, req: PaymentRequest, buyerId: Id, newId: Id, now: int, l: Id)
    requires Consistent(db) && newId !in db.payments
    ensures SoldFor(InitiatePayment(db, req, buyerId, newId, now).db, l) <= SoldFor(db, l)
    ensures TicketsSold(InitiatePayment(db, req, buyerId, newId, now).db, l) == TicketsSold(db, l)
  {
    if req.reservationId in db.reservations && db.reservations[req.reservationId].lotteryId in db.lotteries {
      var amount := AmountDue(db, req.reservationId);
      var payment := Payment(req.lotteryId, buyerId, amount, Initiated, req.idempotencyKey);
      CreatePaymentIsQuiet(db, newId, payment, l);
      ConfirmIsQuiet(CreatePayment(db, newId, payment), req.reservationId, newId, now, l);
    }
  }

  lemma RejectIsQuiet(db: Db, id: Id, l: Id)
    ensures SoldFor(RejectPayment(db, id).db, l) <= SoldFor(db, l)
    ensures TicketsSold(RejectPayment(db, id).db, l) == TicketsSold(db, l)
  {
  }

  lemma CatalogueIsQuiet(db: Db, op: Op, l: Id)
    requires Consistent(db) && Possible(db, op) && (op.CreateLottery? || op.EditLottery?)
    ensures SoldFor(Step(db, op), l) <= SoldFor(db, l)
    ensures TicketsSold(Step(db, op), l) == TicketsSold(db, l)
  {
  }

  lemma ApprovalFollows(db: Db, id: Id, l: Id)
    requires Consistent(db) && id in db.payments
    ensures CounterFollows(db, FinalizeTickets(SetPaymentStatus(db, id, Approved), id), l,
                           if db.payments[id].lotteryId == l then |SoldBefore(db, id)| else 0)
  {
    var written := SetPaymentStatus(db, id, Approved);
    SetPaymentStatusKeeps(db, id, Approved);
    StatusWriteIsQuiet(db, id, Approved, l);
    FinalizeFollows(written, id, l);
    assert SoldBefore(written, id) == SoldBefore(db, id);
  }

  /** All other calls sell nothing and leave the counters alone. */
  lemma OtherOpsAreQuiet(db: Db, op: Op, l: Id)
    requires Consistent(db) && Possible(db, op) && !op.Import? && !op.Approve? && !op.AutoApprove?
    ensures SoldFor(Step(db, op), l) <= SoldFor(db, l)
    ensures TicketsSold(Step(db, op), l) == TicketsSold(db, l)
  {
    match op
    case CreateLottery(_, _, _, _) => CatalogueIsQuiet(db, op, l);
    case EditLottery(_, _, _, _, _) => CatalogueIsQuiet(db, op, l);
    case Reserve(req, now, newId, picked) => ReserveIsQuiet(db, req, now, newId, picked, l);
    case Cancel(id) => CancelIsQuiet(db, id, l);
    case Expire(id, _) => CancelIsQuiet(db, id, l);
    case Initiate(req, buyerId, newId, now) => InitiateIsQuiet(db, req, buyerId, newId, now, l);
    case Reject(id) => RejectIsQuiet(db, id, l);
    case WriteStatus(id, status) => StatusWriteIsQuiet(db, id, status, l);
  }

  lemma ImportFollows(db: Db, req: ImportRequest, newId: Id, picked: set<Id>, fault: FaultPoint, l: Id)
    requires Consistent(db) && Possible(db, Import(req, newId, picked, fault)) && req.quantity >= 0
    ensures CounterFollows(db, ImportRow(db, req, newId, picked, fault).db, l, 0)
  {
    ImportEffect(db, req, newId, picked, fault, l);
  }

  lemma ApprovedStepFollows(db: Db, op: Op, l: Id)
    requires Consistent(db) && (op.Approve? || op.AutoApprove?)
    ensures CounterFollows(db, Step(db, op), l, Recounted(db, op, l))
  {
    if Finalizes(db, op) {
      ApprovalFollows(db, op.paymentId, l);
    } else {
      assert Step(db, op) == db;
      QuietStep(db, db, l);
    }
  }

  lemma StepFollows(db: Db, op: Op, l: Id)
    requires Consistent(db) && Possible(db, op) && CountsUp(op)
    ensures CounterFollows(db, Step(db, op), l, Recounted(db, op, l))
  {
    if op.Import? {
      ImportFollows(db, op.importRequest, op.newId, op.picked, op.fault, l);
    } else if op.Approve? || op.AutoApprove? {
      ApprovedStepFollows(db, op, l);
    } else {
      OtherOpsAreQuiet(db, op, l);
      QuietStep(db, Step(db, op), l);
    }
  }

  // ---- Whole runs ----

  /** How many times, over a run, a ticket of lottery l left the SOLD state. */
  ghost function TotalLeft(db: Db, ops: seq<Op>, l: Id): nat
    requires PossibleRun(db, ops)
    decreases |ops|
  {
    if ops == [] then 0 else
      |SoldFor(db, l) - SoldFor(Step(db, ops[0]), l)| + TotalLeft(Step(db, ops[0]), ops[1..], l)
  }

  ghost function TotalRecounted(db: Db, ops: seq<Op>, l: Id): nat
    requires PossibleRun(db, ops)
    decreases |ops|
  {
    if ops == [] then 0 else Recounted(db, ops[0], l) + TotalRecounted(Step(db, ops[0]), ops[1..], l)
  }

  lemma SetDifferences(a: set<Id>, b: set<Id>)
    ensures |b| - |a| == |b - a| - |a - b|
  {
    assert a == (a * b) + (a - b);
    assert b == (a * b) + (b - a);
  }

  lemma {:induction false} LedgerFrom(db: Db, ops: seq<Op>, l: Id)
    requires Consistent(db) && PossibleRun(db, ops)
    requires forall op :: op in ops ==> CountsUp(op)
    ensures TicketsSold(Run(db, ops), l) - TicketsSold(db, l)
         == |SoldFor(Run(db, ops), l)| - |SoldFor(db, l)| + TotalLeft(db, ops, l) + TotalRecounted(db, ops, l)
    decreases |ops|
  {
    if ops != [] {
      var next := Step(db, ops[0]);
      StepFollows(db, ops[0], l);
      SetDifferences(SoldFor(db, l), SoldFor(next, l));
      StepKeepsConsistent(db, ops[0]);
      LedgerFrom(next, ops[1..], l);
    }
  }

  /** ticketsSold = live SOLD + tickets that ever left SOLD + SOLD tickets counted again. */
  lemma SalesLedger(ops: seq<Op>, l: Id)
    requires PossibleRun(EMPTY, ops)
    requires forall op :: op in ops ==> CountsUp(op)
    ensures TicketsSold(Run(EMPTY, ops), l)
         == |SoldFor(Run(EMPTY, ops), l)| + TotalLeft(EMPTY, ops, l) + TotalRecounted(EMPTY, ops, l)
  {
    LedgerFrom(EMPTY, ops, l);
    assert SoldFor(EMPTY, l) == {};
  }

  // ---- Attribution by the tickets' own lottery ----

  /** The live SOLD tickets of lottery l. */
  ghost function SoldIn(db: Db, l: Id): set<Id> {
    set t | t in db.tickets && db.tickets[t].status == Sold && db.tickets[t].lotteryId == l
  }

  /** The payment request names the lottery of the reservation it pays for; the source does not check it. */
  ghost predicate NamesItsLottery(db: Db, op: Op) {
    op.Initiate? && op.paymentRequest.reservationId in db.reservations ==>
      op.paymentRequest.lotteryId == db.reservations[op.paymentRequest.reservationId].lotteryId
  }

  ghost predicate AllNameTheirLottery(db: Db, ops: seq<Op>)
    requires PossibleRun(db, ops)
    decreases |ops|
  {
    ops == [] || (NamesItsLottery(db, ops[0]) && AllNameTheirLottery(Step(db, ops[0]), ops[1..]))
  }

  ghost predicate LotteriesAgree(db: Db) {
    forall t :: t in db.tickets && db.tickets[t].paymentId.Some? && db.tickets[t].paymentId.value in db.payments ==>
      db.payments[db.tickets[t].paymentId.value].lotteryId == db.tickets[t].lotteryId
  }

  /** Links that were there already, or are gone, cannot disagree. */
  ghost predicate OnlyOldLinks(db: Db, next: Db) {
    && (forall t :: t in next.tickets && next.tickets[t].paymentId.Some? ==>
          && t in db.tickets && next.tickets[t].paymentId == db.tickets[t].paymentId
          && next.tickets[t].lotteryId == db.tickets[t].lotteryId)
    && (forall p :: p in db.payments ==> p in next.payments && next.payments[p].lotteryId == db.payments[p].lotteryId)
  }

  lemma OldLinksAgree(db: Db, next: Db)
    requires Consistent(db) && LotteriesAgree(db) && OnlyOldLinks(db, next)
    ensures LotteriesAgree(next)
  {
    forall t | t in next.tickets && next.tickets[t].paymentId.Some? && next.tickets[t].paymentId.value in next.payments
      ensures next.payments[next.tickets[t].paymentId.value].lotteryId == next.tickets[t].lotteryId
    {
      assert PaymentMatches(db, db.tickets[t]);
    }
  }

  lemma CancelAddsNoLinks(db: Db, id: Id)
    ensures OnlyOldLinks(db, CancelReservation(db, id))
  {
  }

  lemma FinalizeAddsNoLinks(db: Db, id: Id)
    ensures OnlyOldLinks(db, FinalizeTickets(db, id))
  {
  }

  lemma ReserveAddsNoLinks(db: Db, req: ReserveRequest, now: int, newId: Id, picked: set<Id>)
    ensures OnlyOldLinks(db, ReserveTickets(db, req, now, newId, picked).db)
  {
  }

  lemma RejectAddsNoLinks(db: Db, id: Id)
    ensures OnlyOldLinks(db, RejectPayment(db, id).db)
  {
  }

  lemma CatalogueAddsNoLinks(db: Db, op: Op)
    requires Possible(db, op) && (op.CreateLottery? || op.EditLottery? || op.WriteStatus?)
    ensures OnlyOldLinks(db, Step(db, op))
  {
  }

  lemma OtherOpsAddNoLinks(db: Db, op: Op)
    requires Consistent(db) && Possible(db, op) && !op.Import? && !op.Initiate? && !op.Approve? && !op.AutoApprove?
    ensures OnlyOldLinks(db, Step(db, op))
  {
    match op
    case Reserve(req, now, newId, picked) => ReserveAddsNoLinks(db, req, now, newId, picked);
    case Cancel(id) => CancelAddsNoLinks(db, id);
    case Expire(id, _) => CancelAddsNoLinks(db, id);
    case Reject(id) => RejectAddsNoLinks(db, id);
    case _ => CatalogueAddsNoLinks(db, op);
  }

  lemma ApplyConfirmationKeepsAgreement(db: Db, id: Id, paymentId: Id)
    requires Consistent(db) && LotteriesAgree(db) && paymentId in db.payments && id in db.reservations
    requires db.payments[paymentId].lotteryId == db.reservations[id].lotteryId
    ensures LotteriesAgree(ApplyConfirmation(db, id, paymentId))
  {
    var next := ApplyConfirmation(db, id, paymentId);
    forall t | t in next.tickets && next.tickets[t].paymentId.Some? && next.tickets[t].paymentId.value in next.payments
      ensures next.payments[next.tickets[t].paymentId.value].lotteryId == next.tickets[t].lotteryId
    {
      assert ReservationMatches(db, db.tickets[t]);
    }
  }

  lemma ConfirmKeepsAgreement(db: Db, id: Id, paymentId: Id, now: int)
    requires Consistent(db) && LotteriesAgree(db) && paymentId in db.payments
    requires id in db.reservations ==> db.payments[paymentId].lotteryId == db.reservations[id].lotteryId
    ensures LotteriesAgree(ConfirmReservation(db, id, paymentId, now).db)
  {
    CancelAddsNoLinks(db, id);
    OldLinksAgree(db, CancelReservation(db, id));
    if id in db.reservations {
      ApplyConfirmationKeepsAgreement(db, id, paymentId);
    }
  }

  lemma CreatePaymentKeepsAgreement(db: Db, id: Id, payment: Payment)
    requires Consistent(db) && LotteriesAgree(db) && id !in db.payments
    ensures LotteriesAgree(CreatePayment(db, id, payment))
  {
    var next := CreatePayment(db, id, payment);
    forall t | t in next.tickets && next.tickets[t].paymentId.Some? && next.tickets[t].paymentId.value in next.payments
      ensures next.payments[next.tickets[t].paymentId.value].lotteryId == next.tickets[t].lotteryId
    {
      assert PaymentMatches(db, db.tickets[t]);
    }
  }

  lemma InitiateKeepsAgreement(db: Db, req: PaymentRequest, buyerId: Id, newId: Id, now: int)
    requires Consistent(db) && LotteriesAgree(db) && newId !in db.payments
    requires NamesItsLottery(db, Initiate(req, buyerId, newId, now))
    ensures LotteriesAgree(InitiatePayment(db, req, buyerId, newId, now).db)
  {
    if req.reservationId in db.reservations && req.lotteryId in db.lotteries
      && !KeyTaken(db.paymentKeys, req.idempotencyKey) {
      var amount := AmountDue(db, req.reservationId);
      var payment := Payment(req.lotteryId, buyerId, amount, Initiated, req.idempotencyKey);
      CreatePaymentKeeps(db, newId, payment);
      CreatePaymentKeepsAgreement(db, newId, payment);
      ConfirmKeepsAgreement(CreatePayment(db, newId, payment), req.reservationId, newId, now);
    }
  }

  lemma SellDirectlyKeepsAgreement(db: Db, chosen: set<Id>, lotteryId: Id, paymentId: Id, buyerId: Id)
    requires LotteriesAgree(db) && chosen <= AvailableIn(db, lotteryId)
    requires paymentId in db.payments && db.payments[paymentId].lotteryId == lotteryId
    ensures LotteriesAgree(SellDirectly(db, chosen, paymentId, buyerId))
  {
  }

  lemma ImportKeepsAgreement(db: Db, req: ImportRequest, newId: Id, picked: set<Id>, fault: FaultPoint)
    requires Consistent(db) && LotteriesAgree(db) && Possible(db, Import(req, newId, picked, fault))
    ensures LotteriesAgree(ImportRow(db, req, newId, picked, fault).db)
  {
    if KnownLottery(db, req.lotteryId) && fault != BeforePayment {
      var payment := Payment(req.lotteryId, req.buyerId, ImportAmount(db, req), Approved, None);
      var paid := CreatePayment(db, newId, payment);
      CreatePaymentKeeps(db, newId, payment);
      CreatePaymentKeepsAgreement(db, newId, payment);
      OldLinksAgree(paid, SetPaymentStatus(paid, newId, UnderReview));
      assert AvailableIn(paid, req.lotteryId) == AvailableIn(db, req.lotteryId);
      SellDirectlyKeepsAgreement(paid, picked, req.lotteryId, newId, req.buyerId);
      AddSoldKeepsAgreement(SellDirectly(paid, picked, newId, req.buyerId), req.lotteryId, req.quantity);
    }
  }

  lemma AddSoldKeepsAgreement(db: Db, lotteryId: Id, count: int)
    requires LotteriesAgree(db)
    ensures LotteriesAgree(AddSold(db, lotteryId, count))
  {
  }

  lemma StepKeepsAgreement(db: Db, op: Op)
    requires Consistent(db) && LotteriesAgree(db) && Possible(db, op) && NamesItsLottery(db, op)
    ensures LotteriesAgree(Step(db, op))
  {
    match op
    case Initiate(req, buyerId, newId, now) => InitiateKeepsAgreement(db, req, buyerId, newId, now);
    case Import(req, newId, picked, fault) => ImportKeepsAgreement(db, req, newId, picked, fault);
    case Approve(id) => ApprovalKeepsAgreement(db, id);
    case AutoApprove(id) => ApprovalKeepsAgreement(db, id);
    case _ =>
      OtherOpsAddNoLinks(db, op);
      OldLinksAgree(db, Step(db, op));
  }

  lemma ApprovalKeepsAgreement(db: Db, id: Id)
    requires Consistent(db) && LotteriesAgree(db)
    ensures LotteriesAgree(FinalizeTickets(SetPaymentStatus(db, id, Approved), id))
  {
    var written := SetPaymentStatus(db, id, Approved);
    SetPaymentStatusKeeps(db, id, Approved);
    OldLinksAgree(db, written);
    FinalizeAddsNoLinks(written, id);
    OldLinksAgree(written, FinalizeTickets(written, id));
  }

  lemma {:induction false} RunKeepsAgreement(db: Db, ops: seq<Op>)
    requires Consistent(db) && LotteriesAgree(db) && PossibleRun(db, ops) && AllNameTheirLottery(db, ops)
    ensures LotteriesAgree(Run(db, ops))
    decreases |ops|
  {
    if ops != [] {
      StepKeepsAgreement(db, ops[0]);
      StepKeepsConsistent(db, ops[0]);
      RunKeepsAgreement(Step(db, ops[0]), ops[1..]);
    }
  }

  /** Then the counter never falls below the lottery's own live SOLD count. */
  lemma CounterCoversLiveSales(ops: seq<Op>, l: Id)
    requires PossibleRun(EMPTY, ops) && AllNameTheirLottery(EMPTY, ops)
    requires forall op :: op in ops ==> CountsUp(op)
    ensures TicketsSold(Run(EMPTY, ops), l) >= |SoldIn(Run(EMPTY, ops), l)|
  {
    SalesLedger(ops, l);
    RunKeepsAgreement(EMPTY, ops);
    RunKeepsConsistent(EMPTY, ops);
    var db := Run(EMPTY, ops);
    forall t | t in db.tickets
      ensures t in SoldIn(db, l) <==> t in SoldFor(db, l)
    {
      assert StatusMatchesLinks(db.tickets[t]) && PaymentMatches(db, db.tickets[t]);
    }
    assert SoldIn(db, l) == SoldFor(db, l);
  }

  /**
   The assumption is exactly what is needed: when a payment's tickets, all of lottery l and none sold yet, are
   finalized, the counter of l rises with the live sales of l just when the payment names l.
   */
  lemma FinalizeCountsRightIffLotteriesAgree(db: Db, paymentId: Id, l: Id)
    requires Consistent(db) && paymentId in db.payments && l in db.lotteries
    requires PaidBy(db, paymentId) != {}
    requires forall t :: t in PaidBy(db, paymentId) ==>
      db.tickets[t].lotteryId == l && db.tickets[t].status == PendingPayment
    ensures var next := FinalizeTickets(db, paymentId);
      (TicketsSold(next, l) - TicketsSold(db, l) == |SoldIn(next, l)| - |SoldIn(db, l)|)
      <==> db.payments[paymentId].lotteryId == l
  {
    var next := FinalizeTickets(db, paymentId);
    var mine := PaidBy(db, paymentId);
    assert SoldIn(next, l) == SoldIn(db, l) + mine;
    assert SoldIn(db, l) !! mine;
    assert |mine| > 0;
  }

  // ---- A run where the counter falls below the sales ----

  lemma RunCons(db: Db, op: Op, rest: seq<Op>)
    requires Possible(db, op) && PossibleRun(Step(db, op), rest)
    ensures PossibleRun(db, [op] + rest) && Run(db, [op] + rest) == Run(Step(db, op), rest)
  {
    assert ([op] + rest)[0] == op && ([op] + rest)[1..] == rest;
  }

  /** One ticket of lottery A is reserved, paid for in the name of lottery B, and approved. */
  function MisnamedSale(): seq<Op> {
    [CreateLottery("A", 100, 10, map["t" := "0001"])] + ([CreateLottery("B", 100, 10, map[])]
    + ([EditLottery("A", Published, false, 10, 100)] + ([Reserve(ReserveRequest("A", 1, [], None), 0, "r", {"t"})]
    + ([Initiate(PaymentRequest("B", "r", None), "buyer", "p", 0)] + ([Approve("p")] + [])))))
  }

  const OFFERED: Db := Db(
    map["t" := Ticket("A", "0001", Available, None, None, None)], map[], map[],
    map["A" := Lottery(Published, false, 10, 100, 0), "B" := Lottery(Draft, false, 10, 100, 0)], map[], map[])

  const HELD: Db := Db(
    map["t" := Ticket("A", "0001", Reserved, Some("r"), None, None)],
    map["r" := Reservation("A", 1, RESERVATION_TIMEOUT_MS, false, false, None)], map[],
    map["A" := Lottery(Selling, false, 10, 100, 0), "B" := Lottery(Draft, false, 10, 100, 0)], map[], map[])

  const WAITING: Db := Db(
    map["t" := Ticket("A", "0001", PendingPayment, Some("r"), Some("p"), None)],
    map["r" := Reservation("A", 1, RESERVATION_TIMEOUT_MS, true, false, None)],
    map["p" := Payment("B", "buyer", 100, Initiated, None)],
    map["A" := Lottery(Selling, false, 10, 100, 0), "B" := Lottery(Draft, false, 10, 100, 0)], map[], map[])

  lemma ReservingOffered()
    ensures var op := Reserve(ReserveRequest("A", 1, [], None), 0, "r", {"t"});
      Possible(OFFERED, op) && Step(OFFERED, op) == HELD
  {
    assert AvailableIn(OFFERED, "A") == {"t"};
  }

  lemma PayingHeld()
    ensures var op := Initiate(PaymentRequest("B", "r", None), "buyer", "p", 0);
      Possible(HELD, op) && Step(HELD, op) == WAITING
  {
  }

  lemma ApprovingWaiting()
    ensures TicketsSold(Step(WAITING, Approve("p")), "A") == 0
    ensures SoldIn(Step(WAITING, Approve("p")), "A") == {"t"}
  {
  }

  lemma OfferingMisnamed()
    ensures var a := CreateLottery("A", 100, 10, map["t" := "0001"]);
      var b := CreateLottery("B", 100, 10, map[]);
      var publish := EditLottery("A", Published, false, 10, 100);
      && Possible(EMPTY, a) && Possible(Step(EMPTY, a), b) && Possible(Step(Step(EMPTY, a), b), publish)
      && Step(Step(Step(EMPTY, a), b), publish) == OFFERED
  {
  }

  /** Without the assumption on the payment requests, a lottery's counter can be below its own live sales. */
  lemma CounterCanMissSales()
    ensures PossibleRun(EMPTY, MisnamedSale())
    ensures TicketsSold(Run(EMPTY, MisnamedSale()), "A") < |SoldIn(Run(EMPTY, MisnamedSale()), "A")|
  {
    OfferingMisnamed();
    ReservingOffered();
    PayingHeld();
    ApprovingWaiting();
    hide Step, Possible, OFFERED, HELD, WAITING, EMPTY;
    var approve: seq<Op> := [Approve("p")] + [];
    assert Possible(WAITING, Approve("p")) by {
      ApprovalIsPossible(WAITING);
    }
    RunCons(WAITING, Approve("p"), []);
    var pay := [Initiate(PaymentRequest("B", "r", None), "buyer", "p", 0)] + approve;
    RunCons(HELD, pay[0], approve);
    var reserve := [Reserve(ReserveRequest("A", 1, [], None), 0, "r", {"t"})] + pay;
    RunCons(OFFERED, reserve[0], pay);
    var a := CreateLottery("A", 100, 10, map["t" := "0001"]);
    var b := CreateLottery("B", 100, 10, map[]);
    var publish := EditLottery("A", Published, false, 10, 100);
    RunCons(Step(Step(EMPTY, a), b), publish, reserve);
    RunCons(Step(EMPTY, a), b, [publish] + reserve);
    RunCons(EMPTY, a, [b] + ([publish] + reserve));
  }

  lemma ApprovalIsPossible(db: Db)
    ensures Possible(db, Approve("p"))
  {
  }
}
