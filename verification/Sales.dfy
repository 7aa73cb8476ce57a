/**
 The sales tables (tickets, reservations, payments, lotteries) and the service calls that write
 them, each as one function from the tables before to the tables after. A call is atomic here,
 although the source reads some rows before it opens its transaction.
 */
module Sales {
  import opened Wrappers
  import opened LotteryStatus

  type Id = string

  // ---- Rows ----

  /** CANCELLED also exists as a ticket status, but no service call writes it. */
  datatype TicketStatus = Available | Reserved | PendingPayment | Sold

  datatype Ticket = Ticket(
    lotteryId: Id, number: string, status: TicketStatus,
    reservationId: Option<Id>, paymentId: Option<Id>, buyerId: Option<Id>)

  datatype Reservation = Reservation(
    lotteryId: Id, quantity: nat, expiresAt: int, confirmed: bool, cancelled: bool, idempotencyKey: Option<string>)

  datatype PaymentStatus = Initiated | Submitted | UnderReview | Approved | Rejected | Refunded

  datatype Payment = Payment(lotteryId: Id, buyerId: Id, amount: int, status: PaymentStatus,
                             idempotencyKey: Option<string>)

  /** Prices and amounts are in minor units: both columns are decimals with two places. */
  datatype Lottery = Lottery(status: Status, deleted: bool, saleEndDate: int, ticketPrice: nat, ticketsSold: int)

  /** The two key maps are the unique indexes on the idempotency keys. */
  datatype Db = Db(
    tickets: map<Id, Ticket>,
    reservations: map<Id, Reservation>,
    payments: map<Id, Payment>,
    lotteries: map<Id, Lottery>,
    reservationKeys: map<string, Id>,
    paymentKeys: map<string, Id>)

  datatype Error = NotFound | BadRequest | Conflict | UniqueViolation | ForeignKeyViolation | Fault

  /** A call may fail and still have changed the tables. */
  datatype Reply = Reply(db: Db, result: Result<Id, Error>)

  // ---- Queries ----

  function AvailableIn(db: Db, lotteryId: Id): set<Id> {
    set t | t in db.tickets && db.tickets[t].lotteryId == lotteryId && db.tickets[t].status == Available
  }

  function AvailableByNumber(db: Db, lotteryId: Id, numbers: seq<string>): set<Id> {
    set t | t in AvailableIn(db, lotteryId) && db.tickets[t].number in numbers
  }

  function HeldBy(db: Db, reservationId: Id): set<Id> {
    set t | t in db.tickets && db.tickets[t].reservationId == Some(reservationId)
  }

  function PaidBy(db: Db, paymentId: Id): set<Id> {
    set t | t in db.tickets && db.tickets[t].paymentId == Some(paymentId)
  }

  function AddKey(keys: map<string, Id>, key: Option<string>, id: Id): map<string, Id> {
    if key.Some? then keys[key.value := id] else keys
  }

  /** A key is looked up only when it is a non-empty string, but any given string is stored in the unique index. */
  predicate Replays(keys: map<string, Id>, key: Option<string>) {
    key.Some? && key.value != "" && key.value in keys
  }

  predicate KeyTaken(keys: map<string, Id>, key: Option<string>) {
    key.Some? && key.value in keys
  }

  // ---- Reservations ----

  const RESERVATION_TIMEOUT_MS: int := 15 * 60 * 1000

  datatype ReserveRequest = ReserveRequest(lotteryId: Id, quantity: nat, ticketNumbers: seq<string>,
                                           idempotencyKey: Option<string>)

  /** What the transaction writes once the tickets are chosen. */
  function ApplyReservation(db: Db, req: ReserveRequest, id: Id, expiresAt: int, chosen: set<Id>): Db {
    db.(
      tickets := map t | t in db.tickets ::
        if t in chosen then db.tickets[t].(status := Reserved, reservationId := Some(id)) else db.tickets[t],
      reservations := db.reservations[
        id := Reservation(req.lotteryId, req.quantity, expiresAt, false, false, req.idempotencyKey)],
      reservationKeys := AddKey(db.reservationKeys, req.idempotencyKey, id))
  }

  function StartSelling(db: Db, lotteryId: Id): Db {
    if lotteryId in db.lotteries && db.lotteries[lotteryId].status == Published
    then db.(lotteries := db.lotteries[lotteryId := db.lotteries[lotteryId].(status := Selling)])
    else db
  }

  /** The tickets a request is about: those of the named numbers, or what the random query picked. */
  function ChosenTickets(db: Db, req: ReserveRequest, picked: set<Id>): set<Id> {
    if |req.ticketNumbers| > 0 then AvailableByNumber(db, req.lotteryId, req.ticketNumbers) else picked
  }

  /** `newId` is the generated row id and `picked` what `ORDER BY RANDOM() LIMIT quantity` returned. */
  function ReserveTickets(db: Db, req: ReserveRequest, now: int, newId: Id, picked: set<Id>): Reply {
    if Replays(db.reservationKeys, req.idempotencyKey) then Reply(db, Ok(db.reservationKeys[req.idempotencyKey.value]))
    else if req.lotteryId !in db.lotteries || db.lotteries[req.lotteryId].deleted then Reply(db, Err(NotFound))
    else if db.lotteries[req.lotteryId].status != Published && db.lotteries[req.lotteryId].status != Selling
    then Reply(db, Err(BadRequest))
    else if db.lotteries[req.lotteryId].saleEndDate < now then Reply(db, Err(BadRequest))
    else
      var manual := |req.ticketNumbers| > 0;
      var chosen := ChosenTickets(db, req, picked);
      if manual && |chosen| != |req.ticketNumbers| then Reply(db, Err(Conflict))
      else if !manual && |chosen| < req.quantity then Reply(db, Err(Conflict))
      else if KeyTaken(db.reservationKeys, req.idempotencyKey) then Reply(db, Err(UniqueViolation))
      else Reply(StartSelling(ApplyReservation(db, req, newId, now + RESERVATION_TIMEOUT_MS, chosen), req.lotteryId),
                 Ok(newId))
  }

  function CancelReservation(db: Db, id: Id): Db {
    if id !in db.reservations || db.reservations[id].cancelled || db.reservations[id].confirmed then db
    else db.(
      tickets := map t | t in db.tickets ::
        if db.tickets[t].reservationId == Some(id)
        then db.tickets[t].(status := Available, reservationId := None) else db.tickets[t],
      reservations := db.reservations[id := db.reservations[id].(cancelled := true)])
  }

  function ExpireReservation(db: Db, id: Id, now: int): Db {
    if id !in db.reservations || db.reservations[id].confirmed || db.reservations[id].cancelled then db
    else if db.reservations[id].expiresAt > now then db
    else CancelReservation(db, id)
  }

  function ConfirmReservation(db: Db, id: Id, paymentId: Id, now: int): Reply {
    if id !in db.reservations then Reply(db, Err(NotFound))
    else if db.reservations[id].cancelled then Reply(db, Err(BadRequest))
    else if db.reservations[id].expiresAt < now then Reply(CancelReservation(db, id), Err(BadRequest))
    else Reply(ApplyConfirmation(db, id, paymentId), Ok(paymentId))
  }

  function ApplyConfirmation(db: Db, id: Id, paymentId: Id): Db
    requires id in db.reservations
  {
    db.(
      tickets := map t | t in db.tickets ::
        if db.tickets[t].reservationId == Some(id)
        then db.tickets[t].(status := PendingPayment, paymentId := Some(paymentId)) else db.tickets[t],
      reservations := db.reservations[id := db.reservations[id].(confirmed := true)])
  }

  // ---- Payments ----

  datatype PaymentRequest = PaymentRequest(lotteryId: Id, reservationId: Id, idempotencyKey: Option<string>)

  function CreatePayment(db: Db, id: Id, payment: Payment): Db {
    db.(payments := db.payments[id := payment], paymentKeys := AddKey(db.paymentKeys, payment.idempotencyKey, id))
  }

  /** The price of a ticket times the stated quantity. */
  function AmountDue(db: Db, reservationId: Id): nat
    requires reservationId in db.reservations && db.reservations[reservationId].lotteryId in db.lotteries
  {
    db.lotteries[db.reservations[reservationId].lotteryId].ticketPrice * db.reservations[reservationId].quantity
  }

  /** The payment row stays when confirming the reservation then fails. `buyerId` is the buyer found or created. */
  function InitiatePayment(db: Db, req: PaymentRequest, buyerId: Id, newId: Id, now: int): Reply {
    if Replays(db.paymentKeys, req.idempotencyKey) then Reply(db, Ok(db.paymentKeys[req.idempotencyKey.value]))
    else if req.reservationId !in db.reservations then Reply(db, Err(NotFound))
    else if db.reservations[req.reservationId].cancelled then Reply(db, Err(BadRequest))
    else if db.reservations[req.reservationId].lotteryId !in db.lotteries then Reply(db, Err(Fault))
    else
      var amount := AmountDue(db, req.reservationId);
      if req.lotteryId !in db.lotteries then Reply(db, Err(ForeignKeyViolation))
      else if KeyTaken(db.paymentKeys, req.idempotencyKey) then Reply(db, Err(UniqueViolation))
      else
        var created := CreatePayment(db, newId, Payment(req.lotteryId, buyerId, amount, Initiated, req.idempotencyKey));
        ConfirmReservation(created, req.reservationId, newId, now)
  }

  function SetPaymentStatus(db: Db, id: Id, status: PaymentStatus): Db {
    if id !in db.payments then db else db.(payments := db.payments[id := db.payments[id].(status := status)])
  }

  function AddSold(db: Db, lotteryId: Id, count: int): Db {
    if lotteryId !in db.lotteries then db
    else
      var lottery := db.lotteries[lotteryId];
      db.(lotteries := db.lotteries[lotteryId := lottery.(ticketsSold := lottery.ticketsSold + count)])
  }

  function FinalizeTickets(db: Db, paymentId: Id): Db {
    if paymentId !in db.payments then db
    else
      var payment := db.payments[paymentId];
      var sold := db.(tickets := map t | t in db.tickets ::
        if db.tickets[t].paymentId == Some(paymentId)
        then db.tickets[t].(status := Sold, buyerId := Some(payment.buyerId)) else db.tickets[t]);
      AddSold(sold, payment.lotteryId, |PaidBy(db, paymentId)|)
  }

  function ApprovePayment(db: Db, id: Id): Reply {
    if id !in db.payments then Reply(db, Err(NotFound))
    else if db.payments[id].status !in {Initiated, Submitted, UnderReview, Rejected} then Reply(db, Err(BadRequest))
    else Reply(FinalizeTickets(SetPaymentStatus(db, id, Approved), id), Ok(id))
  }

  function ReleasePaid(db: Db, paymentId: Id): Db {
    db.(tickets := map t | t in db.tickets ::
      if db.tickets[t].paymentId == Some(paymentId)
        && (db.tickets[t].status == PendingPayment || db.tickets[t].status == Sold)
      then db.tickets[t].(status := Available, paymentId := None, reservationId := None, buyerId := None)
      else db.tickets[t])
  }

  function RejectPayment(db: Db, id: Id): Reply {
    if id !in db.payments then Reply(db, Err(NotFound))
    else if db.payments[id].status !in {Initiated, Submitted, UnderReview, Approved} then Reply(db, Err(BadRequest))
    else Reply(ReleasePaid(SetPaymentStatus(db, id, Rejected), id), Ok(id))
  }

  // ---- One row of a bulk import ----

  /** Where an unexpected exception strikes, if at all. */
  datatype FaultPoint = NoFault | BeforePayment | AfterPayment | AfterCommit

  /** `amountPaid` is the spreadsheet's own amount; the JSON import has none. The quantity is not validated. */
  datatype ImportRequest = ImportRequest(lotteryId: Id, quantity: int, amountPaid: Option<int>, buyerId: Id)

  datatype RowStatus = RowApproved | RowUnderReview | RowError

  datatype RowResult = RowResult(status: RowStatus, amount: int, gained: set<Id>)

  datatype ImportReply = ImportReply(db: Db, row: RowResult)

  function Magnitude(q: int): nat {
    if q < 0 then -q else q
  }

  function SellDirectly(db: Db, chosen: set<Id>, paymentId: Id, buyerId: Id): Db {
    db.(tickets := map t | t in db.tickets ::
      if t in chosen then db.tickets[t].(status := Sold, paymentId := Some(paymentId), buyerId := Some(buyerId))
      else db.tickets[t])
  }

  /** The import looks lotteries up among those not deleted. */
  predicate KnownLottery(db: Db, lotteryId: Id) {
    lotteryId in db.lotteries && !db.lotteries[lotteryId].deleted
  }

  function ImportAmount(db: Db, req: ImportRequest): int
    requires req.lotteryId in db.lotteries
  {
    if req.amountPaid.Some? then req.amountPaid.value else db.lotteries[req.lotteryId].ticketPrice * req.quantity
  }

  /** `picked` is what the query for available tickets returned; `take: q` with negative q takes from the other end. */
  function ImportRow(db: Db, req: ImportRequest, newId: Id, picked: set<Id>, fault: FaultPoint): ImportReply {
    if !KnownLottery(db, req.lotteryId) then ImportReply(db, RowResult(RowError, 0, {}))
    else
      var amount := ImportAmount(db, req);
      var failed := RowResult(RowError, amount, {});
      var paid := CreatePayment(db, newId, Payment(req.lotteryId, req.buyerId, amount, Approved, None));
      if fault == BeforePayment then ImportReply(db, failed)
      else if fault == AfterPayment then ImportReply(paid, failed)
      else if |picked| < req.quantity then
        ImportReply(SetPaymentStatus(paid, newId, UnderReview), RowResult(RowUnderReview, amount, {}))
      else
        var sold := AddSold(SellDirectly(paid, picked, newId, req.buyerId), req.lotteryId, req.quantity);
        if fault == AfterCommit then ImportReply(sold, failed)
        else ImportReply(sold, RowResult(RowApproved, amount, picked))
  }

  /** The row's transaction went through, whatever was reported afterwards. */
  predicate Committed(db: Db, req: ImportRequest, picked: set<Id>, fault: FaultPoint) {
    KnownLottery(db, req.lotteryId) && (fault == NoFault || fault == AfterCommit) && |picked| >= req.quantity
  }

  // ---- Steps of a run ----

  datatype Op =
    | CreateLottery(lotteryId: Id, ticketPrice: nat, saleEndDate: int, numbers: map<Id, string>)
    | EditLottery(lotteryId: Id, newStatus: Status, deleted: bool, newSaleEndDate: int, newTicketPrice: nat)
    | Reserve(reserveRequest: ReserveRequest, now: int, newId: Id, picked: set<Id>)
    | Cancel(reservationId: Id)
    | Expire(reservationId: Id, now: int)
    | Initiate(paymentRequest: PaymentRequest, buyerId: Id, newId: Id, now: int)
    | Approve(paymentId: Id)
    | Reject(paymentId: Id)
    | WriteStatus(paymentId: Id, status: PaymentStatus)
    | AutoApprove(paymentId: Id)
    | Import(importRequest: ImportRequest, newId: Id, picked: set<Id>, fault: FaultPoint)

  /**
   The choices the database makes are possible ones: generated ids are new, and a query for
   available tickets returns available tickets of the lottery, as many as asked for or all.
   */
  predicate Possible(db: Db, op: Op) {
    match op
    case CreateLottery(lotteryId, _, _, numbers) => lotteryId !in db.lotteries && numbers.Keys !! db.tickets.Keys
    case Reserve(req, _, newId, picked) =>
      && newId !in db.reservations
      && picked <= AvailableIn(db, req.lotteryId)
      && |picked| == Min(req.quantity, |AvailableIn(db, req.lotteryId)|)
    case Initiate(_, _, newId, _) => newId !in db.payments
    case Import(req, newId, picked, _) =>
      && newId !in db.payments
      && picked <= AvailableIn(db, req.lotteryId)
      && |picked| == Min(Magnitude(req.quantity), |AvailableIn(db, req.lotteryId)|)
    case _ => true
  }

  function AddLottery(db: Db, lotteryId: Id, ticketPrice: nat, saleEndDate: int, numbers: map<Id, string>): Db {
    db.(
      lotteries := db.lotteries[lotteryId := Lottery(Draft, false, saleEndDate, ticketPrice, 0)],
      tickets := db.tickets + map t | t in numbers :: Ticket(lotteryId, numbers[t], Available, None, None, None))
  }

  /** Any other write to a lottery row, by publishing, closing, drawing or editing. */
  function RewriteLottery(db: Db, lotteryId: Id, status: Status, deleted: bool, saleEndDate: int, ticketPrice: nat): Db
  {
    if lotteryId !in db.lotteries then db
    else
      var sold := db.lotteries[lotteryId].ticketsSold;
      db.(lotteries := db.lotteries[lotteryId := Lottery(status, deleted, saleEndDate, ticketPrice, sold)])
  }

  function Step(db: Db, op: Op): Db
    requires Possible(db, op)
  {
    match op
    case CreateLottery(lotteryId, ticketPrice, saleEndDate, numbers) =>
      AddLottery(db, lotteryId, ticketPrice, saleEndDate, numbers)
    case EditLottery(lotteryId, status, deleted, saleEndDate, ticketPrice) =>
      RewriteLottery(db, lotteryId, status, deleted, saleEndDate, ticketPrice)
    case Reserve(req, now, newId, picked) => ReserveTickets(db, req, now, newId, picked).db
    case Cancel(id) => CancelReservation(db, id)
    case Expire(id, now) => ExpireReservation(db, id, now)
    case Initiate(req, buyerId, newId, now) => InitiatePayment(db, req, buyerId, newId, now).db
    case Approve(id) => ApprovePayment(db, id).db
    case Reject(id) => RejectPayment(db, id).db
    case WriteStatus(id, status) => SetPaymentStatus(db, id, status)
    case AutoApprove(id) => FinalizeTickets(SetPaymentStatus(db, id, Approved), id)
    case Import(req, newId, picked, fault) => ImportRow(db, req, newId, picked, fault).db
  }

  const EMPTY: Db := Db(map[], map[], map[], map[], map[], map[])

  predicate PossibleRun(db: Db, ops: seq<Op>)
    decreases |ops|
  {
    ops == [] || (Possible(db, ops[0]) && PossibleRun(Step(db, ops[0]), ops[1..]))
  }

  function Run(db: Db, ops: seq<Op>): Db
    requires PossibleRun(db, ops)
    decreases |ops|
  {
    if ops == [] then db else Run(Step(db, ops[0]), ops[1..])
  }
}
