/**
 Random ticket selection as genuinely interleaved transactions: a request first reads the key index
 and the lottery, then its query locks available rows with FOR UPDATE SKIP LOCKED, and later it
 commits or aborts, while other requests do the same and other services cancel, pay for, approve and
 reject what was reserved before.
 */
module SkipLocked {
  import opened Wrappers
  import opened LotteryStatus
  import opened Sales
  import opened SalesInvariant
  import opened SalesRequests
  import opened Sets

  /** `chosen` is None until the query has run, and then the rows it locked. */
  datatype Tx = Tx(req: ReserveRequest, newId: Id, now: int, sawPublished: bool, chosen: Option<set<Id>>)

  datatype Sys = Sys(db: Db, inFlight: map<Id, Tx>)

  function LockedBy(tx: Tx): set<Id> {
    if tx.chosen.Some? then tx.chosen.value else {}
  }

  function LockedRows(sys: Sys): set<Id> {
    set x, t | x in sys.inFlight && t in LockedBy(sys.inFlight[x]) :: t
  }

  datatype Event =
    | Begin(tx: Id, req: ReserveRequest, newId: Id, now: int)
    | Lock(tx: Id, chosen: set<Id>)
    | Commit(tx: Id)
    | Abort(tx: Id)
    | Other(op: Op)

  /** The reads before the transaction, with the same guards as the atomic call. */
  predicate MayBegin(sys: Sys, tx: Id, req: ReserveRequest, newId: Id, now: int) {
    && tx !in sys.inFlight
    && req.ticketNumbers == []
    && !Replays(sys.db.reservationKeys, req.idempotencyKey)
    && OpenForSale(sys.db, req.lotteryId, now)
    && newId !in sys.db.reservations
    && forall x :: x in sys.inFlight ==> sys.inFlight[x].newId != newId
  }

  predicate OpenForSale(db: Db, lotteryId: Id, now: int) {
    && lotteryId in db.lotteries
    && !db.lotteries[lotteryId].deleted
    && (db.lotteries[lotteryId].status == Published || db.lotteries[lotteryId].status == Selling)
    && db.lotteries[lotteryId].saleEndDate >= now
  }

  /** SKIP LOCKED: only available rows that nobody has locked, at most `quantity` of them. */
  predicate MayLock(sys: Sys, tx: Id, chosen: set<Id>) {
    && tx in sys.inFlight && sys.inFlight[tx].chosen.None?
    && chosen <= AvailableIn(sys.db, sys.inFlight[tx].req.lotteryId) - LockedRows(sys)
    && |chosen| <= sys.inFlight[tx].req.quantity
  }

  /** A transaction that got too few rows, or whose key was taken meanwhile, can only abort. */
  predicate MayCommit(sys: Sys, tx: Id) {
    && tx in sys.inFlight && sys.inFlight[tx].chosen.Some?
    && |sys.inFlight[tx].chosen.value| >= sys.inFlight[tx].req.quantity
    && !KeyTaken(sys.db.reservationKeys, sys.inFlight[tx].req.idempotencyKey)
  }

  /** The calls that run, each at once, beside the reservations: they work on new, reserved or paid tickets. */
  predicate OtherService(op: Op) {
    op.CreateLottery? || op.Cancel? || op.Expire? || op.Initiate? || op.Approve? || op.AutoApprove? || op.Reject?
      || op.WriteStatus?
  }

  /** Closing, drawing, publishing or otherwise editing a lottery. */
  predicate EditsLottery(e: Event) {
    e.Other? && e.op.EditLottery?
  }

  predicate Enabled(sys: Sys, e: Event) {
    match e
    case Begin(tx, req, newId, now) => MayBegin(sys, tx, req, newId, now)
    case Lock(tx, chosen) => MayLock(sys, tx, chosen)
    case Commit(tx) => MayCommit(sys, tx)
    case Abort(tx) => tx in sys.inFlight
    case Other(op) => (OtherService(op) || op.EditLottery?) && Possible(sys.db, op)
  }

  /** The commit writes SELLING when PUBLISHED was read at the beginning, whatever the status is by now. */
  function WriteSelling(db: Db, lotteryId: Id, sawPublished: bool): Db {
    if sawPublished && lotteryId in db.lotteries
    then db.(lotteries := db.lotteries[lotteryId := db.lotteries[lotteryId].(status := Selling)])
    else db
  }

  function CommitTo(db: Db, tx: Tx): Db
    requires tx.chosen.Some?
  {
    WriteSelling(ApplyReservation(db, tx.req, tx.newId, tx.now + RESERVATION_TIMEOUT_MS, tx.chosen.value),
                 tx.req.lotteryId, tx.sawPublished)
  }

  function Next(sys: Sys, e: Event): Sys
    requires Enabled(sys, e)
  {
    match e
    case Begin(tx, req, newId, now) =>
      var published := sys.db.lotteries[req.lotteryId].status == Published;
      sys.(inFlight := sys.inFlight[tx := Tx(req, newId, now, published, None)])
    case Lock(tx, chosen) => sys.(inFlight := sys.inFlight[tx := sys.inFlight[tx].(chosen := Some(chosen))])
    case Commit(tx) => Sys(CommitTo(sys.db, sys.inFlight[tx]), sys.inFlight - {tx})
    case Abort(tx) => sys.(inFlight := sys.inFlight - {tx})
    case Other(op) => sys.(db := Step(sys.db, op))
  }

  // ---- Invariants ----

  /** What an open transaction can rely on for its tickets, whatever happens to the lottery. */
  ghost predicate TxHolds(db: Db, tx: Tx) {
    && tx.req.lotteryId in db.lotteries
    && tx.req.ticketNumbers == []
    && tx.newId !in db.reservations
    && LockedBy(tx) <= AvailableIn(db, tx.req.lotteryId)
    && |LockedBy(tx)| <= tx.req.quantity
  }

  ghost predicate Disjoint(inFlight: map<Id, Tx>) {
    forall x, y :: x in inFlight && y in inFlight && x != y ==>
      LockedBy(inFlight[x]) !! LockedBy(inFlight[y]) && inFlight[x].newId != inFlight[y].newId
  }

  /** The invariant of every run. */
  ghost predicate Safe(sys: Sys) {
    && Consistent(sys.db)
    && OpenHoldsQuantity(sys.db)
    && (forall x :: x in sys.inFlight ==> TxHolds(sys.db, sys.inFlight[x]))
    && Disjoint(sys.inFlight)
  }

  /** While nobody edits the lottery, the guards passed at the beginning still hold at the commit. */
  ghost predicate StillOpen(db: Db, tx: Tx) {
    && OpenForSale(db, tx.req.lotteryId, tx.now)
    && (!tx.sawPublished ==> db.lotteries[tx.req.lotteryId].status == Selling)
  }

  /** The invariant of runs without lottery edits. */
  ghost predicate Sound(sys: Sys) {
    Safe(sys) && forall x :: x in sys.inFlight ==> StillOpen(sys.db, sys.inFlight[x])
  }

  lemma BeginIsSafe(sys: Sys, tx: Id, req: ReserveRequest, newId: Id, now: int)
    requires Safe(sys) && MayBegin(sys, tx, req, newId, now)
    ensures Safe(Next(sys, Begin(tx, req, newId, now)))
  {
    hide Consistent, OpenHoldsQuantity;
  }

  lemma LockIsSafe(sys: Sys, tx: Id, chosen: set<Id>)
    requires Safe(sys) && MayLock(sys, tx, chosen)
    ensures Safe(Next(sys, Lock(tx, chosen)))
  {
    hide Consistent, OpenHoldsQuantity;
    forall x | x in sys.inFlight && x != tx
      ensures LockedBy(sys.inFlight[x]) !! chosen
    {
      forall t | t in LockedBy(sys.inFlight[x])
        ensures t !in chosen
      {
        assert t in LockedRows(sys);
      }
    }
  }

  /** Committing leaves the rows other transactions have locked available. */
  lemma CommitLeavesOthersHolding(db: Db, tx: Tx, other: Tx)
    requires Consistent(db) && tx.chosen.Some? && TxHolds(db, tx) && TxHolds(db, other)
    requires LockedBy(tx) !! LockedBy(other) && tx.newId != other.newId
    ensures TxHolds(CommitTo(db, tx), other)
  {
    var next := CommitTo(db, tx);
    forall t | t in LockedBy(other)
      ensures t in AvailableIn(next, other.req.lotteryId)
    {
      assert t in AvailableIn(db, other.req.lotteryId) && t !in tx.chosen.value;
    }
  }

  /** And it opens, rather than closes, their sale. */
  lemma CommitLeavesOthersOpen(db: Db, tx: Tx, other: Tx)
    requires tx.chosen.Some? && StillOpen(db, tx) && StillOpen(db, other)
    ensures StillOpen(CommitTo(db, tx), other)
  {
  }

  /** At its commit a transaction does what an atomic reservation with the same picks would do there and then. */
  lemma CommitIsAtomicReserve(db: Db, tx: Tx)
    requires TxHolds(db, tx) && StillOpen(db, tx) && tx.chosen.Some?
    requires |tx.chosen.value| >= tx.req.quantity && !KeyTaken(db.reservationKeys, tx.req.idempotencyKey)
    ensures Possible(db, Reserve(tx.req, tx.now, tx.newId, tx.chosen.value))
    ensures ReserveTickets(db, tx.req, tx.now, tx.newId, tx.chosen.value) == Reply(CommitTo(db, tx), Ok(tx.newId))
  {
    SubsetSize(tx.chosen.value, AvailableIn(db, tx.req.lotteryId));
    assert |tx.chosen.value| == tx.req.quantity;
    var applied := ApplyReservation(db, tx.req, tx.newId, tx.now + RESERVATION_TIMEOUT_MS, tx.chosen.value);
    SellingEitherWay(applied, tx.req.lotteryId, tx.sawPublished);
  }

  lemma SellingEitherWay(db: Db, lotteryId: Id, sawPublished: bool)
    requires lotteryId in db.lotteries
    requires db.lotteries[lotteryId].status == Published || db.lotteries[lotteryId].status == Selling
    requires !sawPublished ==> db.lotteries[lotteryId].status == Selling
    ensures WriteSelling(db, lotteryId, sawPublished) == StartSelling(db, lotteryId)
  {
    var row := db.lotteries[lotteryId];
    if row.status == Selling {
      assert row.(status := Selling) == row;
      assert db.lotteries[lotteryId := row] == db.lotteries;
    }
  }

  lemma SellingKeepsTables(db: Db, lotteryId: Id, sawPublished: bool)
    requires Consistent(db) && OpenHoldsQuantity(db)
    ensures Consistent(WriteSelling(db, lotteryId, sawPublished))
      && OpenHoldsQuantity(WriteSelling(db, lotteryId, sawPublished))
  {
    var next := WriteSelling(db, lotteryId, sawPublished);
    if lotteryId in db.lotteries {
      var row := db.lotteries[lotteryId];
      RewriteLotteryKeeps(db, lotteryId, Selling, row.deleted, row.saleEndDate, row.ticketPrice);
    }
    hide Consistent;
    assert forall r :: HeldBy(next, r) == HeldBy(db, r);
  }

  lemma ReservingKeepsHolds(db: Db, tx: Tx)
    requires Consistent(db) && OpenHoldsQuantity(db) && TxHolds(db, tx) && tx.chosen.Some?
    requires |tx.chosen.value| >= tx.req.quantity
    ensures OpenHoldsQuantity(ApplyReservation(db, tx.req, tx.newId, tx.now + RESERVATION_TIMEOUT_MS, tx.chosen.value))
  {
    ApplyReservationHolds(db, tx.req, tx.newId, tx.now + RESERVATION_TIMEOUT_MS, tx.chosen.value);
    hide Consistent, HeldBy;
  }

  lemma CommitKeepsTables(db: Db, tx: Tx)
    requires Consistent(db) && OpenHoldsQuantity(db) && TxHolds(db, tx) && tx.chosen.Some?
    requires |tx.chosen.value| >= tx.req.quantity && !KeyTaken(db.reservationKeys, tx.req.idempotencyKey)
    ensures Consistent(CommitTo(db, tx)) && OpenHoldsQuantity(CommitTo(db, tx))
  {
    hide Consistent, OpenHoldsQuantity, ApplyReservation, WriteSelling;
    var expiresAt := tx.now + RESERVATION_TIMEOUT_MS;
    ApplyReservationKeeps(db, tx.req, tx.newId, expiresAt, tx.chosen.value);
    ReservingKeepsHolds(db, tx);
    SellingKeepsTables(ApplyReservation(db, tx.req, tx.newId, expiresAt, tx.chosen.value), tx.req.lotteryId,
                       tx.sawPublished);
  }

  lemma CommitIsSafe(sys: Sys, tx: Id)
    requires Safe(sys) && MayCommit(sys, tx)
    ensures Safe(Next(sys, Commit(tx)))
  {
    hide Consistent, OpenHoldsQuantity, TxHolds, CommitTo;
    var t := sys.inFlight[tx];
    CommitKeepsTables(sys.db, t);
    forall x | x in sys.inFlight && x != tx
      ensures TxHolds(CommitTo(sys.db, t), sys.inFlight[x])
    {
      CommitLeavesOthersHolding(sys.db, t, sys.inFlight[x]);
    }
  }

  predicate SameSale(a: Lottery, b: Lottery) {
    a.status == b.status && a.deleted == b.deleted && a.saleEndDate == b.saleEndDate
  }

  /** Available tickets are as before. */
  ghost predicate LeavesTickets(db: Db, next: Db) {
    && next.reservations.Keys == db.reservations.Keys
    && (forall t :: t in db.tickets && db.tickets[t].status == Available ==>
        t in next.tickets && next.tickets[t] == db.tickets[t])
    && (forall l :: l in db.lotteries ==> l in next.lotteries)
  }

  /** And so is what a reservation checks of the lottery. */
  ghost predicate LeavesAvailable(db: Db, next: Db) {
    LeavesTickets(db, next)
    && forall l :: l in db.lotteries ==> l in next.lotteries && SameSale(db.lotteries[l], next.lotteries[l])
  }

  /** Only payment rows differ. */
  predicate SamePlaces(db: Db, next: Db) {
    next.tickets == db.tickets && next.reservations == db.reservations && next.lotteries == db.lotteries
  }

  lemma AfterPaymentWrite(db: Db, written: Db, next: Db)
    requires SamePlaces(db, written) && LeavesAvailable(written, next)
    ensures LeavesAvailable(db, next)
  {
  }

  lemma CancelLeavesAvailable(db: Db, id: Id)
    requires Consistent(db)
    ensures LeavesAvailable(db, CancelReservation(db, id))
  {
  }

  lemma ConfirmLeavesAvailable(db: Db, id: Id, paymentId: Id, now: int)
    requires Consistent(db)
    ensures LeavesAvailable(db, ConfirmReservation(db, id, paymentId, now).db)
  {
    CancelLeavesAvailable(db, id);
  }

  lemma InitiateLeavesAvailable(db: Db, req: PaymentRequest, buyerId: Id, newId: Id, now: int)
    requires Consistent(db) && newId !in db.payments
    ensures LeavesAvailable(db, InitiatePayment(db, req, buyerId, newId, now).db)
  {
    var next := InitiatePayment(db, req, buyerId, newId, now).db;
    if next != db {
      var amount := AmountDue(db, req.reservationId);
      var payment := Payment(req.lotteryId, buyerId, amount, Initiated, req.idempotencyKey);
      CreatePaymentKeeps(db, newId, payment);
      var created := CreatePayment(db, newId, payment);
      assert next == ConfirmReservation(created, req.reservationId, newId, now).db;
      assert SamePlaces(db, created);
      hide Consistent, ConfirmReservation, InitiatePayment, LeavesAvailable, CreatePayment, SamePlaces;
      ConfirmLeavesAvailable(created, req.reservationId, newId, now);
      AfterPaymentWrite(db, created, next);
    }
  }

  lemma FinalizeLeavesAvailable(db: Db, paymentId: Id)
    requires Consistent(db)
    ensures LeavesAvailable(db, FinalizeTickets(db, paymentId))
  {
  }

  lemma ApprovalLeavesAvailable(db: Db, id: Id)
    requires Consistent(db)
    ensures LeavesAvailable(db, FinalizeTickets(SetPaymentStatus(db, id, Approved), id))
  {
    var written := SetPaymentStatus(db, id, Approved);
    SetPaymentStatusKeeps(db, id, Approved);
    assert SamePlaces(db, written);
    hide Consistent, FinalizeTickets, LeavesAvailable, SetPaymentStatus, SamePlaces;
    FinalizeLeavesAvailable(written, id);
    AfterPaymentWrite(db, written, FinalizeTickets(written, id));
  }

  lemma RejectLeavesAvailable(db: Db, id: Id)
    requires Consistent(db)
    ensures LeavesAvailable(db, RejectPayment(db, id).db)
  {
  }

  lemma AddingLeavesAvailable(db: Db, lotteryId: Id, ticketPrice: nat, saleEndDate: int, numbers: map<Id, string>)
    requires lotteryId !in db.lotteries && numbers.Keys !! db.tickets.Keys
    ensures LeavesAvailable(db, AddLottery(db, lotteryId, ticketPrice, saleEndDate, numbers))
  {
  }

  lemma OtherServicesLeaveAvailable(db: Db, op: Op)
    requires Consistent(db) && OtherService(op) && Possible(db, op)
    ensures LeavesAvailable(db, Step(db, op))
  {
    hide FinalizeTickets, Consistent, InitiatePayment, CancelReservation, ReleasePaid, AddLottery;
    match op
    case CreateLottery(lotteryId, ticketPrice, saleEndDate, numbers) =>
      AddingLeavesAvailable(db, lotteryId, ticketPrice, saleEndDate, numbers);
    case Cancel(id) => CancelLeavesAvailable(db, id);
    case Expire(id, _) => CancelLeavesAvailable(db, id);
    case Initiate(req, buyerId, newId, now) => InitiateLeavesAvailable(db, req, buyerId, newId, now);
    case Approve(id) => ApprovalLeavesAvailable(db, id);
    case AutoApprove(id) => ApprovalLeavesAvailable(db, id);
    case Reject(id) => RejectLeavesAvailable(db, id);
    case WriteStatus(_, _) =>
  }

  lemma EditLeavesTickets(db: Db, op: Op)
    requires op.EditLottery?
    ensures LeavesTickets(db, Step(db, op))
  {
  }

  lemma StaysHolding(db: Db, next: Db, tx: Tx)
    requires TxHolds(db, tx) && LeavesTickets(db, next)
    ensures TxHolds(next, tx)
  {
    forall t | t in LockedBy(tx)
      ensures t in AvailableIn(next, tx.req.lotteryId)
    {
      assert t in AvailableIn(db, tx.req.lotteryId);
    }
  }

  lemma OtherIsSafe(sys: Sys, op: Op)
    requires Safe(sys) && (OtherService(op) || op.EditLottery?) && Possible(sys.db, op)
    ensures Safe(Next(sys, Other(op)))
  {
    hide Consistent, OpenHoldsQuantity, Step, Possible, TxHolds, LeavesTickets;
    StepKeepsConsistent(sys.db, op);
    StepKeepsOpenHoldsQuantity(sys.db, op);
    if op.EditLottery? {
      EditLeavesTickets(sys.db, op);
    } else {
      OtherServicesLeaveAvailable(sys.db, op);
    }
    forall x | x in sys.inFlight
      ensures TxHolds(Step(sys.db, op), sys.inFlight[x])
    {
      StaysHolding(sys.db, Step(sys.db, op), sys.inFlight[x]);
    }
  }

  /** Every event of any run keeps the tickets safe. */
  lemma NextIsSafe(sys: Sys, e: Event)
    requires Safe(sys) && Enabled(sys, e)
    ensures Safe(Next(sys, e))
  {
    hide Consistent, OpenHoldsQuantity, TxHolds, MayBegin, MayLock, MayCommit, Possible;
    match e
    case Begin(tx, req, newId, now) => BeginIsSafe(sys, tx, req, newId, now);
    case Lock(tx, chosen) => LockIsSafe(sys, tx, chosen);
    case Commit(tx) => CommitIsSafe(sys, tx);
    case Abort(tx) =>
    case Other(op) => OtherIsSafe(sys, op);
  }

  lemma CommitStaysOpen(sys: Sys, tx: Id)
    requires Sound(sys) && MayCommit(sys, tx)
    ensures forall x :: x in sys.inFlight && x != tx ==> StillOpen(CommitTo(sys.db, sys.inFlight[tx]), sys.inFlight[x])
  {
    hide Safe, StillOpen, CommitTo;
    forall x | x in sys.inFlight && x != tx
      ensures StillOpen(CommitTo(sys.db, sys.inFlight[tx]), sys.inFlight[x])
    {
      CommitLeavesOthersOpen(sys.db, sys.inFlight[tx], sys.inFlight[x]);
    }
  }

  lemma StaysOpen(db: Db, next: Db, tx: Tx)
    requires StillOpen(db, tx) && LeavesAvailable(db, next)
    ensures StillOpen(next, tx)
  {
  }

  lemma OtherStaysOpen(sys: Sys, op: Op)
    requires Sound(sys) && OtherService(op) && Possible(sys.db, op)
    ensures forall x :: x in sys.inFlight ==> StillOpen(Step(sys.db, op), sys.inFlight[x])
  {
    hide Consistent, OpenHoldsQuantity, Step, Possible, StillOpen, LeavesAvailable;
    OtherServicesLeaveAvailable(sys.db, op);
    forall x | x in sys.inFlight
      ensures StillOpen(Step(sys.db, op), sys.inFlight[x])
    {
      StaysOpen(sys.db, Step(sys.db, op), sys.inFlight[x]);
    }
  }

  /** Without lottery edits, every event also keeps the guards of the open transactions true. */
  lemma NextIsSound(sys: Sys, e: Event)
    requires Sound(sys) && Enabled(sys, e) && !EditsLottery(e)
    ensures Sound(Next(sys, e))
  {
    hide Safe, MayLock, MayCommit, Possible, CommitTo;
    NextIsSafe(sys, e);
    match e
    case Begin(tx, req, newId, now) =>
    case Lock(tx, chosen) =>
      LockChangesNoGuard(sys, tx, chosen);
    case Commit(tx) => CommitStaysOpen(sys, tx);
    case Abort(tx) =>
    case Other(op) => OtherStaysOpen(sys, op);
  }

  lemma LockChangesNoGuard(sys: Sys, tx: Id, chosen: set<Id>)
    requires MayLock(sys, tx, chosen)
    ensures var next := Next(sys, Lock(tx, chosen));
      && next.db == sys.db && next.inFlight.Keys == sys.inFlight.Keys
      && forall x :: x in sys.inFlight ==> next.inFlight[x].(chosen := None) == sys.inFlight[x].(chosen := None)
  {
  }

  // ---- Runs and their atomic counterpart ----

  predicate EnabledRun(sys: Sys, events: seq<Event>)
    decreases |events|
  {
    events == [] || (Enabled(sys, events[0]) && EnabledRun(Next(sys, events[0]), events[1..]))
  }

  function RunAll(sys: Sys, events: seq<Event>): Sys
    requires EnabledRun(sys, events)
    decreases |events|
  {
    if events == [] then sys else RunAll(Next(sys, events[0]), events[1..])
  }

  /** The atomic calls an event stands for: a commit is one whole reservation, beginning and locking are nothing. */
  function AtomicOps(sys: Sys, e: Event): seq<Op>
    requires Enabled(sys, e)
  {
    match e
    case Commit(tx) =>
      var t := sys.inFlight[tx];
      [Reserve(t.req, t.now, t.newId, t.chosen.value)]
    case Other(op) => [op]
    case _ => []
  }

  function AllAtomicOps(sys: Sys, events: seq<Event>): seq<Op>
    requires EnabledRun(sys, events)
    decreases |events|
  {
    if events == [] then [] else AtomicOps(sys, events[0]) + AllAtomicOps(Next(sys, events[0]), events[1..])
  }

  lemma {:induction false} RunConcat(db: Db, first: seq<Op>, second: seq<Op>)
    requires PossibleRun(db, first) && PossibleRun(Run(db, first), second)
    ensures PossibleRun(db, first + second) && Run(db, first + second) == Run(Run(db, first), second)
    decreases |first|
  {
    hide Step, Possible;
    if first == [] {
      assert first + second == second;
    } else {
      var next := Step(db, first[0]);
      assert Run(db, first) == Run(next, first[1..]);
      RunConcat(next, first[1..], second);
      assert (first + second)[0] == first[0] && (first + second)[1..] == first[1..] + second;
    }
  }

  lemma EventRefines(sys: Sys, e: Event)
    requires Sound(sys) && Enabled(sys, e) && !EditsLottery(e)
    ensures PossibleRun(sys.db, AtomicOps(sys, e)) && Run(sys.db, AtomicOps(sys, e)) == Next(sys, e).db
  {
    match e
    case Commit(tx) =>
      CommitIsAtomicReserve(sys.db, sys.inFlight[tx]);
      RunOfOne(sys.db, AtomicOps(sys, e)[0]);
    case Other(op) =>
      RunOfOne(sys.db, op);
    case _ =>
  }

  lemma RunOfOne(db: Db, op: Op)
    requires Possible(db, op)
    ensures PossibleRun(db, [op]) && Run(db, [op]) == Step(db, op)
  {
    assert [op][1..] == [];
    assert PossibleRun(Step(db, op), [op][1..]);
  }

  /**
   Every interleaved run without lottery edits keeps the invariant and ends with the tables of the atomic run that
   performs the committed reservations and the other calls one after the other, in the order of the events.
   */
  lemma {:induction false} InterleavingRefinesAtomicCalls(sys: Sys, events: seq<Event>)
    requires Sound(sys) && EnabledRun(sys, events)
    requires forall e :: e in events ==> !EditsLottery(e)
    ensures Sound(RunAll(sys, events))
    ensures PossibleRun(sys.db, AllAtomicOps(sys, events))
    ensures Run(sys.db, AllAtomicOps(sys, events)) == RunAll(sys, events).db
    decreases |events|
  {
    if events != [] {
      var next := Next(sys, events[0]);
      NextIsSound(sys, events[0]);
      EventRefines(sys, events[0]);
      InterleavingRefinesAtomicCalls(next, events[1..]);
      RunConcat(sys.db, AtomicOps(sys, events[0]), AllAtomicOps(next, events[1..]));
    }
  }

  lemma EventCons(sys: Sys, e: Event, rest: seq<Event>)
    requires Enabled(sys, e) && EnabledRun(Next(sys, e), rest)
    ensures EnabledRun(sys, [e] + rest) && RunAll(sys, [e] + rest) == RunAll(Next(sys, e), rest)
  {
    assert ([e] + rest)[0] == e && ([e] + rest)[1..] == rest;
  }

  /** Nobody else has these rows locked or this id generated. */
  ghost predicate Undisturbed(sys: Sys, tx: Id, newId: Id, chosen: set<Id>) {
    tx !in sys.inFlight && chosen !! LockedRows(sys)
    && forall x :: x in sys.inFlight ==> sys.inFlight[x].newId != newId
  }

  lemma BeginsOpen(sys: Sys, tx: Id, req: ReserveRequest, newId: Id, now: int, picked: set<Id>)
    requires Possible(sys.db, Reserve(req, now, newId, picked)) && Undisturbed(sys, tx, newId, picked)
    requires req.ticketNumbers == [] && !Replays(sys.db.reservationKeys, req.idempotencyKey)
    requires ReserveTickets(sys.db, req, now, newId, picked).result.Ok?
    ensures Enabled(sys, Begin(tx, req, newId, now))
    ensures var l := sys.db.lotteries[req.lotteryId];
      Next(sys, Begin(tx, req, newId, now))
        == Sys(sys.db, sys.inFlight[tx := Tx(req, newId, now, l.status == Published, None)])
    ensures !KeyTaken(sys.db.reservationKeys, req.idempotencyKey)
    ensures picked <= AvailableIn(sys.db, req.lotteryId) && |picked| == req.quantity
  {
  }

  lemma LocksPicked(sys: Sys, begun: Sys, tx: Id, t: Tx, picked: set<Id>)
    requires begun == Sys(sys.db, sys.inFlight[tx := t]) && t.chosen.None? && tx !in sys.inFlight
    requires picked !! LockedRows(sys) && picked <= AvailableIn(sys.db, t.req.lotteryId) && |picked| == t.req.quantity
    ensures Enabled(begun, Lock(tx, picked))
    ensures Next(begun, Lock(tx, picked)) == Sys(sys.db, sys.inFlight[tx := t.(chosen := Some(picked))])
  {
    assert LockedRows(begun) <= LockedRows(sys);
  }

  lemma CommitsLocked(sys: Sys, locked: Sys, tx: Id, t: Tx, picked: set<Id>)
    requires locked == Sys(sys.db, sys.inFlight[tx := t]) && t.chosen == Some(picked) && tx !in sys.inFlight
    requires |picked| == t.req.quantity && !KeyTaken(sys.db.reservationKeys, t.req.idempotencyKey)
    ensures Enabled(locked, Commit(tx)) && Next(locked, Commit(tx)) == Sys(CommitTo(sys.db, t), sys.inFlight)
  {
    assert sys.inFlight[tx := t] - {tx} == sys.inFlight;
  }

  lemma CommitWritesReservation(db: Db, t: Tx, picked: set<Id>)
    requires t.chosen == Some(picked) && t.req.ticketNumbers == [] && !Replays(db.reservationKeys, t.req.idempotencyKey)
    requires ReserveTickets(db, t.req, t.now, t.newId, picked).result.Ok?
    requires t.sawPublished <==> db.lotteries[t.req.lotteryId].status == Published
    ensures CommitTo(db, t) == ReserveTickets(db, t.req, t.now, t.newId, picked).db
  {
    SellingEitherWay(ApplyReservation(db, t.req, t.newId, t.now + RESERVATION_TIMEOUT_MS, picked), t.req.lotteryId,
                     t.sawPublished);
  }

  /**
   The other direction: a successful atomic reservation is also an interleaved run of three events, whatever other
   transactions are open, if they have not locked its rows.
   */
  lemma AtomicCallIsARun(sys: Sys, tx: Id, req: ReserveRequest, newId: Id, now: int, picked: set<Id>)
    requires Possible(sys.db, Reserve(req, now, newId, picked)) && Undisturbed(sys, tx, newId, picked)
    requires req.ticketNumbers == [] && !Replays(sys.db.reservationKeys, req.idempotencyKey)
    requires ReserveTickets(sys.db, req, now, newId, picked).result.Ok?
    ensures var events := [Begin(tx, req, newId, now), Lock(tx, picked), Commit(tx)];
      && EnabledRun(sys, events)
      && RunAll(sys, events) == Sys(ReserveTickets(sys.db, req, now, newId, picked).db, sys.inFlight)
  {
    BeginsOpen(sys, tx, req, newId, now, picked);
    var begin, lock, commit := Begin(tx, req, newId, now), Lock(tx, picked), Commit(tx);
    var begun := Next(sys, begin);
    var t := begun.inFlight[tx];
    LocksPicked(sys, begun, tx, t, picked);
    var locked := Next(begun, lock);
    CommitsLocked(sys, locked, tx, t.(chosen := Some(picked)), picked);
    CommitWritesReservation(sys.db, t.(chosen := Some(picked)), picked);
    hide *;
    EventCons(locked, commit, []);
    EventCons(begun, lock, [commit]);
    EventCons(sys, begin, [lock, commit]);
    EmptyRun(Next(locked, commit));
    assert [begin] + [lock, commit] == [begin, lock, commit] && [lock] + [commit] == [lock, commit];
    assert [commit] + [] == [commit];
  }

  lemma EmptyRun(sys: Sys)
    ensures EnabledRun(sys, []) && RunAll(sys, []) == sys
  {
  }

  // ---- What this means for the tickets ----

  /**
   Disjoint locks, nothing locked that is held, and exact holdings. The last conjunct only spells out that a ticket row
   has one reservation link.
   */
  ghost predicate PromisedOnce(sys: Sys) {
    && (forall x, y :: x in sys.inFlight && y in sys.inFlight && x != y ==>
          LockedBy(sys.inFlight[x]) !! LockedBy(sys.inFlight[y]))
    && (forall x, r :: x in sys.inFlight && r in sys.db.reservations ==> LockedBy(sys.inFlight[x]) !! HeldBy(sys.db, r))
    && (forall r :: r in sys.db.reservations && IsOpen(sys.db.reservations[r]) ==>
          |HeldBy(sys.db, r)| == sys.db.reservations[r].quantity)
    && (forall r, s :: r in sys.db.reservations && s in sys.db.reservations && r != s ==>
        HeldBy(sys.db, r) !! HeldBy(sys.db, s))
  }

  lemma LockedIsNotHeld(sys: Sys, x: Id, r: Id)
    requires Safe(sys) && x in sys.inFlight
    ensures LockedBy(sys.inFlight[x]) !! HeldBy(sys.db, r)
  {
    forall t | t in LockedBy(sys.inFlight[x])
      ensures t !in HeldBy(sys.db, r)
    {
      assert TxHolds(sys.db, sys.inFlight[x]);
      assert StatusMatchesLinks(sys.db.tickets[t]);
    }
  }

  lemma SafeMeansPromisedOnce(sys: Sys)
    requires Safe(sys)
    ensures PromisedOnce(sys)
  {
    hide Consistent;
    forall x, r | x in sys.inFlight && r in sys.db.reservations
      ensures LockedBy(sys.inFlight[x]) !! HeldBy(sys.db, r)
    {
      LockedIsNotHeld(sys, x, r);
    }
  }

  lemma {:induction false} RunsAreSafe(sys: Sys, events: seq<Event>)
    requires Safe(sys) && EnabledRun(sys, events)
    ensures Safe(RunAll(sys, events))
    decreases |events|
  {
    if events != [] {
      NextIsSafe(sys, events[0]);
      hide Safe, Enabled, Next;
      RunsAreSafe(Next(sys, events[0]), events[1..]);
    }
  }

  /**
   In every interleaved run, also with lotteries closed, drawn or edited meanwhile, the tickets are promised once. That
   an abort changes no table holds by construction: a transaction writes nothing before its commit.
   */
  lemma NoTicketIsPromisedTwice(db: Db, events: seq<Event>)
    requires Consistent(db) && OpenHoldsQuantity(db) && EnabledRun(Sys(db, map[]), events)
    ensures PromisedOnce(RunAll(Sys(db, map[]), events))
    ensures forall x :: x in RunAll(Sys(db, map[]), events).inFlight ==>
      Next(RunAll(Sys(db, map[]), events), Abort(x)).db == RunAll(Sys(db, map[]), events).db
  {
    RunsAreSafe(Sys(db, map[]), events);
    hide Safe, PromisedOnce, EnabledRun;
    SafeMeansPromisedOnce(RunAll(Sys(db, map[]), events));
  }
}
