/** The row loop of the JSON bulk import, as a fold of `ImportRow`, and what it conserves. */
module BulkImport {
  import opened Wrappers
  import opened Sales
  import opened SalesInvariant
  import opened SalesLedger

  /** What the database and the environment decide for one row. */
  datatype Choice = Choice(newId: Id, picked: set<Id>, fault: FaultPoint)

  datatype Outcome = Outcome(db: Db, results: seq<RowResult>)

  function ImportOf(row: ImportRequest, c: Choice): Op {
    Import(row, c.newId, c.picked, c.fault)
  }

  predicate PossibleImport(db: Db, rows: seq<ImportRequest>, choices: seq<Choice>): (possible: bool)
    ensures possible ==> |rows| == |choices|
    decreases |rows|
  {
    |rows| == |choices| &&
    (rows == [] || (
       && Possible(db, ImportOf(rows[0], choices[0]))
       && PossibleImport(Step(db, ImportOf(rows[0], choices[0])), rows[1..], choices[1..])))
  }

  function ImportAll(db: Db, rows: seq<ImportRequest>, choices: seq<Choice>): (r: Outcome)
    requires PossibleImport(db, rows, choices)
    ensures |r.results| == |rows|
    decreases |rows|
  {
    if rows == [] then Outcome(db, []) else
      var first := ImportRow(db, rows[0], choices[0].newId, choices[0].picked, choices[0].fault);
      var rest := ImportAll(first.db, rows[1..], choices[1..]);
      Outcome(rest.db, [first.row] + rest.results)
  }

  // ---- Later rows do not disturb earlier ones ----

  ghost predicate OnlyAvailableChange(db: Db, next: Db) {
    && next.tickets.Keys == db.tickets.Keys
    && (forall t :: t in db.tickets && db.tickets[t].status != Available ==> next.tickets[t] == db.tickets[t])
    && (forall t :: t in db.tickets ==> next.tickets[t].lotteryId == db.tickets[t].lotteryId)
    && (forall t, p :: t in db.tickets && p in db.payments && next.tickets[t].paymentId == Some(p) ==>
        db.tickets[t].paymentId == Some(p))
    && (forall p :: p in db.payments ==> p in next.payments && next.payments[p] == db.payments[p])
    && (forall l :: KnownLottery(next, l) <==> KnownLottery(db, l))
    && (forall t :: t in db.tickets && next.tickets[t].status == Available ==> db.tickets[t].status == Available)
  }

  lemma SellingOnlyChangesAvailable(db: Db, next: Db, lotteryId: Id, chosen: set<Id>, newId: Id, buyerId: Id)
    requires chosen <= AvailableIn(db, lotteryId) && newId !in db.payments
    requires next.tickets == SellDirectly(db, chosen, newId, buyerId).tickets
    requires forall p :: p in db.payments ==> p in next.payments && next.payments[p] == db.payments[p]
    requires forall l :: KnownLottery(next, l) <==> KnownLottery(db, l)
    ensures OnlyAvailableChange(db, next)
  {
  }

  lemma PaymentsOnlyGrow(db: Db, next: Db)
    requires next.tickets == db.tickets && next.lotteries == db.lotteries
    requires forall p :: p in db.payments ==> p in next.payments && next.payments[p] == db.payments[p]
    ensures OnlyAvailableChange(db, next)
  {
  }

  /** The tables after the row's transaction. */
  function SoldTables(db: Db, row: ImportRequest, c: Choice): Db
    requires KnownLottery(db, row.lotteryId)
  {
    AddSold(SellDirectly(PaidTables(db, row, c), c.picked, c.newId, row.buyerId), row.lotteryId, row.quantity)
  }

  /** The tables after its payment is created. */
  function PaidTables(db: Db, row: ImportRequest, c: Choice): Db
    requires KnownLottery(db, row.lotteryId)
  {
    CreatePayment(db, c.newId, Payment(row.lotteryId, row.buyerId, ImportAmount(db, row), Approved, None))
  }

  lemma RowTables(db: Db, row: ImportRequest, c: Choice)
    ensures var next := ImportRow(db, row, c.newId, c.picked, c.fault).db;
      if !CreatesPayment(db, row, c) then next == db
      else if c.fault == AfterPayment then next == PaidTables(db, row, c)
      else if ShortOf(row, c) then next == SetPaymentStatus(PaidTables(db, row, c), c.newId, UnderReview)
      else next == SoldTables(db, row, c)
  {
  }

  lemma RowOnlyChangesAvailable(db: Db, row: ImportRequest, c: Choice)
    requires Possible(db, ImportOf(row, c))
    ensures OnlyAvailableChange(db, ImportRow(db, row, c.newId, c.picked, c.fault).db)
  {
    RowTables(db, row, c);
    hide ImportRow, OnlyAvailableChange;
    var next := ImportRow(db, row, c.newId, c.picked, c.fault).db;
    if CreatesPayment(db, row, c) && c.fault != AfterPayment && !ShortOf(row, c) {
      SaleOnlyChangesAvailable(db, row, c);
    } else {
      PaymentsOnlyGrow(db, next);
    }
  }

  lemma SaleOnlyChangesAvailable(db: Db, row: ImportRequest, c: Choice)
    requires Possible(db, ImportOf(row, c)) && KnownLottery(db, row.lotteryId)
    ensures OnlyAvailableChange(db, SoldTables(db, row, c))
  {
    var next := SoldTables(db, row, c);
    assert next.tickets == SellDirectly(db, c.picked, c.newId, row.buyerId).tickets;
    assert forall l :: KnownLottery(next, l) <==> KnownLottery(db, l);
    assert forall p :: p in db.payments ==> p in next.payments && next.payments[p] == db.payments[p];
    hide OnlyAvailableChange, SoldTables, SellDirectly;
    SellingOnlyChangesAvailable(db, next, row.lotteryId, c.picked, c.newId, row.buyerId);
  }

  lemma ChangesCompose(a: Db, b: Db, c: Db)
    requires OnlyAvailableChange(a, b) && OnlyAvailableChange(b, c)
    ensures OnlyAvailableChange(a, c)
  {
    forall t | t in a.tickets && a.tickets[t].status != Available
      ensures c.tickets[t] == a.tickets[t]
    {
      assert b.tickets[t] == a.tickets[t];
    }
  }

  lemma {:induction false} ImportOnlyChangesAvailable(db: Db, rows: seq<ImportRequest>, choices: seq<Choice>)
    requires PossibleImport(db, rows, choices)
    ensures OnlyAvailableChange(db, ImportAll(db, rows, choices).db)
    decreases |rows|
  {
    if rows != [] {
      var next := ImportRow(db, rows[0], choices[0].newId, choices[0].picked, choices[0].fault).db;
      RowOnlyChangesAvailable(db, rows[0], choices[0]);
      ImportOnlyChangesAvailable(next, rows[1..], choices[1..]);
      ChangesCompose(db, next, ImportAll(next, rows[1..], choices[1..]).db);
    }
  }

  // ---- What one row does ----

  predicate CreatesPayment(db: Db, row: ImportRequest, c: Choice) {
    KnownLottery(db, row.lotteryId) && c.fault != BeforePayment
  }

  /** The tickets a row takes from the tables, also when it is reported as an error afterwards. */
  function Took(db: Db, row: ImportRequest, c: Choice): set<Id> {
    if Committed(db, row, c.picked, c.fault) then c.picked else {}
  }

  /** The row has taken these tickets, which were available, for its buyer, and its payment has these and no others. */
  ghost predicate RowSettled(before: Db, after: Db, row: ImportRequest, c: Choice) {
    && Took(before, row, c) <= AvailableIn(before, row.lotteryId)
    && (forall t :: t in Took(before, row, c) ==> t in after.tickets && SoldTo(after.tickets[t], row.buyerId))
    && (Committed(before, row, c.picked, c.fault) && row.quantity >= 0 ==> |Took(before, row, c)| == row.quantity)
    && (CreatesPayment(before, row, c) ==>
          && c.newId in after.payments
          && PaidBy(after, c.newId) == Took(before, row, c)
          && after.payments[c.newId].status == StatusLeft(row, c))
  }

  function StatusLeft(row: ImportRequest, c: Choice): PaymentStatus {
    if ShortOf(row, c) && c.fault != AfterPayment then UnderReview else Approved
  }

  predicate SoldTo(t: Ticket, buyerId: Id) {
    t.status == Sold && t.buyerId == Some(buyerId)
  }

  predicate ShortOf(row: ImportRequest, c: Choice) {
    |c.picked| < row.quantity
  }

  /** What the reply says of the row: an error covers unknown lotteries and all faults, also one after the commit. */
  ghost predicate RowReported(before: Db, row: ImportRequest, c: Choice, result: RowResult) {
    && (result.status == RowApproved <==> Committed(before, row, c.picked, c.fault) && c.fault == NoFault)
    && (result.status == RowUnderReview
        <==> CreatesPayment(before, row, c) && c.fault != AfterPayment && ShortOf(row, c))
    && result.gained == (if result.status == RowApproved then Took(before, row, c) else {})
  }

  lemma FreshPaymentHasNoTickets(db: Db, id: Id)
    requires Consistent(db) && id !in db.payments
    ensures PaidBy(db, id) == {}
  {
    forall t | t in db.tickets
      ensures db.tickets[t].paymentId != Some(id)
    {
      assert PaymentMatches(db, db.tickets[t]);
    }
  }

  lemma SoldTogether(db: Db, chosen: set<Id>, paymentId: Id, buyerId: Id, lotteryId: Id, count: int)
    requires PaidBy(db, paymentId) == {} && chosen <= AvailableIn(db, lotteryId)
    ensures var next := AddSold(SellDirectly(db, chosen, paymentId, buyerId), lotteryId, count);
      && PaidBy(next, paymentId) == chosen
      && next.payments == db.payments
      && forall t :: t in chosen ==> SoldTo(next.tickets[t], buyerId)
  {
    var next := AddSold(SellDirectly(db, chosen, paymentId, buyerId), lotteryId, count);
    forall t | t in db.tickets
      ensures t in PaidBy(next, paymentId) <==> t in chosen
    {
      assert t !in PaidBy(db, paymentId);
    }
  }

  lemma SaleSettles(db: Db, row: ImportRequest, c: Choice)
    requires Consistent(db) && Possible(db, ImportOf(row, c)) && Committed(db, row, c.picked, c.fault)
    ensures RowSettled(db, SoldTables(db, row, c), row, c)
  {
    var paid := PaidTables(db, row, c);
    FreshPaymentHasNoTickets(db, c.newId);
    assert PaidBy(paid, c.newId) == PaidBy(db, c.newId);
    assert AvailableIn(paid, row.lotteryId) == AvailableIn(db, row.lotteryId);
    SoldTogether(paid, c.picked, c.newId, row.buyerId, row.lotteryId, row.quantity);
  }

  lemma UnsoldSettles(db: Db, next: Db, row: ImportRequest, c: Choice)
    requires Consistent(db) && c.newId !in db.payments && next.tickets == db.tickets
    requires !Committed(db, row, c.picked, c.fault)
    requires CreatesPayment(db, row, c) ==>
      c.newId in next.payments && next.payments[c.newId].status == StatusLeft(row, c)
    ensures RowSettled(db, next, row, c)
  {
    FreshPaymentHasNoTickets(db, c.newId);
    assert PaidBy(next, c.newId) == PaidBy(db, c.newId);
  }

  lemma RowSettles(db: Db, row: ImportRequest, c: Choice)
    requires Consistent(db) && Possible(db, ImportOf(row, c))
    ensures var r := ImportRow(db, row, c.newId, c.picked, c.fault);
      RowSettled(db, r.db, row, c) && RowReported(db, row, c, r.row)
  {
    RowTables(db, row, c);
    hide Consistent, RowSettled;
    if Committed(db, row, c.picked, c.fault) {
      SaleSettles(db, row, c);
    } else {
      UnsoldSettles(db, ImportRow(db, row, c.newId, c.picked, c.fault).db, row, c);
    }
  }

  /** A short row changes no ticket and no counter, and leaves its payment under review. */
  lemma ShortRow(db: Db, row: ImportRequest, c: Choice)
    requires Possible(db, ImportOf(row, c))
    ensures var r := ImportRow(db, row, c.newId, c.picked, c.fault);
      && (r.row.status == RowUnderReview <==>
            CreatesPayment(db, row, c) && c.fault != AfterPayment && |AvailableIn(db, row.lotteryId)| < row.quantity)
      && (r.row.status == RowUnderReview ==>
            && r.db.tickets == db.tickets && r.db.lotteries == db.lotteries
            && c.newId in r.db.payments && r.db.payments[c.newId].status == UnderReview)
  {
  }

  lemma SettledStaysSettled(before: Db, middle: Db, after: Db, row: ImportRequest, c: Choice)
    requires RowSettled(before, middle, row, c) && OnlyAvailableChange(middle, after)
    ensures RowSettled(before, after, row, c)
  {
    var took := Took(before, row, c);
    forall t | t in took
      ensures t in after.tickets && after.tickets[t] == middle.tickets[t]
    {
    }
    if CreatesPayment(before, row, c) {
      forall t | t in middle.tickets
        ensures t in PaidBy(after, c.newId) <==> t in PaidBy(middle, c.newId)
      {
        assert t in took <==> t in PaidBy(middle, c.newId);
      }
    }
  }

  lemma SettledFromEarlier(first: Db, before: Db, after: Db, row: ImportRequest, c: Choice)
    requires OnlyAvailableChange(first, before) && RowSettled(before, after, row, c)
    ensures RowSettled(first, after, row, c)
  {
    assert Took(first, row, c) == Took(before, row, c);
    forall t | t in Took(before, row, c)
      ensures t in AvailableIn(first, row.lotteryId)
    {
      assert t in AvailableIn(before, row.lotteryId);
    }
  }

  /** Every row, seen from the tables before the import to the tables after it. */
  lemma {:induction false} EveryRowSettles(db: Db, rows: seq<ImportRequest>, choices: seq<Choice>, i: nat)
    requires Consistent(db) && PossibleImport(db, rows, choices) && i < |rows|
    ensures RowSettled(db, ImportAll(db, rows, choices).db, rows[i], choices[i])
    ensures RowReported(db, rows[i], choices[i], ImportAll(db, rows, choices).results[i])
    decreases |rows|
  {
    var c := choices[0];
    var first := ImportRow(db, rows[0], c.newId, c.picked, c.fault);
    var rest := ImportAll(first.db, rows[1..], choices[1..]);
    StepKeepsConsistent(db, ImportOf(rows[0], c));
    assert Step(db, ImportOf(rows[0], c)) == first.db && Possible(db, ImportOf(rows[0], c));
    assert ImportAll(db, rows, choices) == Outcome(rest.db, [first.row] + rest.results);
    if i == 0 {
      hide *;
      RowSettles(db, rows[0], c);
      ImportOnlyChangesAvailable(first.db, rows[1..], choices[1..]);
      SettledStaysSettled(db, first.db, rest.db, rows[0], c);
    } else {
      hide *;
      EveryRowSettles(first.db, rows[1..], choices[1..], i - 1);
      RowOnlyChangesAvailable(db, rows[0], c);
      SettledFromEarlier(db, first.db, rest.db, rows[i], choices[i]);
      ReportedFromEarlier(db, first.db, rows[i], choices[i], rest.results[i - 1]);
    }
  }

  lemma ReportedFromEarlier(first: Db, before: Db, row: ImportRequest, c: Choice, result: RowResult)
    requires OnlyAvailableChange(first, before) && RowReported(before, row, c, result)
    ensures RowReported(first, row, c, result)
  {
    assert Took(first, row, c) == Took(before, row, c);
  }

  /** The id of row i is not in the tables before the import. */
  lemma {:induction false} PaymentIdIsNew(db: Db, rows: seq<ImportRequest>, choices: seq<Choice>, i: nat)
    requires PossibleImport(db, rows, choices) && i < |rows|
    ensures choices[i].newId !in db.payments
    decreases |rows|
  {
    if i > 0 {
      RowOnlyChangesAvailable(db, rows[0], choices[0]);
      PaymentIdIsNew(Step(db, ImportOf(rows[0], choices[0])), rows[1..], choices[1..], i - 1);
    }
  }

  lemma LaterRowTakesOthers(before: Db, middle: Db, after: Db, row: ImportRequest, c: Choice, row': ImportRequest,
                            c': Choice)
    requires RowSettled(before, middle, row, c) && RowSettled(middle, after, row', c')
    ensures Took(before, row, c) !! Took(middle, row', c')
    ensures CreatesPayment(before, row, c) ==> c.newId in middle.payments
  {
    forall t | t in Took(before, row, c)
      ensures t !in Took(middle, row', c')
    {
      assert SoldTo(middle.tickets[t], row.buyerId);
    }
  }

  lemma SameTook(db: Db, next: Db, row: ImportRequest, c: Choice)
    requires OnlyAvailableChange(db, next)
    ensures Took(db, row, c) == Took(next, row, c) && CreatesPayment(db, row, c) == CreatesPayment(next, row, c)
  {
  }

  /** Different rows take different tickets, errors after a commit included, and their payments are different rows. */
  lemma {:induction false} NoTicketGoesToTwoRows(db: Db, rows: seq<ImportRequest>, choices: seq<Choice>, i: nat, j: nat)
    requires Consistent(db) && PossibleImport(db, rows, choices) && i < j < |rows|
    ensures Took(db, rows[i], choices[i]) !! Took(db, rows[j], choices[j])
    ensures CreatesPayment(db, rows[i], choices[i]) ==> choices[i].newId != choices[j].newId
    decreases |rows|
  {
    var c := choices[0];
    var first := ImportRow(db, rows[0], c.newId, c.picked, c.fault);
    var rest := ImportAll(first.db, rows[1..], choices[1..]);
    StepKeepsConsistent(db, ImportOf(rows[0], c));
    assert Step(db, ImportOf(rows[0], c)) == first.db && Possible(db, ImportOf(rows[0], c));
    assert PossibleImport(first.db, rows[1..], choices[1..]);
    hide *;
    RowOnlyChangesAvailable(db, rows[0], c);
    SameTook(db, first.db, rows[i], choices[i]);
    SameTook(db, first.db, rows[j], choices[j]);
    if i > 0 {
      NoTicketGoesToTwoRows(first.db, rows[1..], choices[1..], i - 1, j - 1);
    } else {
      RowSettles(db, rows[0], c);
      EveryRowSettles(first.db, rows[1..], choices[1..], j - 1);
      PaymentIdIsNew(first.db, rows[1..], choices[1..], j - 1);
      LaterRowTakesOthers(db, first.db, rest.db, rows[0], c, rows[1..][j - 1], choices[1..][j - 1]);
    }
  }

  // ---- Money ----

  function ApprovedAmount(results: seq<RowResult>): int {
    if results == [] then 0 else
      (if results[0].status == RowApproved then results[0].amount else 0) + ApprovedAmount(results[1..])
  }

  predicate SoldUnreported(db: Db, row: ImportRequest, c: Choice) {
    Committed(db, row, c.picked, c.fault) && c.fault == AfterCommit
  }

  /** Amounts of rows that sold their tickets but were reported as errors because reading them back failed. */
  function MisreportedAmount(db: Db, rows: seq<ImportRequest>, choices: seq<Choice>): int
    requires PossibleImport(db, rows, choices)
    decreases |rows|
  {
    if rows == [] then 0 else
      var first := ImportRow(db, rows[0], choices[0].newId, choices[0].picked, choices[0].fault);
      (if SoldUnreported(db, rows[0], choices[0]) then first.row.amount else 0)
      + MisreportedAmount(first.db, rows[1..], choices[1..])
  }

  function Worth(price: nat, count: int): int {
    price * count
  }

  lemma WorthAdds(price: nat, a: int, b: int)
    ensures Worth(price, a + b) == Worth(price, a) + Worth(price, b)
  {
  }

  function RowWorth(db: Db, row: ImportRequest, c: Choice, result: RowResult): int {
    if result.status == RowApproved || SoldUnreported(db, row, c) then result.amount else 0
  }

  lemma RowAmount(db: Db, row: ImportRequest, c: Choice)
    requires row.amountPaid.None? && row.lotteryId in db.lotteries
    ensures var r := ImportRow(db, row, c.newId, c.picked, c.fault);
      && row.lotteryId in r.db.lotteries
      && r.db.lotteries[row.lotteryId].ticketPrice == db.lotteries[row.lotteryId].ticketPrice
      && RowWorth(db, row, c, r.row) == Worth(db.lotteries[row.lotteryId].ticketPrice,
                                              if Committed(db, row, c.picked, c.fault) then row.quantity else 0)
  {
    assert RowReported(db, row, c, ImportRow(db, row, c.newId, c.picked, c.fault).row);
  }

  lemma RowMoney(db: Db, row: ImportRequest, c: Choice)
    requires Consistent(db) && Possible(db, ImportOf(row, c)) && row.amountPaid.None? && row.lotteryId in db.lotteries
    ensures var r := ImportRow(db, row, c.newId, c.picked, c.fault);
      && row.lotteryId in r.db.lotteries
      && r.db.lotteries[row.lotteryId].ticketPrice == db.lotteries[row.lotteryId].ticketPrice
      && RowWorth(db, row, c, r.row) == Worth(db.lotteries[row.lotteryId].ticketPrice,
                                              TicketsSold(r.db, row.lotteryId) - TicketsSold(db, row.lotteryId))
  {
    assert Possible(db, Import(row, c.newId, c.picked, c.fault));
    hide *;
    RowAmount(db, row, c);
    ImportEffect(db, row, c.newId, c.picked, c.fault, row.lotteryId);
  }

  lemma ImportStep(db: Db, rows: seq<ImportRequest>, choices: seq<Choice>)
    requires PossibleImport(db, rows, choices) && rows != []
    ensures var first := ImportRow(db, rows[0], choices[0].newId, choices[0].picked, choices[0].fault);
      && Possible(db, ImportOf(rows[0], choices[0])) && Step(db, ImportOf(rows[0], choices[0])) == first.db
      && PossibleImport(first.db, rows[1..], choices[1..])
      && var rest := ImportAll(first.db, rows[1..], choices[1..]);
        ImportAll(db, rows, choices) == Outcome(rest.db, [first.row] + rest.results)
  {
  }

  lemma ApprovedAmountCons(result: RowResult, rest: seq<RowResult>)
    ensures ApprovedAmount([result] + rest)
      == (if result.status == RowApproved then result.amount else 0) + ApprovedAmount(rest)
  {
    assert ([result] + rest)[1..] == rest;
  }

  lemma MisreportedAmountCons(db: Db, rows: seq<ImportRequest>, choices: seq<Choice>)
    requires PossibleImport(db, rows, choices) && rows != []
    ensures var first := ImportRow(db, rows[0], choices[0].newId, choices[0].picked, choices[0].fault);
      MisreportedAmount(db, rows, choices)
        == (if SoldUnreported(db, rows[0], choices[0]) then first.row.amount else 0)
           + MisreportedAmount(first.db, rows[1..], choices[1..])
  {
  }

  lemma RowWorthSplits(db: Db, row: ImportRequest, c: Choice)
    ensures var result := ImportRow(db, row, c.newId, c.picked, c.fault).row;
      RowWorth(db, row, c, result) == (if result.status == RowApproved then result.amount else 0)
                                      + (if SoldUnreported(db, row, c) then result.amount else 0)
  {
  }

  lemma SplitAmounts(db: Db, rows: seq<ImportRequest>, choices: seq<Choice>)
    requires PossibleImport(db, rows, choices) && rows != []
    ensures var first := ImportRow(db, rows[0], choices[0].newId, choices[0].picked, choices[0].fault);
      ApprovedAmount(ImportAll(db, rows, choices).results) + MisreportedAmount(db, rows, choices)
        == RowWorth(db, rows[0], choices[0], first.row)
           + ApprovedAmount(ImportAll(first.db, rows[1..], choices[1..]).results)
           + MisreportedAmount(first.db, rows[1..], choices[1..])
  {
    var c := choices[0];
    hide *;
    var first := ImportRow(db, rows[0], c.newId, c.picked, c.fault);
    ImportStep(db, rows, choices);
    RowWorthSplits(db, rows[0], c);
    ApprovedAmountCons(first.row, ImportAll(first.db, rows[1..], choices[1..]).results);
    MisreportedAmountCons(db, rows, choices);
  }

  /** All rows are for lottery l and take its ticket price. */
  predicate PlainRows(rows: seq<ImportRequest>, l: Id) {
    forall i :: 0 <= i < |rows| ==> rows[i].lotteryId == l && rows[i].amountPaid.None?
  }

  ghost predicate MoneyMatches(db: Db, rows: seq<ImportRequest>, choices: seq<Choice>, l: Id)
    requires PossibleImport(db, rows, choices) && l in db.lotteries
  {
    ApprovedAmount(ImportAll(db, rows, choices).results) + MisreportedAmount(db, rows, choices)
      == Worth(db.lotteries[l].ticketPrice, TicketsSold(ImportAll(db, rows, choices).db, l) - TicketsSold(db, l))
  }

  lemma NoRowsNoMoney(db: Db, rows: seq<ImportRequest>, choices: seq<Choice>, l: Id)
    requires PossibleImport(db, rows, choices) && rows == [] && l in db.lotteries
    ensures MoneyMatches(db, rows, choices, l)
  {
  }

  lemma FirstRowMoney(db: Db, rows: seq<ImportRequest>, choices: seq<Choice>, l: Id)
    requires Consistent(db) && PossibleImport(db, rows, choices) && l in db.lotteries && rows != []
    requires rows[0].lotteryId == l && rows[0].amountPaid.None?
    ensures var first := ImportRow(db, rows[0], choices[0].newId, choices[0].picked, choices[0].fault);
      && Consistent(first.db) && PossibleImport(first.db, rows[1..], choices[1..]) && l in first.db.lotteries
      && (MoneyMatches(first.db, rows[1..], choices[1..], l) ==> MoneyMatches(db, rows, choices, l))
  {
    hide ImportRow, ImportOf, Consistent, Possible, PossibleImport, Step, ImportAll, TicketsSold, Worth, ApprovedAmount,
      MisreportedAmount, RowWorth;
    var c := choices[0];
    var first := ImportRow(db, rows[0], c.newId, c.picked, c.fault);
    ImportStep(db, rows, choices);
    var rest := ImportAll(first.db, rows[1..], choices[1..]);
    StepKeepsConsistent(db, ImportOf(rows[0], c));
    RowMoney(db, rows[0], c);
    SplitAmounts(db, rows, choices);
    WorthAdds(db.lotteries[l].ticketPrice, TicketsSold(first.db, l) - TicketsSold(db, l),
              TicketsSold(rest.db, l) - TicketsSold(first.db, l));
  }

  /** Approved money, plus what was sold but misreported, is the price times the rise of the counter. */
  lemma {:induction false} AmountsMatchCounter(db: Db, rows: seq<ImportRequest>, choices: seq<Choice>, l: Id)
    requires Consistent(db) && PossibleImport(db, rows, choices) && l in db.lotteries && PlainRows(rows, l)
    ensures ApprovedAmount(ImportAll(db, rows, choices).results) + MisreportedAmount(db, rows, choices)
         == Worth(db.lotteries[l].ticketPrice, TicketsSold(ImportAll(db, rows, choices).db, l) - TicketsSold(db, l))
    decreases |rows|
  {
    hide ImportRow, Consistent, Possible, PossibleImport, ImportAll, TicketsSold, Worth, ApprovedAmount,
      MisreportedAmount;
    if rows == [] {
      NoRowsNoMoney(db, rows, choices, l);
    } else {
      var c := choices[0];
      FirstRowMoney(db, rows, choices, l);
      AmountsMatchCounter(ImportRow(db, rows[0], c.newId, c.picked, c.fault).db, rows[1..], choices[1..], l);
    }
  }

  lemma {:induction false} NothingMisreported(db: Db, rows: seq<ImportRequest>, choices: seq<Choice>)
    requires PossibleImport(db, rows, choices)
    requires forall i :: 0 <= i < |choices| ==> choices[i].fault != AfterCommit
    ensures MisreportedAmount(db, rows, choices) == 0
    decreases |rows|
  {
    if rows != [] {
      NothingMisreported(ImportRow(db, rows[0], choices[0].newId, choices[0].picked, choices[0].fault).db, rows[1..],
                         choices[1..]);
    }
  }

  // ---- Counters of the report ----

  function CountStatus(results: seq<RowResult>, status: RowStatus): nat {
    if results == [] then 0 else
      CountStatus(results[..|results| - 1], status) + (if results[|results| - 1].status == status then 1 else 0)
  }
}
