/**
 One lottery from draft to archive, with its draw record and winners: the transitions of the
 lottery service and the whole draw service. Each call is one atomic step; rows of other tables
 (prizes, tickets) enter a call as what it reads.
 */
module DrawDesk {
  import opened Wrappers
  import opened LotteryStatus
  import opened Mulberry32
  import opened FisherYates
  import opened WinnerAssignment
  import opened DrawHash

  datatype DrawMethod = RandomSystem | Manual

  datatype Draw = Draw(drawMethod: DrawMethod, seed: string, hash: Digest, drawnAt: string)

  datatype Winner = Winner(award: Award, publishedAt: Option<string>)

  datatype Lottery = Lottery(id: string, clientId: string, status: Status, deleted: bool, draws: seq<Draw>,
                             winners: seq<Winner>)

  datatype Entry = Entry(prizeId: string, ticketNumber: string, winnerName: string)

  datatype Error = NotFound | BadRequest | UnknownPrize | UnknownTicket | UniqueViolation

  // ---- The steps as functions ----

  function Publish(l: Lottery, caller: string, prizeCount: nat): Result<Lottery, Error> {
    if l.deleted || l.clientId != caller then Err(NotFound)
    else if l.status != Draft || prizeCount == 0 then Err(BadRequest)
    else Ok(l.(status := Published))
  }

  /** The part of a reservation that concerns the lottery row. */
  function AcceptReservation(l: Lottery): Result<Lottery, Error> {
    if l.deleted then Err(NotFound)
    else if l.status != Published && l.status != Selling then Err(BadRequest)
    else Ok(l.(status := Selling))
  }

  function Close(l: Lottery, caller: string): Result<Lottery, Error> {
    if l.deleted || l.clientId != caller then Err(NotFound)
    else if l.status != Published && l.status != Selling then Err(BadRequest)
    else Ok(l.(status := Closed))
  }

  function Delete(l: Lottery, caller: string): Result<Lottery, Error> {
    if l.deleted || l.clientId != caller then Err(NotFound)
    else if l.status != Draft then Err(BadRequest)
    else Ok(l.(deleted := true))
  }

  function Archive(l: Lottery, caller: string): Result<Lottery, Error> {
    if l.deleted || l.clientId != caller then Err(NotFound)
    else if l.status != Completed then Err(BadRequest)
    else Ok(l.(status := Archived))
  }

  function WithPublication(winners: seq<Winner>, now: string): (published: seq<Winner>)
    ensures |published| == |winners|
  {
    seq(|winners|, i requires 0 <= i < |winners| => winners[i].(publishedAt := Some(now)))
  }

  function PublishResults(l: Lottery, caller: string, now: string): Result<Lottery, Error> {
    if l.deleted || l.clientId != caller then Err(NotFound)
    else if l.status != Drawing then Err(BadRequest)
    else Ok(l.(status := Completed, winners := WithPublication(l.winners, now)))
  }

  function Unpublished(awards: seq<Award>): (winners: seq<Winner>)
    ensures |winners| == |awards|
  {
    seq(|awards|, i requires 0 <= i < |awards| => Winner(awards[i], None))
  }

  /** The order in which the sold tickets are drawn: a function of the seed and of the order they were read in. */
  function DrawOrder(sha: string -> Digest, sold: seq<Ticket>, seed: string): seq<Ticket> {
    Shuffle(sold, DrawnChoices(SeedWord(sha(seed)), |sold|))
  }

  function WithDraw(sha: string -> Digest, l: Lottery, drawMethod: DrawMethod, seed: string, now: string,
                    winners: seq<Winner>): Lottery
  {
    var draw := Draw(drawMethod, seed, GenerateDrawHash(sha, l.id, seed, now), now);
    l.(status := Drawing, draws := l.draws + [draw], winners := winners)
  }

  /** `prizes` are the active prizes by ascending rank, `sold` the SOLD tickets as the table returned them. */
  function ExecuteDraw(sha: string -> Digest, l: Lottery, caller: string, prizes: seq<Prize>, sold: seq<Ticket>,
                       seed: string, now: string): Result<Lottery, Error> {
    if l.deleted || l.clientId != caller then Err(NotFound)
    else if l.status != Closed || prizes == [] || l.draws != [] || sold == [] then Err(BadRequest)
    else Ok(WithDraw(sha, l, RandomSystem, seed, now,
                     l.winners + Unpublished(Winners(prizes, DrawOrder(sha, sold, seed)))))
  }

  function FindPrize(prizes: seq<Prize>, id: string): (found: Option<Prize>)
    ensures found.None? <==> forall p :: p in prizes ==> p.id != id
    ensures found.Some? ==> found.value in prizes && found.value.id == id
  {
    if prizes == [] then None
    else if prizes[0].id == id then Some(prizes[0])
    else FindPrize(prizes[1..], id)
  }

  function TicketIds(winners: seq<Winner>): set<string> {
    set w | w in winners :: w.award.ticketId
  }

  /** The rows one manual entry would add, or why it cannot; `tickets` is the lottery's ticket table by number. */
  function EntryWinner(prizes: seq<Prize>, tickets: map<string, Ticket>, taken: set<string>,
                       entry: Entry): Result<Winner, Error>
  {
    if FindPrize(prizes, entry.prizeId).None? then Err(UnknownPrize)
    else if entry.ticketNumber !in tickets then Err(UnknownTicket)
    else if tickets[entry.ticketNumber].id in taken then Err(UniqueViolation)
    else var ticket := tickets[entry.ticketNumber];
      Ok(Winner(Award(entry.prizeId, ticket.id, ticket.buyerId, Some(entry.winnerName)), None))
  }

  /** The entries of a manual draw, from the first on; the first bad one decides the error. */
  function RecordEntries(prizes: seq<Prize>, tickets: map<string, Ticket>, winners: seq<Winner>, entries: seq<Entry>)
    : Result<seq<Winner>, Error>
    decreases |entries|
  {
    if entries == [] then Ok(winners) else
      match EntryWinner(prizes, tickets, TicketIds(winners), entries[0])
      case Err(e) => Err(e)
      case Ok(w) => RecordEntries(prizes, tickets, winners + [w], entries[1..])
  }

  function ManualDraw(sha: string -> Digest, l: Lottery, caller: string, prizes: seq<Prize>,
                      tickets: map<string, Ticket>,
                      entries: seq<Entry>, seed: string, now: string): Result<Lottery, Error> {
    if l.deleted || l.clientId != caller then Err(NotFound)
    else if l.status != Closed || l.draws != [] then Err(BadRequest)
    else match RecordEntries(prizes, tickets, l.winners, entries)
      case Err(e) => Err(e)
      case Ok(winners) =>
        Ok(WithDraw(sha, l, DrawMethod.Manual, seed, now, winners))
  }

  /** None when there is no draw to verify. */
  function VerifyDraw(sha: string -> Digest, l: Lottery): Option<bool> {
    if l.draws == [] then None
    else Some(GenerateDrawHash(sha, l.id, l.draws[0].seed, l.draws[0].drawnAt) == l.draws[0].hash)
  }

  // ---- Manual draws are all or nothing ----

  /** Ticket numbers are unique within a lottery, so different numbers are different rows. */
  ghost predicate KeyedByNumber(tickets: map<string, Ticket>) {
    forall m, n :: m in tickets && n in tickets && m != n ==> tickets[m].id != tickets[n].id
  }

  ghost predicate AllRecordable(prizes: seq<Prize>, tickets: map<string, Ticket>, winners: seq<Winner>,
                                entries: seq<Entry>)
  {
    && (forall i :: 0 <= i < |entries| ==> FindPrize(prizes, entries[i].prizeId).Some?)
    && (forall i :: 0 <= i < |entries| ==> entries[i].ticketNumber in tickets)
    && (forall i :: 0 <= i < |entries| ==> tickets[entries[i].ticketNumber].id !in TicketIds(winners))
    && (forall i, j :: 0 <= i < j < |entries| ==> entries[i].ticketNumber != entries[j].ticketNumber)
  }

  function WinnerOf(tickets: map<string, Ticket>, entry: Entry): Winner
    requires entry.ticketNumber in tickets
  {
    var ticket := tickets[entry.ticketNumber];
    Winner(Award(entry.prizeId, ticket.id, ticket.buyerId, Some(entry.winnerName)), None)
  }

  lemma TicketIdsOfAppended(winners: seq<Winner>, w: Winner)
    ensures TicketIds(winners + [w]) == TicketIds(winners) + {w.award.ticketId}
  {
    assert forall x :: x in winners + [w] <==> x in winners || x == w;
  }

  /** Recording succeeds exactly when every entry names a known prize and a known, not yet used ticket. */
  lemma {:induction false} RecordEntriesIff(prizes: seq<Prize>, tickets: map<string, Ticket>, winners: seq<Winner>,
                                            entries: seq<Entry>)
    requires KeyedByNumber(tickets)
    ensures RecordEntries(prizes, tickets, winners, entries).Ok? <==> AllRecordable(prizes, tickets, winners, entries)
    decreases |entries|
  {
    if entries != [] {
      var first, rest := entries[0], entries[1..];
      match EntryWinner(prizes, tickets, TicketIds(winners), first)
      case Err(_) =>
      case Ok(w) =>
        TicketIdsOfAppended(winners, w);
        RecordEntriesIff(prizes, tickets, winners + [w], rest);
        if AllRecordable(prizes, tickets, winners + [w], rest) {
          forall i, j | 0 <= i < j < |entries|
            ensures entries[i].ticketNumber != entries[j].ticketNumber
          {
            assert entries[j] == rest[j - 1];
            if i > 0 {
              assert entries[i] == rest[i - 1];
            }
          }
          forall i | 0 <= i < |entries|
            ensures FindPrize(prizes, entries[i].prizeId).Some? && entries[i].ticketNumber in tickets
            ensures tickets[entries[i].ticketNumber].id !in TicketIds(winners)
          {
            if i > 0 {
              assert entries[i] == rest[i - 1];
            }
          }
        }
        if AllRecordable(prizes, tickets, winners, entries) {
          forall i | 0 <= i < |rest|
            ensures FindPrize(prizes, rest[i].prizeId).Some? && rest[i].ticketNumber in tickets
            ensures tickets[rest[i].ticketNumber].id !in TicketIds(winners + [w])
          {
            assert rest[i] == entries[i + 1];
            assert entries[0].ticketNumber != entries[i + 1].ticketNumber;
          }
        }
    }
  }

  /** One winner per entry, in order, after those already there. */
  lemma {:induction false} RecordEntriesInOrder(prizes: seq<Prize>, tickets: map<string, Ticket>, winners: seq<Winner>,
                                                entries: seq<Entry>)
    requires RecordEntries(prizes, tickets, winners, entries).Ok?
    ensures var all := RecordEntries(prizes, tickets, winners, entries).value;
      && |all| == |winners| + |entries|
      && all[..|winners|] == winners
      && forall i :: 0 <= i < |entries| ==>
           entries[i].ticketNumber in tickets && all[|winners| + i] == WinnerOf(tickets, entries[i])
    decreases |entries|
  {
    if entries != [] {
      var w := EntryWinner(prizes, tickets, TicketIds(winners), entries[0]).value;
      var all := RecordEntries(prizes, tickets, winners, entries).value;
      assert all == RecordEntries(prizes, tickets, winners + [w], entries[1..]).value;
      RecordEntriesInOrder(prizes, tickets, winners + [w], entries[1..]);
      assert all[..|winners|] == (all[..|winners| + 1])[..|winners|] == winners;
      forall i | 0 <= i < |entries|
        ensures entries[i].ticketNumber in tickets && all[|winners| + i] == WinnerOf(tickets, entries[i])
      {
        if i == 0 {
          assert all[|winners|] == (winners + [w])[|winners|] == w;
        } else {
          assert entries[i] == entries[1..][i - 1];
        }
      }
    }
  }

  /** The whole of a manual draw on a closed lottery: it fails on any bad entry, and else adds exactly the entries. */
  lemma ManualDrawOutcome(sha: string -> Digest, l: Lottery, caller: string, prizes: seq<Prize>,
                          tickets: map<string, Ticket>,
                          entries: seq<Entry>, seed: string, now: string)
    requires l.draws == [] ==> l.winners == []
    ensures var r := ManualDraw(sha, l, caller, prizes, tickets, entries, seed, now);
      && (KeyedByNumber(tickets) ==>
            (r.Ok? <==> (!l.deleted && l.clientId == caller && l.status == Closed && l.draws == []
                         && AllRecordable(prizes, tickets, [], entries))))
      && (r.Ok? ==>
            && r.value == l.(status := Drawing, draws := r.value.draws, winners := r.value.winners)
            && r.value.draws == [Draw(DrawMethod.Manual, seed, sha(l.id + ":" + seed + ":" + now), now)]
            && |r.value.winners| == |entries|
            && forall i :: 0 <= i < |entries| ==>
                 entries[i].ticketNumber in tickets && r.value.winners[i] == WinnerOf(tickets, entries[i]))
  {
    if KeyedByNumber(tickets) {
      RecordEntriesIff(prizes, tickets, [], entries);
    }
    if l.draws == [] && RecordEntries(prizes, tickets, [], entries).Ok? {
      RecordEntriesInOrder(prizes, tickets, [], entries);
      var all := RecordEntries(prizes, tickets, [], entries).value;
      assert forall i :: 0 <= i < |entries| ==> all[0 + i] == all[i];
    }
  }

  ghost predicate UniqueTickets(winners: seq<Winner>) {
    forall i, j :: 0 <= i < j < |winners| ==> winners[i].award.ticketId != winners[j].award.ticketId
  }

  lemma {:induction false} RecordEntriesKeepsUnique(prizes: seq<Prize>, tickets: map<string, Ticket>,
                                                    winners: seq<Winner>, entries: seq<Entry>)
    requires UniqueTickets(winners) && RecordEntries(prizes, tickets, winners, entries).Ok?
    ensures UniqueTickets(RecordEntries(prizes, tickets, winners, entries).value)
    decreases |entries|
  {
    if entries != [] {
      var w := EntryWinner(prizes, tickets, TicketIds(winners), entries[0]).value;
      forall i | 0 <= i < |winners|
        ensures winners[i].award.ticketId != w.award.ticketId
      {
        assert winners[i] in winners;
      }
      RecordEntriesKeepsUnique(prizes, tickets, winners + [w], entries[1..]);
    }
  }

  // ---- Runs ----

  datatype Op =
    | DoPublish(caller: string, prizeCount: nat)
    | DoAcceptReservation
    | DoClose(caller: string)
    | DoDelete(caller: string)
    | DoExecuteDraw(caller: string, prizes: seq<Prize>, sold: seq<Ticket>, seed: string, now: string)
    | DoManualDraw(caller: string, allPrizes: seq<Prize>, tickets: map<string, Ticket>, entries: seq<Entry>,
                   seed: string, now: string)
    | DoPublishResults(caller: string, now: string)
    | DoArchive(caller: string)

  function Outcome(sha: string -> Digest, l: Lottery, op: Op): Result<Lottery, Error> {
    match op
    case DoPublish(caller, prizeCount) => Publish(l, caller, prizeCount)
    case DoAcceptReservation => AcceptReservation(l)
    case DoClose(caller) => Close(l, caller)
    case DoDelete(caller) => Delete(l, caller)
    case DoExecuteDraw(caller, prizes, sold, seed, now) => ExecuteDraw(sha, l, caller, prizes, sold, seed, now)
    case DoManualDraw(caller, prizes, tickets, entries, seed, now) =>
      ManualDraw(sha, l, caller, prizes, tickets, entries, seed, now)
    case DoPublishResults(caller, now) => PublishResults(l, caller, now)
    case DoArchive(caller) => Archive(l, caller)
  }

  /** A failed call leaves the lottery as it was. */
  function Step(sha: string -> Digest, l: Lottery, op: Op): Lottery {
    match Outcome(sha, l, op)
    case Ok(next) => next
    case Err(_) => l
  }

  function Run(sha: string -> Digest, l: Lottery, ops: seq<Op>): Lottery
    decreases |ops|
  {
    if ops == [] then l else Run(sha, Step(sha, l, ops[0]), ops[1..])
  }

  /** The rows a draw reads are a table's rows: sold tickets have different ids. */
  ghost predicate Readable(op: Op) {
    op.DoExecuteDraw? ==> DistinctIds(op.sold)
  }

  ghost predicate Consistent(sha: string -> Digest, l: Lottery) {
    && |l.draws| <= 1
    && (l.draws != [] <==> Stage(l.status) >= Stage(Drawing))
    && (l.draws == [] ==> l.winners == [])
    && UniqueTickets(l.winners)
    && (forall w :: w in l.winners ==> (w.publishedAt.Some? <==> Stage(l.status) >= Stage(Completed)))
    && (l.draws != [] ==> VerifyDraw(sha, l) == Some(true))
    && (l.deleted ==> l.status == Draft)
  }

  lemma ShuffledTicketsAreDistinct(s: seq<Ticket>, p: seq<Ticket>)
    requires DistinctIds(s) && multiset(p) == multiset(s)
    ensures DistinctIds(p)
  {
    assert |p| == |multiset(p)| == |multiset(s)| == |s|;
    forall i, j | 0 <= i < j < |p|
      ensures p[i].id != p[j].id
    {
      if p[i].id == p[j].id {
        assert p[i] in multiset(s) && p[j] in multiset(s);
        assert p[i] == p[j];
        RepeatedElement(p, i, j);
        SimpleMultiset(s, p[i]);
      }
    }
  }

  lemma RepeatedElement<T>(p: seq<T>, i: nat, j: nat)
    requires i < j < |p| && p[i] == p[j]
    ensures multiset(p)[p[i]] >= 2
  {
    assert p == p[..i] + [p[i]] + p[i + 1..j] + [p[j]] + p[j + 1..];
  }

  lemma {:induction false} SimpleMultiset(s: seq<Ticket>, t: Ticket)
    requires DistinctIds(s)
    ensures multiset(s)[t] <= 1
  {
    if s != [] {
      var rest := s[..|s| - 1];
      assert s == rest + [s[|s| - 1]];
      SimpleMultiset(rest, t);
      if s[|s| - 1] == t {
        assert t !in rest;
      }
    }
  }

  lemma DrawOrderPermutes(sha: string -> Digest, sold: seq<Ticket>, seed: string)
    requires DistinctIds(sold)
    ensures multiset(DrawOrder(sha, sold, seed)) == multiset(sold)
    ensures DistinctIds(DrawOrder(sha, sold, seed))
  {
    ShuffleDownPermutes(sold, DrawnChoices(SeedWord(sha(seed)), |sold|), |sold|);
    ShuffledTicketsAreDistinct(sold, DrawOrder(sha, sold, seed));
  }

  ghost predicate WonByOneOf(award: Award, slot: Prize, sold: seq<Ticket>) {
    exists t :: t in sold && award == Award(slot.id, t.id, t.buyerId, t.buyerName)
  }

  lemma AwardsFromOrder(prizes: seq<Prize>, sold: seq<Ticket>, order: seq<Ticket>, i: nat)
    requires DistinctIds(order) && multiset(order) == multiset(sold)
    requires i < |Winners(prizes, order)|
    ensures i < |Slots(prizes)| && WonByOneOf(Winners(prizes, order)[i], Slots(prizes)[i], sold)
  {
    WinnersAreDistinctSoldTickets(prizes, order);
    SlotCount(prizes);
    assert order[i] in multiset(order);
    assert order[i] in sold;
  }

  /** Each award goes to a different sold ticket, slot by slot, and no slot stays empty while tickets are left. */
  ghost predicate AwardedFrom(awards: seq<Award>, prizes: seq<Prize>, sold: seq<Ticket>) {
    && |awards| == Min(TotalQuantity(prizes), |sold|) <= |Slots(prizes)|
    && (forall i, j :: 0 <= i < j < |awards| ==> awards[i].ticketId != awards[j].ticketId)
    && forall i :: 0 <= i < |awards| ==> WonByOneOf(awards[i], Slots(prizes)[i], sold)
  }

  lemma AnyOrderAwardsSoldTickets(prizes: seq<Prize>, sold: seq<Ticket>, order: seq<Ticket>)
    requires DistinctIds(order) && multiset(order) == multiset(sold)
    ensures AwardedFrom(Winners(prizes, order), prizes, sold)
  {
    WinnersAreDistinctSoldTickets(prizes, order);
    assert |order| == |multiset(order)| == |sold|;
    SlotCount(prizes);
    forall i | 0 <= i < |Winners(prizes, order)|
      ensures WonByOneOf(Winners(prizes, order)[i], Slots(prizes)[i], sold)
    {
      AwardsFromOrder(prizes, sold, order, i);
    }
  }

  lemma RandomDrawPicksSoldTickets(sha: string -> Digest, prizes: seq<Prize>, sold: seq<Ticket>, seed: string)
    requires DistinctIds(sold)
    ensures AwardedFrom(Winners(prizes, DrawOrder(sha, sold, seed)), prizes, sold)
  {
    DrawOrderPermutes(sha, sold, seed);
    AnyOrderAwardsSoldTickets(prizes, sold, DrawOrder(sha, sold, seed));
  }

  lemma RecordedAreUnpublished(prizes: seq<Prize>, tickets: map<string, Ticket>, entries: seq<Entry>, w: Winner)
    requires RecordEntries(prizes, tickets, [], entries).Ok?
    requires w in RecordEntries(prizes, tickets, [], entries).value
    ensures w.publishedAt.None?
  {
    RecordEntriesInOrder(prizes, tickets, [], entries);
    var all := RecordEntries(prizes, tickets, [], entries).value;
    var i :| 0 <= i < |all| && all[i] == w;
    assert all[0 + i] == WinnerOf(tickets, entries[i]);
  }

  lemma FreshDrawIsConsistent(sha: string -> Digest, l: Lottery, drawMethod: DrawMethod, seed: string, now: string,
                              winners: seq<Winner>)
    requires Consistent(sha, l) && !l.deleted && l.draws == [] && UniqueTickets(winners)
    requires forall w :: w in winners ==> w.publishedAt.None?
    ensures Consistent(sha, WithDraw(sha, l, drawMethod, seed, now, winners))
  {
  }

  lemma ExecuteDrawKeepsConsistent(sha: string -> Digest, l: Lottery, caller: string, prizes: seq<Prize>,
                                   sold: seq<Ticket>,
                                   seed: string, now: string)
    requires Consistent(sha, l) && DistinctIds(sold)
    requires ExecuteDraw(sha, l, caller, prizes, sold, seed, now).Ok?
    ensures Consistent(sha, ExecuteDraw(sha, l, caller, prizes, sold, seed, now).value)
  {
    RandomDrawPicksSoldTickets(sha, prizes, sold, seed);
    var awards := Winners(prizes, DrawOrder(sha, sold, seed));
    UnpublishedAwards(awards);
    FreshDrawIsConsistent(sha, l, RandomSystem, seed, now, Unpublished(awards));
    EmptyThen(l.winners, Unpublished(awards));
  }

  lemma EmptyThen<T>(empty: seq<T>, s: seq<T>)
    requires empty == []
    ensures empty + s == s
  {
  }

  lemma UnpublishedAwards(awards: seq<Award>)
    requires forall i, j :: 0 <= i < j < |awards| ==> awards[i].ticketId != awards[j].ticketId
    ensures UniqueTickets(Unpublished(awards))
    ensures forall w :: w in Unpublished(awards) ==> w.publishedAt.None?
  {
  }

  lemma ManualDrawKeepsConsistent(sha: string -> Digest, l: Lottery, caller: string, prizes: seq<Prize>,
                                  tickets: map<string, Ticket>,
                                  entries: seq<Entry>, seed: string, now: string)
    requires Consistent(sha, l)
    requires ManualDraw(sha, l, caller, prizes, tickets, entries, seed, now).Ok?
    ensures Consistent(sha, ManualDraw(sha, l, caller, prizes, tickets, entries, seed, now).value)
  {
    RecordEntriesKeepsUnique(prizes, tickets, l.winners, entries);
    var winners := RecordEntries(prizes, tickets, l.winners, entries).value;
    forall w | w in winners
      ensures w.publishedAt.None?
    {
      RecordedAreUnpublished(prizes, tickets, entries, w);
    }
    FreshDrawIsConsistent(sha, l, DrawMethod.Manual, seed, now, winners);
  }

  lemma PublishResultsKeepsConsistent(sha: string -> Digest, l: Lottery, caller: string, now: string)
    requires Consistent(sha, l) && PublishResults(l, caller, now).Ok?
    ensures Consistent(sha, PublishResults(l, caller, now).value)
  {
  }

  lemma StepKeepsConsistent(sha: string -> Digest, l: Lottery, op: Op)
    requires Consistent(sha, l) && Readable(op)
    ensures Consistent(sha, Step(sha, l, op))
  {
    if Outcome(sha, l, op).Ok? {
      match op
      case DoExecuteDraw(caller, prizes, sold, seed, now) =>
        ExecuteDrawKeepsConsistent(sha, l, caller, prizes, sold, seed, now);
      case DoManualDraw(caller, prizes, tickets, entries, seed, now) =>
        ManualDrawKeepsConsistent(sha, l, caller, prizes, tickets, entries, seed, now);
      case DoPublishResults(caller, now) =>
        PublishResultsKeepsConsistent(sha, l, caller, now);
      case _ =>
    }
  }

  /** Winners are the same people with the same prizes; only their publication may differ. */
  ghost predicate SameAwards(a: seq<Winner>, b: seq<Winner>) {
    |a| == |b| && forall i :: 0 <= i < |a| ==> a[i].award == b[i].award
  }

  lemma StepMovesForward(sha: string -> Digest, l: Lottery, op: Op)
    requires Consistent(sha, l)
    ensures var next := Step(sha, l, op);
      && Stage(l.status) <= Stage(next.status) && next.id == l.id && next.clientId == l.clientId
      && (l.deleted ==> next == l)
      && (l.draws != [] ==> next.draws == l.draws && SameAwards(l.winners, next.winners))
      && (Stage(l.status) >= Stage(Completed) ==> next.winners == l.winners)
  {
    match op
    case DoPublishResults(_, now) =>
      assert forall i :: 0 <= i < |l.winners| ==> WithPublication(l.winners, now)[i].award == l.winners[i].award;
    case _ =>
  }

  /** Every run from a fresh draft, or from any consistent point: consistent, forward only, results fixed. */
  lemma {:induction false} RunsAreConsistent(sha: string -> Digest, l: Lottery, ops: seq<Op>)
    requires Consistent(sha, l)
    requires forall op :: op in ops ==> Readable(op)
    ensures Consistent(sha, Run(sha, l, ops))
    ensures Stage(l.status) <= Stage(Run(sha, l, ops).status)
    ensures l.draws != [] ==> Run(sha, l, ops).draws == l.draws && SameAwards(l.winners, Run(sha, l, ops).winners)
    ensures Stage(l.status) >= Stage(Completed) ==> Run(sha, l, ops).winners == l.winners
    decreases |ops|
  {
    if ops != [] {
      StepKeepsConsistent(sha, l, ops[0]);
      StepMovesForward(sha, l, ops[0]);
      RunsAreConsistent(sha, Step(sha, l, ops[0]), ops[1..]);
    }
  }

  function NewLottery(id: string, clientId: string): Lottery {
    Lottery(id, clientId, Draft, false, [], [])
  }

  ghost predicate AllPublished(winners: seq<Winner>) {
    forall w :: w in winners ==> w.publishedAt.Some?
  }

  /** A draw exists, uniquely and verifiably, exactly from DRAWING on; and when its winners are all published. */
  lemma EveryReachableLottery(sha: string -> Digest, id: string, clientId: string, ops: seq<Op>)
    requires forall op :: op in ops ==> Readable(op)
    ensures var l := Run(sha, NewLottery(id, clientId), ops);
      && (l.status in {Drawing, Completed, Archived} <==> |l.draws| == 1)
      && (l.status !in {Drawing, Completed, Archived} <==> |l.draws| == 0)
      && (|l.draws| == 1 ==> VerifyDraw(sha, l) == Some(true))
      && (AllPublished(l.winners) <==> l.status in {Completed, Archived} || l.winners == [])
  {
    RunsAreConsistent(sha, NewLottery(id, clientId), ops);
    var l := Run(sha, NewLottery(id, clientId), ops);
    if l.winners != [] {
      assert l.winners[0] in l.winners;
    }
  }

  /**
   Run again with the recorded seed over the same ticket sequence, a random draw gives the recorded winners in every
   later state.
   */
  lemma DrawIsReproducible(sha: string -> Digest, l: Lottery, draw: Op, ops: seq<Op>)
    requires Consistent(sha, l) && draw.DoExecuteDraw? && Outcome(sha, l, draw).Ok?
    requires Readable(draw) && forall op :: op in ops ==> Readable(op)
    ensures var later := Run(sha, Step(sha, l, draw), ops);
      && |later.draws| == 1 && later.draws[0].drawMethod == RandomSystem
      && SameAwards(later.winners, Unpublished(Winners(draw.prizes, DrawOrder(sha, draw.sold, later.draws[0].seed))))
  {
    StepKeepsConsistent(sha, l, draw);
    var drawn := Step(sha, l, draw);
    EmptyThen(l.winners, Unpublished(Winners(draw.prizes, DrawOrder(sha, draw.sold, draw.seed))));
    assert drawn.draws == [Draw(RandomSystem, draw.seed, GenerateDrawHash(sha, l.id, draw.seed, draw.now), draw.now)];
    hide DrawOrder, Winners, Consistent, Step, Outcome;
    RunsAreConsistent(sha, drawn, ops);
  }

  /** Why "all published" alone does not mean COMPLETED: a manual draw without entries has no winners to publish. */
  lemma EmptyManualDrawIsVacuouslyPublished(sha: string -> Digest)
    ensures var ops := [DoPublish("c", 1), DoClose("c"), DoManualDraw("c", [], map[], [], "s", "t")];
            var l := Run(sha, NewLottery("L", "c"), ops);
            l.status == Drawing && AllPublished(l.winners)
  {
    var ops := [DoPublish("c", 1), DoClose("c"), DoManualDraw("c", [], map[], [], "s", "t")];
    var l0 := NewLottery("L", "c");
    var l1 := Step(sha, l0, ops[0]);
    var l2 := Step(sha, l1, ops[1]);
    var l3 := Step(sha, l2, ops[2]);
    assert ops[1..] == [ops[1], ops[2]];
    assert ops[1..][1..] == [ops[2]];
    assert Run(sha, l2, [ops[2]]) == Run(sha, l3, []) == l3;
    assert Run(sha, l1, ops[1..]) == Run(sha, l2, ops[1..][1..]);
    assert Run(sha, l0, ops) == Run(sha, l1, ops[1..]);
  }

  /** Where SHA-256 separates the two texts, a changed seed or time is noticed, and nothing else is reported. */
  lemma VerificationDetectsTampering(sha: string -> Digest, l: Lottery, seed: string, drawnAt: string)
    requires l.draws != [] && VerifyDraw(sha, l) == Some(true)
    requires ':' !in l.id && ':' !in l.draws[0].seed && ':' !in seed
    requires var stored, altered := DrawText(l.id, l.draws[0].seed, l.draws[0].drawnAt), DrawText(l.id, seed, drawnAt);
             sha(stored) == sha(altered) ==> stored == altered
    ensures var altered := l.(draws := [l.draws[0].(seed := seed, drawnAt := drawnAt)]);
            VerifyDraw(sha, altered) == Some(true) <==> seed == l.draws[0].seed && drawnAt == l.draws[0].drawnAt
  {
    DrawTextIsInjective(l.id, l.draws[0].seed, l.draws[0].drawnAt, l.id, seed, drawnAt);
  }

  lemma NoDrawNoWinners(sha: string -> Digest, l: Lottery)
    requires Consistent(sha, l)
    ensures l.draws == [] ==> l.winners == []
    ensures l.status == Closed ==> l.draws == []
  {
  }

  // ---- When calls succeed ----

  /** The owner's check: reservations come from buyers, everything else from the lottery's client. */
  predicate ByOwner(l: Lottery, op: Op) {
    match op
    case DoAcceptReservation => true
    case _ => op.caller == l.clientId
  }

  predicate AllowedFrom(op: Op, status: Status) {
    match op
    case DoPublish(_, _) => status == Draft
    case DoDelete(_) => status == Draft
    case DoAcceptReservation => status in {Published, Selling}
    case DoClose(_) => status in {Published, Selling}
    case DoExecuteDraw(_, _, _, _, _) => status == Closed
    case DoManualDraw(_, _, _, _, _, _) => status == Closed
    case DoPublishResults(_, _) => status == Drawing
    case DoArchive(_) => status == Completed
  }

  function Target(op: Op): Status {
    match op
    case DoPublish(_, _) => Published
    case DoDelete(_) => Draft
    case DoAcceptReservation => Selling
    case DoClose(_) => Closed
    case DoExecuteDraw(_, _, _, _, _) => Drawing
    case DoManualDraw(_, _, _, _, _, _) => Drawing
    case DoPublishResults(_, _) => Completed
    case DoArchive(_) => Archived
  }

  /** What a call needs besides the right caller and status. */
  ghost predicate HasWhatItNeeds(l: Lottery, op: Op) {
    && (op.DoPublish? ==> op.prizeCount > 0)
    && (op.DoExecuteDraw? ==> l.draws == [] && op.prizes != [] && op.sold != [])
    && (op.DoManualDraw? ==> l.draws == [] && AllRecordable(op.allPrizes, op.tickets, l.winners, op.entries))
  }

  /** The table of transitions: each call's caller, the statuses it may come from, and the one it leads to. */
  lemma CallSucceedsIff(sha: string -> Digest, l: Lottery, op: Op)
    requires op.DoManualDraw? ==> KeyedByNumber(op.tickets)
    ensures var r := Outcome(sha, l, op);
      && (r.Ok? <==> !l.deleted && ByOwner(l, op) && AllowedFrom(op, l.status) && HasWhatItNeeds(l, op))
      && (r == Err(NotFound) <==> l.deleted || !ByOwner(l, op))
      && (r.Ok? ==> r.value.status == Target(op) && (r.value.deleted <==> op.DoDelete?))
  {
    hide AllRecordable, KeyedByNumber, RecordEntries;
    match op
    case DoManualDraw(_, prizes, tickets, entries, _, _) =>
      RecordEntriesIff(prizes, tickets, l.winners, entries);
      RecordingErrors(prizes, tickets, l.winners, entries);
    case _ =>
  }

  lemma {:induction false} RecordingErrors(prizes: seq<Prize>, tickets: map<string, Ticket>, winners: seq<Winner>,
                                           entries: seq<Entry>)
    ensures RecordEntries(prizes, tickets, winners, entries) != Err(NotFound)
    decreases |entries|
  {
    if entries != [] {
      match EntryWinner(prizes, tickets, TicketIds(winners), entries[0])
      case Err(_) =>
      case Ok(w) => RecordingErrors(prizes, tickets, winners + [w], entries[1..]);
    }
  }

  /** What the winners of a random draw are: unpublished, and each award from another sold ticket, slot by slot. */
  ghost predicate RandomlyDrawn(winners: seq<Winner>, prizes: seq<Prize>, sold: seq<Ticket>) {
    && |winners| == Min(TotalQuantity(prizes), |sold|) <= |Slots(prizes)|
    && UniqueTickets(winners)
    && forall i :: 0 <= i < |winners| ==>
         winners[i].publishedAt == None && WonByOneOf(winners[i].award, Slots(prizes)[i], sold)
  }

  /** The whole of a random draw: exactly when it happens, and all it writes. */
  lemma RandomDrawOutcome(sha: string -> Digest, l: Lottery, caller: string, prizes: seq<Prize>, sold: seq<Ticket>,
                          seed: string, now: string)
    requires Consistent(sha, l) && DistinctIds(sold)
    ensures var r := ExecuteDraw(sha, l, caller, prizes, sold, seed, now);
      && (r.Ok? <==> !l.deleted && l.clientId == caller && l.status == Closed && prizes != [] && sold != [])
      && (r.Ok? ==>
            && r.value == l.(status := Drawing, draws := r.value.draws, winners := r.value.winners)
            && r.value.draws == [Draw(RandomSystem, seed, sha(l.id + ":" + seed + ":" + now), now)]
            && RandomlyDrawn(r.value.winners, prizes, sold))
  {
    var r := ExecuteDraw(sha, l, caller, prizes, sold, seed, now);
    if r.Ok? {
      RandomDrawPicksSoldTickets(sha, prizes, sold, seed);
      var awards := Winners(prizes, DrawOrder(sha, sold, seed));
      UnpublishedAwards(awards);
      EmptyThen(l.winners, Unpublished(awards));
    }
  }

  // ---- The service object ----

  /** The shuffle of a copy of the sold tickets, and the winner loop over it. */
  method DrawAwards(sha: string -> Digest, prizes: seq<Prize>, sold: seq<Ticket>, seed: string)
    returns (awards: seq<Award>)
    ensures awards == Winners(prizes, DrawOrder(sha, sold, seed))
  {
    var rng := new SeededRandom(sha(seed));
    var shuffled := new Ticket[|sold|](i requires 0 <= i < |sold| => sold[i]);
    assert shuffled[..] == sold;
    ShuffleInPlace(shuffled, rng);
    awards := AssignWinners(prizes, shuffled[..]);
  }

  /** What a caller sees of an outcome. */
  function Answer(outcome: Result<Lottery, Error>): Result<(), Error> {
    match outcome
    case Ok(_) => Ok(())
    case Err(e) => Err(e)
  }

  class Desk {
    const sha: string -> Digest
    const id: string
    const clientId: string
    var status: Status
    var deleted: bool
    var draws: seq<Draw>
    var winners: seq<Winner>

    constructor (sha: string -> Digest, id: string, clientId: string)
      ensures this.sha == sha
      ensures Row() == NewLottery(id, clientId) && Valid()
    {
      this.sha, this.id, this.clientId := sha, id, clientId;
      status, deleted, draws, winners := Draft, false, [], [];
    }

    function Row(): Lottery
      reads this
    {
      Lottery(id, clientId, status, deleted, draws, winners)
    }

    ghost predicate Valid()
      reads this
    {
      Consistent(sha, Row())
    }

    method PublishLottery(caller: string, prizeCount: nat) returns (r: Result<(), Error>)
      requires Valid()
      modifies this
      ensures Valid() && Row() == Step(sha, old(Row()), DoPublish(caller, prizeCount))
      ensures r == Answer(Publish(old(Row()), caller, prizeCount))
      ensures r.Ok? <==> !old(deleted) && caller == clientId && old(status) == Draft && prizeCount > 0
      ensures Row() == if r.Ok? then old(Row()).(status := Published) else old(Row())
    {
      StepKeepsConsistent(sha, Row(), DoPublish(caller, prizeCount));
      if deleted || clientId != caller {
        return Err(NotFound);
      }
      if status != Draft || prizeCount == 0 {
        return Err(BadRequest);
      }
      status := Published;
      r := Ok(());
    }

    method DeleteLottery(caller: string) returns (r: Result<(), Error>)
      requires Valid()
      modifies this
      ensures Valid() && Row() == Step(sha, old(Row()), DoDelete(caller))
      ensures r == Answer(Delete(old(Row()), caller))
      ensures r.Ok? <==> !old(deleted) && caller == clientId && old(status) == Draft
      ensures Row() == if r.Ok? then old(Row()).(deleted := true) else old(Row())
    {
      StepKeepsConsistent(sha, Row(), DoDelete(caller));
      if deleted || clientId != caller {
        return Err(NotFound);
      }
      if status != Draft {
        return Err(BadRequest);
      }
      deleted := true;
      r := Ok(());
    }

    method ArchiveLottery(caller: string) returns (r: Result<(), Error>)
      requires Valid()
      modifies this
      ensures Valid() && Row() == Step(sha, old(Row()), DoArchive(caller))
      ensures r == Answer(Archive(old(Row()), caller))
      ensures r.Ok? <==> !old(deleted) && caller == clientId && old(status) == Completed
      ensures Row() == if r.Ok? then old(Row()).(status := Archived) else old(Row())
    {
      StepKeepsConsistent(sha, Row(), DoArchive(caller));
      if deleted || clientId != caller {
        return Err(NotFound);
      }
      if status != Completed {
        return Err(BadRequest);
      }
      status := Archived;
      r := Ok(());
    }

    method CloseLottery(caller: string) returns (r: Result<(), Error>)
      requires Valid()
      modifies this
      ensures Valid() && Row() == Step(sha, old(Row()), DoClose(caller))
      ensures r == Answer(Close(old(Row()), caller))
      ensures r.Ok? <==> !old(deleted) && caller == clientId && old(status) in {Published, Selling}
      ensures Row() == if r.Ok? then old(Row()).(status := Closed) else old(Row())
    {
      StepKeepsConsistent(sha, Row(), DoClose(caller));
      if deleted || clientId != caller {
        return Err(NotFound);
      }
      if status != Selling && status != Published {
        return Err(BadRequest);
      }
      status := Closed;
      r := Ok(());
    }

    method RunRandomDraw(caller: string, prizes: seq<Prize>, sold: seq<Ticket>, seed: string, now: string)
      returns (r: Result<(), Error>)
      requires Valid() && DistinctIds(sold)
      modifies this
      ensures Valid() && Row() == Step(sha, old(Row()), DoExecuteDraw(caller, prizes, sold, seed, now))
      ensures r == Answer(ExecuteDraw(sha, old(Row()), caller, prizes, sold, seed, now))
      ensures r.Ok? <==> !old(deleted) && caller == clientId && old(status) == Closed && prizes != [] && sold != []
      ensures r.Err? ==> Row() == old(Row())
      ensures r.Ok? ==> status == Drawing && !deleted && RandomlyDrawn(winners, prizes, sold)
      ensures r.Ok? ==> draws == [Draw(RandomSystem, seed, sha(id + ":" + seed + ":" + now), now)]
    {
      RandomDrawOutcome(sha, Row(), caller, prizes, sold, seed, now);
      StepKeepsConsistent(sha, Row(), DoExecuteDraw(caller, prizes, sold, seed, now));
      if deleted || clientId != caller {
        return Err(NotFound);
      }
      if status != Closed || |prizes| == 0 || |draws| > 0 || |sold| == 0 {
        return Err(BadRequest);
      }
      var hash := GenerateDrawHash(sha, id, seed, now);
      var awards := DrawAwards(sha, prizes, sold, seed);
      draws := draws + [Draw(RandomSystem, seed, hash, now)];
      winners := winners + Unpublished(awards);
      status := Drawing;
      r := Ok(());
    }

    /** Rows are written entry by entry inside a transaction; a bad entry rolls all of them back. */
    method RecordManualDraw(caller: string, prizes: seq<Prize>, tickets: map<string, Ticket>, entries: seq<Entry>,
                            seed: string, now: string)
      returns (r: Result<(), Error>)
      requires Valid()
      modifies this
      ensures Valid() && Row() == Step(sha, old(Row()), DoManualDraw(caller, prizes, tickets, entries, seed, now))
      ensures r == Answer(ManualDraw(sha, old(Row()), caller, prizes, tickets, entries, seed, now))
      ensures r.Err? ==> Row() == old(Row())
      ensures KeyedByNumber(tickets) ==> (r.Ok? <==>
        !old(deleted) && caller == clientId && old(status) == Closed && AllRecordable(prizes, tickets, [], entries))
      ensures r.Ok? ==> status == Drawing && !deleted
      ensures r.Ok? ==> draws == [Draw(DrawMethod.Manual, seed, sha(id + ":" + seed + ":" + now), now)]
      ensures r.Ok? ==> |winners| == |entries| && forall i :: 0 <= i < |entries| ==>
        entries[i].ticketNumber in tickets && winners[i] == WinnerOf(tickets, entries[i])
    {
      hide AllRecordable, KeyedByNumber, RecordEntries, Consistent;
      NoDrawNoWinners(sha, Row());
      ManualDrawOutcome(sha, Row(), caller, prizes, tickets, entries, seed, now);
      StepKeepsConsistent(sha, Row(), DoManualDraw(caller, prizes, tickets, entries, seed, now));
      if deleted || clientId != caller {
        return Err(NotFound);
      }
      if status != Closed || |draws| > 0 {
        return Err(BadRequest);
      }
      var drawsBefore, winnersBefore := draws, winners;
      draws := draws + [Draw(DrawMethod.Manual, seed, GenerateDrawHash(sha, id, seed, now), now)];
      r := WriteEntries(prizes, tickets, entries);
      if r.Err? {
        draws, winners := drawsBefore, winnersBefore;
        return;
      }
      status := Drawing;
    }

    method WriteEntries(prizes: seq<Prize>, tickets: map<string, Ticket>, entries: seq<Entry>)
      returns (r: Result<(), Error>)
      modifies this`winners
      ensures match RecordEntries(prizes, tickets, old(winners), entries)
              case Ok(all) => r == Ok(()) && winners == all
              case Err(e) => r == Err(e)
    {
      ghost var whole := RecordEntries(prizes, tickets, winners, entries);
      assert entries[0..] == entries;
      for k := 0 to |entries|
        invariant RecordEntries(prizes, tickets, winners, entries[k..]) == whole
      {
        assert entries[k..][0] == entries[k] && entries[k..][1..] == entries[k + 1..];
        match EntryWinner(prizes, tickets, TicketIds(winners), entries[k])
        case Err(e) =>
          return Err(e);
        case Ok(w) =>
          winners := winners + [w];
      }
      r := Ok(());
    }

    method PublishDrawResults(caller: string, now: string) returns (r: Result<(), Error>)
      requires Valid()
      modifies this
      ensures Valid() && Row() == Step(sha, old(Row()), DoPublishResults(caller, now))
      ensures r == Answer(PublishResults(old(Row()), caller, now))
      ensures r.Ok? <==> !old(deleted) && caller == clientId && old(status) == Drawing
      ensures Row() == old(Row()).(status := if r.Ok? then Completed else old(status), winners := winners)
      ensures if r.Ok? then |winners| == |old(winners)| else winners == old(winners)
      ensures r.Ok? ==> forall i :: 0 <= i < |winners| ==> winners[i] == Winner(old(winners)[i].award, Some(now))
    {
      StepKeepsConsistent(sha, Row(), DoPublishResults(caller, now));
      if deleted || clientId != caller {
        return Err(NotFound);
      }
      if status != Drawing {
        return Err(BadRequest);
      }
      winners := WithPublication(winners, now);
      status := Completed;
      r := Ok(());
    }
  }
}
