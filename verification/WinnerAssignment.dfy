/**
 The nested prize / quantity / skip-used loop of a draw, against the plain statement of what it
 does: the prizes in rank order, each repeated `quantity` times, zipped with the shuffled tickets.
 */
module WinnerAssignment {
  import opened Sets
  import opened Wrappers

  datatype Prize = Prize(id: string, rank: int, quantity: int)

  datatype Ticket = Ticket(id: string, buyerId: Option<string>, buyerName: Option<string>)

  datatype Award = Award(prizeId: string, ticketId: string, buyerId: Option<string>, guestName: Option<string>)

  // ---- The specification ----

  function Repeat<T>(x: T, n: int): (r: seq<T>)
    ensures |r| == if n < 0 then 0 else n
    ensures forall i :: 0 <= i < |r| ==> r[i] == x
  {
    if n <= 0 then [] else Repeat(x, n - 1) + [x]
  }

  /** One slot per prize unit, in rank order. A quantity below 1 gives no slot. */
  function Slots(prizes: seq<Prize>): seq<Prize> {
    if prizes == [] then [] else
      Slots(prizes[..|prizes| - 1]) + Repeat(prizes[|prizes| - 1], prizes[|prizes| - 1].quantity)
  }

  function Ids(tickets: seq<Ticket>): set<string> {
    set t | t in tickets :: t.id
  }

  ghost predicate DistinctIds(tickets: seq<Ticket>) {
    forall i, j :: 0 <= i < j < |tickets| ==> tickets[i].id != tickets[j].id
  }

  /** The tickets whose id has not occurred earlier. */
  function FirstUses(tickets: seq<Ticket>): seq<Ticket> {
    if tickets == [] then [] else
      var before, last := tickets[..|tickets| - 1], tickets[|tickets| - 1];
      FirstUses(before) + (if last.id in Ids(before) then [] else [last])
  }

  function AwardFor(slot: Prize, ticket: Ticket): Award {
    Award(slot.id, ticket.id, ticket.buyerId, ticket.buyerName)
  }

  function Zip(slots: seq<Prize>, tickets: seq<Ticket>): (awards: seq<Award>)
    ensures |awards| == Min(|slots|, |tickets|)
  {
    seq(Min(|slots|, |tickets|), i requires 0 <= i < Min(|slots|, |tickets|) => AwardFor(slots[i], tickets[i]))
  }

  function Winners(prizes: seq<Prize>, shuffled: seq<Ticket>): seq<Award> {
    Zip(Slots(prizes), FirstUses(shuffled))
  }

  // ---- The loop ----

  lemma IdsGrow(tickets: seq<Ticket>, i: nat)
    requires i < |tickets|
    ensures Ids(tickets[..i + 1]) == Ids(tickets[..i]) + {tickets[i].id}
    ensures FirstUses(tickets[..i + 1])
      == FirstUses(tickets[..i]) + (if tickets[i].id in Ids(tickets[..i]) then [] else [tickets[i]])
  {
    var longer := tickets[..i + 1];
    assert longer == tickets[..i] + [tickets[i]];
    assert longer[..|longer| - 1] == tickets[..i];
  }

  lemma {:induction false} FirstUsesPrefix(tickets: seq<Ticket>, i: nat)
    requires i <= |tickets|
    ensures FirstUses(tickets[..i]) <= FirstUses(tickets)
    decreases |tickets| - i
  {
    if i == |tickets| {
      assert tickets[..i] == tickets;
    } else {
      IdsGrow(tickets, i);
      FirstUsesPrefix(tickets, i + 1);
    }
  }

  lemma SlotsGrow(prizes: seq<Prize>, p: nat)
    requires p < |prizes|
    ensures Slots(prizes[..p + 1]) == Slots(prizes[..p]) + Repeat(prizes[p], prizes[p].quantity)
  {
    var longer := prizes[..p + 1];
    assert longer[..|longer| - 1] == prizes[..p];
  }

  lemma ZipGrows(slots: seq<Prize>, tickets: seq<Ticket>, slot: Prize, ticket: Ticket)
    requires |slots| == |tickets|
    ensures Zip(slots + [slot], tickets + [ticket]) == Zip(slots, tickets) + [AwardFor(slot, ticket)]
  {
  }

  lemma ZipIgnoresSurplus(slots: seq<Prize>, more: seq<Prize>, tickets: seq<Ticket>, later: seq<Ticket>)
    requires |slots| == |tickets| && (more == [] || later == [])
    ensures Zip(slots + more, tickets + later) == Zip(slots, tickets)
  {
  }

  /** The first ticketIndex tickets have been looked at, and their unused ones fill these slots. */
  ghost predicate Assigned(awards: seq<Award>, filled: seq<Prize>, shuffled: seq<Ticket>, ticketIndex: nat,
                           used: set<string>)
  {
    && ticketIndex <= |shuffled|
    && used == Ids(shuffled[..ticketIndex])
    && |filled| == |FirstUses(shuffled[..ticketIndex])|
    && awards == Zip(filled, FirstUses(shuffled[..ticketIndex]))
  }

  lemma SkipTicket(awards: seq<Award>, filled: seq<Prize>, shuffled: seq<Ticket>, ticketIndex: nat, used: set<string>)
    requires Assigned(awards, filled, shuffled, ticketIndex, used)
    requires ticketIndex < |shuffled| && shuffled[ticketIndex].id in used
    ensures Assigned(awards, filled, shuffled, ticketIndex + 1, used)
  {
    IdsGrow(shuffled, ticketIndex);
  }

  lemma AwardTicket(awards: seq<Award>, filled: seq<Prize>, shuffled: seq<Ticket>, ticketIndex: nat, used: set<string>,
                    prize: Prize)
    requires Assigned(awards, filled, shuffled, ticketIndex, used)
    requires ticketIndex < |shuffled| && shuffled[ticketIndex].id !in used
    ensures Assigned(awards + [AwardFor(prize, shuffled[ticketIndex])], filled + [prize], shuffled,
                     ticketIndex + 1, used + {shuffled[ticketIndex].id})
  {
    IdsGrow(shuffled, ticketIndex);
    ZipGrows(filled, FirstUses(shuffled[..ticketIndex]), prize, shuffled[ticketIndex]);
  }

  method NextUnused(shuffled: seq<Ticket>, used: set<string>, start: nat, ghost awards: seq<Award>,
                    ghost filled: seq<Prize>)
    returns (ticketIndex: nat)
    requires Assigned(awards, filled, shuffled, start, used)
    ensures start <= ticketIndex && Assigned(awards, filled, shuffled, ticketIndex, used)
    ensures ticketIndex < |shuffled| ==> shuffled[ticketIndex].id !in used
  {
    ticketIndex := start;
    while ticketIndex < |shuffled| && shuffled[ticketIndex].id in used
      invariant start <= ticketIndex && Assigned(awards, filled, shuffled, ticketIndex, used)
      decreases |shuffled| - ticketIndex
    {
      SkipTicket(awards, filled, shuffled, ticketIndex, used);
      ticketIndex := ticketIndex + 1;
    }
  }

  function Units(prize: Prize): nat {
    if prize.quantity < 0 then 0 else prize.quantity
  }

  /** The loop over q for one prize; it stops early when the tickets run out. */
  method AwardPrize(prize: Prize, shuffled: seq<Ticket>, usedBefore: set<string>, start: nat, winners: seq<Award>,
                    ghost filled: seq<Prize>)
    returns (prizeWinners: seq<Award>, used: set<string>, ticketIndex: nat)
    requires Assigned(winners, filled, shuffled, start, usedBefore)
    ensures |prizeWinners| <= Units(prize) && (|prizeWinners| < Units(prize) ==> ticketIndex == |shuffled|)
    ensures start == |shuffled| ==> prizeWinners == [] && ticketIndex == |shuffled|
    ensures Assigned(winners + prizeWinners, filled + Repeat(prize, |prizeWinners|), shuffled, ticketIndex, used)
  {
    prizeWinners, used, ticketIndex := [], usedBefore, start;
    assert winners + [] == winners && filled + [] == filled;
    var q := 0;
    while q < prize.quantity
      invariant 0 <= q == |prizeWinners| <= Units(prize)
      invariant start == |shuffled| ==> prizeWinners == [] && ticketIndex == |shuffled|
      invariant Assigned(winners + prizeWinners, filled + Repeat(prize, |prizeWinners|), shuffled, ticketIndex, used)
    {
      ticketIndex := NextUnused(shuffled, used, ticketIndex, winners + prizeWinners, filled + Repeat(prize, q));
      if ticketIndex >= |shuffled| {
        break;
      }
      var winnerTicket := shuffled[ticketIndex];
      AwardTicket(winners + prizeWinners, filled + Repeat(prize, q), shuffled, ticketIndex, used, prize);
      ghost var award := AwardFor(prize, winnerTicket);
      assert winners + prizeWinners + [award] == winners + (prizeWinners + [award]);
      assert filled + Repeat(prize, q) + [prize] == filled + Repeat(prize, q + 1);
      used := used + {winnerTicket.id};
      ticketIndex := ticketIndex + 1;
      prizeWinners := prizeWinners
        + [Award(prize.id, winnerTicket.id, winnerTicket.buyerId, winnerTicket.buyerName)];
      q := q + 1;
    }
  }

  method AssignWinners(prizes: seq<Prize>, shuffled: seq<Ticket>) returns (winners: seq<Award>)
    ensures winners == Winners(prizes, shuffled)
  {
    winners := [];
    var usedTicketIds: set<string> := {};
    var ticketIndex := 0;
    ghost var filled: seq<Prize> := [];
    ghost var unfilled: seq<Prize> := [];
    for p := 0 to |prizes|
      invariant Assigned(winners, filled, shuffled, ticketIndex, usedTicketIds)
      invariant Slots(prizes[..p]) == filled + unfilled
      invariant unfilled != [] ==> ticketIndex == |shuffled|
    {
      var prizeWinners;
      prizeWinners, usedTicketIds, ticketIndex :=
        AwardPrize(prizes[p], shuffled, usedTicketIds, ticketIndex, winners, filled);
      winners := winners + prizeWinners;
      ghost var count := |prizeWinners|;
      SlotsAfterPrize(prizes, p, filled, unfilled, count);
      filled := filled + Repeat(prizes[p], count);
      unfilled := unfilled + Repeat(prizes[p], Units(prizes[p]) - count);
    }
    assert prizes[..|prizes|] == prizes;
    FinishedLoop(prizes, shuffled, filled, unfilled, ticketIndex);
  }

  lemma SlotsAfterPrize(prizes: seq<Prize>, p: nat, filled: seq<Prize>, unfilled: seq<Prize>, count: nat)
    requires p < |prizes| && count <= Units(prizes[p])
    requires Slots(prizes[..p]) == filled + unfilled && (unfilled != [] ==> count == 0)
    ensures Slots(prizes[..p + 1])
         == filled + Repeat(prizes[p], count) + (unfilled + Repeat(prizes[p], Units(prizes[p]) - count))
  {
    SlotsGrow(prizes, p);
    RepeatSplits(prizes[p], count, prizes[p].quantity);
  }

  lemma RepeatSplits<T>(x: T, q: nat, n: int)
    requires q <= if n < 0 then 0 else n
    ensures Repeat(x, n) == Repeat(x, q) + Repeat(x, if n < 0 then 0 else n - q)
  {
  }

  lemma FinishedLoop(prizes: seq<Prize>, shuffled: seq<Ticket>, filled: seq<Prize>, unfilled: seq<Prize>,
                     ticketIndex: nat)
    requires ticketIndex <= |shuffled| && Slots(prizes) == filled + unfilled
    requires |filled| == |FirstUses(shuffled[..ticketIndex])|
    requires unfilled != [] ==> ticketIndex == |shuffled|
    ensures Zip(filled, FirstUses(shuffled[..ticketIndex])) == Winners(prizes, shuffled)
  {
    var used := FirstUses(shuffled[..ticketIndex]);
    FirstUsesPrefix(shuffled, ticketIndex);
    var later := FirstUses(shuffled)[|used|..];
    assert FirstUses(shuffled) == used + later;
    if unfilled != [] {
      assert shuffled[..ticketIndex] == shuffled;
    }
    ZipIgnoresSurplus(filled, unfilled, used, later);
  }

  // ---- What the specification promises ----

  lemma {:induction false} NothingToSkip(tickets: seq<Ticket>)
    requires DistinctIds(tickets)
    ensures FirstUses(tickets) == tickets
  {
    if tickets != [] {
      assert tickets == tickets[..|tickets| - 1] + [tickets[|tickets| - 1]];
      NothingToSkip(tickets[..|tickets| - 1]);
    }
  }

  lemma {:induction false} FirstUsesAreDistinct(tickets: seq<Ticket>)
    ensures DistinctIds(FirstUses(tickets))
    ensures Ids(FirstUses(tickets)) == Ids(tickets)
    ensures forall t :: t in FirstUses(tickets) ==> t in tickets
  {
    if tickets != [] {
      var before, last := tickets[..|tickets| - 1], tickets[|tickets| - 1];
      FirstUsesAreDistinct(before);
      assert tickets == before + [last];
      assert Ids(tickets) == Ids(before) + {last.id};
      assert Ids(FirstUses(before) + [last]) == Ids(FirstUses(before)) + {last.id};
    }
  }

  function TotalQuantity(prizes: seq<Prize>): nat {
    if prizes == [] then 0 else
      TotalQuantity(prizes[..|prizes| - 1]) + Units(prizes[|prizes| - 1])
  }

  lemma {:induction false} SlotCount(prizes: seq<Prize>)
    ensures |Slots(prizes)| == TotalQuantity(prizes)
  {
    if prizes != [] {
      SlotCount(prizes[..|prizes| - 1]);
    }
  }

  /** The sold tickets win at most once each, and exactly as many win as there are slots or tickets. */
  lemma WinnersAreDistinctSoldTickets(prizes: seq<Prize>, shuffled: seq<Ticket>)
    requires DistinctIds(shuffled)
    ensures |Winners(prizes, shuffled)| == Min(TotalQuantity(prizes), |shuffled|)
    ensures forall i :: 0 <= i < |Winners(prizes, shuffled)| ==>
      Winners(prizes, shuffled)[i]
        == Award(Slots(prizes)[i].id, shuffled[i].id, shuffled[i].buyerId, shuffled[i].buyerName)
    ensures forall i, j :: 0 <= i < j < |Winners(prizes, shuffled)| ==>
      Winners(prizes, shuffled)[i].ticketId != Winners(prizes, shuffled)[j].ticketId
  {
    NothingToSkip(shuffled);
    SlotCount(prizes);
  }

  /** How many of the first n slots belong to position p of the prize list. */
  function UnitsFilled(prizes: seq<Prize>, p: nat, n: nat): nat
    requires p < |prizes|
  {
    var before := TotalQuantity(prizes[..p]);
    if n <= before then 0 else Min(Units(prizes[p]), n - before)
  }

  lemma {:induction false} QuantitiesAccumulate(prizes: seq<Prize>, p: nat, q: nat)
    requires p < q <= |prizes|
    ensures TotalQuantity(prizes[..p]) + Units(prizes[p]) <= TotalQuantity(prizes[..q])
    decreases q
  {
    var longer := prizes[..q];
    assert longer[..|longer| - 1] == prizes[..q - 1];
    if p < q - 1 {
      QuantitiesAccumulate(prizes, p, q - 1);
    }
  }

  /** The slots of position p are the stretch that starts after all slots of the positions before it. */
  lemma {:induction false} SlotsOfPrize(prizes: seq<Prize>, p: nat, i: nat)
    requires p < |prizes|
    requires TotalQuantity(prizes[..p]) <= i < TotalQuantity(prizes[..p]) + Units(prizes[p])
    ensures i < |Slots(prizes)| && Slots(prizes)[i] == prizes[p]
    decreases |prizes|
  {
    var before := prizes[..|prizes| - 1];
    SlotCount(before);
    SlotCount(prizes);
    QuantitiesAccumulate(prizes, p, |prizes|);
    assert prizes[..|prizes|] == prizes;
    if p == |prizes| - 1 {
      assert Slots(prizes)[i] == Repeat(prizes[p], prizes[p].quantity)[i - |Slots(before)|];
    } else {
      assert before[..p] == prizes[..p];
      SlotsOfPrize(before, p, i);
    }
  }

  /** `UnitsFilled` is what the draw really hands out: the winners of position p are this many consecutive tickets. */
  lemma WinnersOfPrize(prizes: seq<Prize>, shuffled: seq<Ticket>, p: nat, i: nat)
    requires DistinctIds(shuffled) && p < |prizes|
    requires TotalQuantity(prizes[..p]) <= i < TotalQuantity(prizes[..p]) + UnitsFilled(prizes, p, |shuffled|)
    ensures i < |Winners(prizes, shuffled)|
    ensures Winners(prizes, shuffled)[i]
      == Award(prizes[p].id, shuffled[i].id, shuffled[i].buyerId, shuffled[i].buyerName)
  {
    SlotsOfPrize(prizes, p, i);
    WinnersAreDistinctSoldTickets(prizes, shuffled);
    SlotCount(prizes);
  }

  /** Place i of the winner list belongs to position p of the prize list, with n tickets. */
  predicate InStretch(prizes: seq<Prize>, p: int, n: nat, i: nat) {
    0 <= p < |prizes| && TotalQuantity(prizes[..p]) <= i < TotalQuantity(prizes[..p]) + UnitsFilled(prizes, p, n)
  }

  /** And nothing else is handed out. */
  lemma {:induction false} EveryWinnerBelongsToAPrize(prizes: seq<Prize>, n: nat, i: nat)
    requires i < Min(TotalQuantity(prizes), n)
    ensures exists p :: InStretch(prizes, p, n, i)
    decreases |prizes|
  {
    var last := |prizes| - 1;
    var before := prizes[..last];
    if i < TotalQuantity(before) {
      EveryWinnerBelongsToAPrize(before, n, i);
      var p :| InStretch(before, p, n, i);
      assert before[..p] == prizes[..p];
      assert InStretch(prizes, p, n, i);
    } else {
      assert InStretch(prizes, last, n, i);
    }
  }

  /** The places in the winner list that went to a prize. */
  ghost function PlacesOf(awards: seq<Award>, prizeId: string): set<int> {
    set i | 0 <= i < |awards| && awards[i].prizeId == prizeId
  }

  ghost predicate DistinctPrizes(prizes: seq<Prize>) {
    forall p, q :: 0 <= p < q < |prizes| ==> prizes[p].id != prizes[q].id
  }

  /** A winner's prize id tells the stretch of the list it is in. */
  lemma PrizeOfPlace(prizes: seq<Prize>, shuffled: seq<Ticket>, p: nat, i: nat)
    requires DistinctIds(shuffled) && DistinctPrizes(prizes) && p < |prizes| && i < |Winners(prizes, shuffled)|
    ensures Winners(prizes, shuffled)[i].prizeId == prizes[p].id
       <==> InStretch(prizes, p, |shuffled|, i)
  {
    WinnersAreDistinctSoldTickets(prizes, shuffled);
    EveryWinnerBelongsToAPrize(prizes, |shuffled|, i);
    var q :| InStretch(prizes, q, |shuffled|, i);
    hide Winners, UnitsFilled, TotalQuantity;
    WinnersOfPrize(prizes, shuffled, q, i);
    if InStretch(prizes, p, |shuffled|, i) {
      WinnersOfPrize(prizes, shuffled, p, i);
    }
  }

  /** How many winners each prize has: its units, as far as the tickets reach. */
  lemma WinnersPerPrize(prizes: seq<Prize>, shuffled: seq<Ticket>, p: nat)
    requires DistinctIds(shuffled) && DistinctPrizes(prizes) && p < |prizes|
    ensures |PlacesOf(Winners(prizes, shuffled), prizes[p].id)| == UnitsFilled(prizes, p, |shuffled|)
  {
    var places := PlacesOf(Winners(prizes, shuffled), prizes[p].id);
    var first, count := TotalQuantity(prizes[..p]), UnitsFilled(prizes, p, |shuffled|);
    forall i
      ensures i in places <==> first <= i < first + count
    {
      if 0 <= i < |Winners(prizes, shuffled)| {
        PrizeOfPlace(prizes, shuffled, p, i);
      } else if first <= i < first + count {
        WinnersOfPrize(prizes, shuffled, p, i);
      }
    }
    IntervalSize(first, first + count, places);
  }

  /** With prizes in rank order, a prize has a winner only if every higher-ranked one has all its winners. */
  lemma HigherRanksFillFirst(prizes: seq<Prize>, shuffled: seq<Ticket>, p: nat, q: nat)
    requires DistinctIds(shuffled) && DistinctPrizes(prizes)
    requires forall i, j :: 0 <= i < j < |prizes| ==> prizes[i].rank <= prizes[j].rank
    requires p < |prizes| && q < |prizes| && prizes[p].rank < prizes[q].rank
    requires PlacesOf(Winners(prizes, shuffled), prizes[q].id) != {}
    ensures |PlacesOf(Winners(prizes, shuffled), prizes[p].id)| == Units(prizes[p])
  {
    WinnersPerPrize(prizes, shuffled, p);
    WinnersPerPrize(prizes, shuffled, q);
    QuantitiesAccumulate(prizes, p, q);
  }
}
