/**
 A reservation reads the lottery's status before its transaction and may write SELLING at its commit: what becomes of a
 lottery closed in between.
 */
module LateCommit {
  import opened Wrappers
  import opened LotteryStatus
  import opened Sales
  import opened SkipLocked

  /** The status a commit leaves: SELLING if PUBLISHED was read at the beginning, and else whatever it is by now. */
  lemma StatusAfterCommit(sys: Sys, tx: Id)
    requires Safe(sys) && MayCommit(sys, tx)
    ensures var l := sys.inFlight[tx].req.lotteryId;
      var before, after := sys.db.lotteries, Next(sys, Commit(tx)).db.lotteries;
      && l in before && l in after
      && (after[l].status == Selling <==> sys.inFlight[tx].sawPublished || before[l].status == Selling)
      && (after[l].status != Selling ==> after[l] == before[l])
  {
  }

  /** The events that neither commit nor abort this transaction. */
  predicate LeavesOpen(events: seq<Event>, tx: Id) {
    forall i :: 0 <= i < |events| ==> events[i] != Commit(tx) && events[i] != Abort(tx)
  }

  /** What a transaction has read stays with it; only the rows it locks are added. */
  lemma NextKeepsReading(sys: Sys, e: Event, tx: Id)
    requires tx in sys.inFlight && Enabled(sys, e) && e != Commit(tx) && e != Abort(tx)
    ensures tx in Next(sys, e).inFlight
    ensures Next(sys, e).inFlight[tx].(chosen := None) == sys.inFlight[tx].(chosen := None)
  {
    hide MayLock, MayCommit, CommitTo, Step, Possible;
  }

  lemma {:induction false} RunKeepsReading(sys: Sys, between: seq<Event>, tx: Id)
    requires tx in sys.inFlight && EnabledRun(sys, between) && LeavesOpen(between, tx)
    ensures tx in RunAll(sys, between).inFlight
    ensures RunAll(sys, between).inFlight[tx].(chosen := None) == sys.inFlight[tx].(chosen := None)
    decreases |between|
  {
    if between != [] {
      NextKeepsReading(sys, between[0], tx);
      hide Enabled, Next;
      RunKeepsReading(Next(sys, between[0]), between[1..], tx);
    }
  }

  /**
   Whatever happens between the beginning of a reservation and its commit: the commit leaves the lottery SELLING exactly
   when it was PUBLISHED, so had not sold yet, at the beginning, or is SELLING anyway; otherwise it leaves the row as it
   is. So a lottery that was closed meanwhile, or closed and drawn, is open again exactly when it was PUBLISHED at the
   beginning.
   */
  lemma LateCommitReopensIff(sys: Sys, tx: Id, req: ReserveRequest, newId: Id, now: int, between: seq<Event>)
    requires Safe(sys) && MayBegin(sys, tx, req, newId, now)
    requires var begun := Next(sys, Begin(tx, req, newId, now));
      EnabledRun(begun, between) && LeavesOpen(between, tx) && MayCommit(RunAll(begun, between), tx)
    ensures var late := RunAll(Next(sys, Begin(tx, req, newId, now)), between);
      var l := req.lotteryId;
      var before, after := late.db.lotteries, Next(late, Commit(tx)).db.lotteries;
      && l in sys.db.lotteries && l in before && l in after
      && (after[l].status == Selling <==> sys.db.lotteries[l].status == Published || before[l].status == Selling)
      && (after[l].status != Selling ==> after[l] == before[l])
  {
    var begun := Next(sys, Begin(tx, req, newId, now));
    var late := RunAll(begun, between);
    NextIsSafe(sys, Begin(tx, req, newId, now));
    RunsAreSafe(begun, between);
    RunKeepsReading(begun, between, tx);
    hide Safe, MayCommit, CommitTo;
    assert late.inFlight[tx].req == req;
    assert late.inFlight[tx].sawPublished == (sys.db.lotteries[req.lotteryId].status == Published);
    StatusAfterCommit(late, tx);
  }

  const ONE_TICKET: ReserveRequest := ReserveRequest("L", 1, [], None)

  const OFFERED: Db := Db(
    map["t" := Ticket("L", "0001", Available, None, None, None)], map[], map[],
    map["L" := Lottery(Published, false, 10, 100, 0)], map[], map[])

  const CLOSED: Db := OFFERED.(lotteries := map["L" := Lottery(Closed, false, 10, 100, 0)])

  const SAW_PUBLISHED: Tx := Tx(ONE_TICKET, "r", 0, true, None)

  const HAS_LOCKED: Tx := SAW_PUBLISHED.(chosen := Some({"t"}))

  function Opening(): seq<Event> {
    [Other(CreateLottery("L", 100, 10, map["t" := "0001"])), Other(EditLottery("L", Published, false, 10, 100))]
  }

  function ClosedMeanwhile(): seq<Event> {
    [Begin("x", ONE_TICKET, "r", 0), Lock("x", {"t"}), Other(EditLottery("L", Closed, false, 10, 100)), Commit("x")]
  }

  lemma OpeningIsEnabled()
    ensures var a, b := Opening()[0], Opening()[1];
      && Enabled(Sys(EMPTY, map[]), a) && Enabled(Next(Sys(EMPTY, map[]), a), b)
      && Next(Next(Sys(EMPTY, map[]), a), b) == Sys(OFFERED, map[])
  {
  }

  lemma BeginIsEnabled()
    ensures Enabled(Sys(OFFERED, map[]), ClosedMeanwhile()[0])
    ensures Next(Sys(OFFERED, map[]), ClosedMeanwhile()[0]) == Sys(OFFERED, map["x" := SAW_PUBLISHED])
  {
  }

  lemma LockIsEnabled()
    ensures Enabled(Sys(OFFERED, map["x" := SAW_PUBLISHED]), ClosedMeanwhile()[1])
    ensures Next(Sys(OFFERED, map["x" := SAW_PUBLISHED]), ClosedMeanwhile()[1]) == Sys(OFFERED, map["x" := HAS_LOCKED])
  {
    assert AvailableIn(OFFERED, "L") == {"t"};
    assert LockedRows(Sys(OFFERED, map["x" := SAW_PUBLISHED])) == {};
  }

  lemma CloseAndCommitAreEnabled()
    ensures Enabled(Sys(OFFERED, map["x" := HAS_LOCKED]), ClosedMeanwhile()[2])
    ensures Next(Sys(OFFERED, map["x" := HAS_LOCKED]), ClosedMeanwhile()[2]) == Sys(CLOSED, map["x" := HAS_LOCKED])
    ensures Enabled(Sys(CLOSED, map["x" := HAS_LOCKED]), ClosedMeanwhile()[3])
  {
  }

  /** The run up to the close, followed by anything that can happen then. */
  lemma RunToClose(rest: seq<Event>)
    requires EnabledRun(Sys(CLOSED, map["x" := HAS_LOCKED]), rest)
    ensures EnabledRun(Sys(EMPTY, map[]), Opening() + ClosedMeanwhile()[..3] + rest)
    ensures RunAll(Sys(EMPTY, map[]), Opening() + ClosedMeanwhile()[..3] + rest)
      == RunAll(Sys(CLOSED, map["x" := HAS_LOCKED]), rest)
  {
    var a, b, events := Opening()[0], Opening()[1], ClosedMeanwhile();
    assert Opening() + events[..3] + rest == [a] + ([b] + ([events[0]] + ([events[1]] + ([events[2]] + rest))));
    hide Opening, ClosedMeanwhile, EnabledRun, RunAll, Enabled, Next, OFFERED, CLOSED, SAW_PUBLISHED, HAS_LOCKED, EMPTY;
    OpeningIsEnabled();
    BeginIsEnabled();
    LockIsEnabled();
    CloseAndCommitAreEnabled();
    EventCons(Sys(OFFERED, map["x" := HAS_LOCKED]), events[2], rest);
    EventCons(Sys(OFFERED, map["x" := SAW_PUBLISHED]), events[1], [events[2]] + rest);
    EventCons(Sys(OFFERED, map[]), events[0], [events[1]] + ([events[2]] + rest));
    EventCons(Next(Sys(EMPTY, map[]), a), b, [events[0]] + ([events[1]] + ([events[2]] + rest)));
    EventCons(Sys(EMPTY, map[]), a, [b] + ([events[0]] + ([events[1]] + ([events[2]] + rest))));
  }

  lemma CommitOnClosed()
    ensures EnabledRun(Sys(CLOSED, map["x" := HAS_LOCKED]), [ClosedMeanwhile()[3]])
    ensures RunAll(Sys(CLOSED, map["x" := HAS_LOCKED]), [ClosedMeanwhile()[3]]).db.lotteries
      == map["L" := Lottery(Selling, false, 10, 100, 0)]
  {
    CloseAndCommitAreEnabled();
    EventCons(Sys(CLOSED, map["x" := HAS_LOCKED]), ClosedMeanwhile()[3], []);
    assert [ClosedMeanwhile()[3]] + [] == [ClosedMeanwhile()[3]];
  }

  /** A run from the empty tables in which the lottery is CLOSED before the last event and SELLING after it. */
  lemma CommitReopensClosedLottery()
    ensures EnabledRun(Sys(EMPTY, map[]), Opening() + ClosedMeanwhile()[..3])
    ensures RunAll(Sys(EMPTY, map[]), Opening() + ClosedMeanwhile()[..3]).db == CLOSED
      && CLOSED.lotteries["L"].status == Closed
    ensures EnabledRun(Sys(EMPTY, map[]), Opening() + ClosedMeanwhile())
    ensures var after := RunAll(Sys(EMPTY, map[]), Opening() + ClosedMeanwhile()).db.lotteries;
      "L" in after && after["L"].status == Selling
  {
    assert Opening() + ClosedMeanwhile()[..3] + [] == Opening() + ClosedMeanwhile()[..3];
    assert Opening() + ClosedMeanwhile()[..3] + [ClosedMeanwhile()[3]] == Opening() + ClosedMeanwhile();
    RunToClose([]);
    CommitOnClosed();
    RunToClose([ClosedMeanwhile()[3]]);
  }

  const DRAWN: Db := OFFERED.(lotteries := map["L" := Lottery(Drawing, false, 10, 100, 0)])

  function DrawThenCommit(): seq<Event> {
    [Other(EditLottery("L", Drawing, false, 10, 100)), Commit("x")]
  }

  lemma DrawThenCommitIsEnabled()
    ensures EnabledRun(Sys(CLOSED, map["x" := HAS_LOCKED]), DrawThenCommit()[..1])
    ensures RunAll(Sys(CLOSED, map["x" := HAS_LOCKED]), DrawThenCommit()[..1]).db == DRAWN
    ensures EnabledRun(Sys(CLOSED, map["x" := HAS_LOCKED]), DrawThenCommit())
    ensures RunAll(Sys(CLOSED, map["x" := HAS_LOCKED]), DrawThenCommit()).db.lotteries
      == map["L" := Lottery(Selling, false, 10, 100, 0)]
  {
    var draw, commit := DrawThenCommit()[0], DrawThenCommit()[1];
    assert [draw] + [] == DrawThenCommit()[..1] && [commit] + [] == [commit] && [draw] + [commit] == DrawThenCommit();
    var closed, drawn := Sys(CLOSED, map["x" := HAS_LOCKED]), Sys(DRAWN, map["x" := HAS_LOCKED]);
    assert Enabled(closed, draw) && Next(closed, draw) == drawn && Enabled(drawn, commit);
    EventCons(drawn, commit, []);
    EventCons(closed, draw, [commit]);
    EventCons(closed, draw, []);
  }

  /** The same with the lottery already drawn: DRAWING before the last event, SELLING after it. */
  lemma CommitReopensDrawnLottery()
    ensures EnabledRun(Sys(EMPTY, map[]), Opening() + ClosedMeanwhile()[..3] + DrawThenCommit()[..1])
    ensures RunAll(Sys(EMPTY, map[]), Opening() + ClosedMeanwhile()[..3] + DrawThenCommit()[..1]).db == DRAWN
      && DRAWN.lotteries["L"].status == Drawing
    ensures EnabledRun(Sys(EMPTY, map[]), Opening() + ClosedMeanwhile()[..3] + DrawThenCommit())
    ensures var after := RunAll(Sys(EMPTY, map[]), Opening() + ClosedMeanwhile()[..3] + DrawThenCommit()).db.lotteries;
      "L" in after && after["L"].status == Selling
  {
    DrawThenCommitIsEnabled();
    hide EnabledRun, RunAll, OFFERED, HAS_LOCKED, EMPTY, Opening;
    RunToClose(DrawThenCommit()[..1]);
    RunToClose(DrawThenCommit());
  }
}
