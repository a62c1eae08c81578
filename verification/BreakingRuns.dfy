/**
 Two runs with a stale cancellation, although the lock is on and every client is in time: in one a seat is sold twice
 and the accounts do not balance, in the other two people are told that the same seat is theirs.
 */
module BreakingRuns {
  import opened Sums
  import opened Domain
  import opened SeatTable
  import opened Database
  import opened Invariants
  import opened Ownership
  import opened History
  import opened Redis
  import opened Protocol
  import opened PunctualRuns

  const CONCERT := EventRow("concert", "", "", 100, 200, 1, 0)
  const STALLS: Table := map["s" := NewSeatRow("e", "1", 7)]

  function Start(): World { OnSale("e", CONCERT, STALLS, 0) }

  function Ask(key: string): Request { Request("e", "ann", ["s"], key) }

  function Asked(): set<Request> { {Ask("k1"), Ask("k2"), Ask("k3")} }

  lemma Begins()
    ensures Reaches(Start(), Asked())
    ensures Ask("k1") in Asked() && Ask("k2") in Asked() && Ask("k3") in Asked()
  {
    hide Reaches;
    GoesOnSale("e", CONCERT, STALLS, 0, Asked());
  }

  predicate Staged(db: Db) {
    && "e" in db.events && db.events["e"] == CONCERT
    && db.seats.Keys == {"s"} && db.seats["s"].eventId == "e" && db.seats["s"].price == 7
  }

  predicate Selling(db: Db) { Staged(db) && db.seats["s"].status == Available }

  predicate NewKey(db: Db, key: string) { key != "" && |key| <= TEXT_WIDTH && !KeyTaken(db, key) }

  function Buy(key: string): Booking { NewBooking("e", "ann", key, ["s"], 7, 0) }

  predicate HeldBy(db: Db, rid: Id, st: SeatStatus)
    requires Staged(db)
  {
    db.seats["s"].status == st && db.seats["s"].reservedBy == Some(rid)
  }

  /** What buying seat s, cancelling a purchase of it and paying for it do to the tables. */
  lemma BuyTables(db: Db, key: string, rid: Id)
    requires Selling(db) && NewKey(db, key)
    ensures Execute(db, Create(rid, Buy(key))).Ok? && Tally(SeatsOf(db, "e"), ["s"]) == Ok(7)
    ensures var next := Apply(db, Create(rid, Buy(key)));
            && Staged(next) && HeldBy(next, rid, Reserved) && next.issued == db.issued + {rid}
            && next.reservations == db.reservations[rid := RowOf(Buy(key))]
  {
    assert ["s"][..0] == [];
    assert Tally(SeatsOf(db, "e"), []) == Ok(0);
    ReserveEffect(db.seats, ["s"], rid);
    CreatedTables(db, rid, Buy(key));
  }

  lemma DropTables(db: Db, b: Booking)
    requires Staged(db) && b.id in db.reservations && b.seatIds == ["s"]
    ensures var next := Apply(db, Cancel(b));
            && Selling(next) && next.seats["s"].reservedBy == None
            && next.reservations == Restated(db, b) && next.issued == db.issued
  {
    CancelledTables(db, b);
    assert b.seatIds[0] == "s";
  }

  lemma PayTables(db: Db, b: Booking)
    requires Staged(db) && HeldBy(db, b.id, Reserved) && b.id in db.reservations && b.seatIds == ["s"]
    ensures Execute(db, Confirm(b)).Ok?
    ensures var next := Apply(db, Confirm(b));
            && Staged(next) && HeldBy(next, b.id, SeatStatus.Confirmed)
            && next.reservations == Restated(db, b) && next.issued == db.issued
  {
    ConfirmEffect(db.seats, b.seatIds);
    ConfirmedTables(db, b);
    assert b.seatIds[0] == "s";
  }

  function Bought(w: World, c: nat, key: string, rid: Id, token: Id): World {
    World(w.sh.(db := Apply(w.sh.db, Create(rid, Buy(key))), cache := w.sh.cache - {"e"},
               tokens := w.sh.tokens + {token}),
          w.clients[c := Returned(Booked(Buy(key).(id := rid)))])
  }

  /** A whole purchase of seat s by client `c`, from the key check to giving the lock back. */
  lemma Buys(w: World, c: nat, key: string, rid: Id, token: Id, rs: set<Request>)
    requires Ask(key) in rs && Reaches(w, rs) && c !in w.clients && token !in w.sh.tokens && rid !in w.sh.db.issued
    requires w.sh.now == 0 && w.sh.locks == map[] && Selling(w.sh.db) && NewKey(w.sh.db, key)
    ensures Reaches(Bought(w, c, key, rid, token), rs)
  {
    hide Reaches, RedisLockKey, Tally, Execute, Apply, KeyTaken;
    var req := Ask(key);
    var lock := Some(Locked(w, req, token));
    BuyTables(w.sh.db, key, rid);
    Drafts(w, c, req, token, 7, rs);
    var w1 := World(WithLock(w, req, token), w.clients[c := CreateTx(req, lock, Buy(key))]);
    Commits(w1, c, rid, rs);
    var w2 := World(w1.sh.(db := Apply(w.sh.db, Create(rid, Buy(key)))),
                    w1.clients[c := CreateInvalidate(req, lock, Buy(key).(id := rid))]);
    Finishes(w2, c, rs);
    assert w.sh.locks[RedisLockKey(req.seatIds) := LockEntry(token, At(LOCK_TTL))] - {RedisLockKey(req.seatIds)} ==
      map[];
    assert w2.clients[c := Returned(Booked(Buy(key).(id := rid)))] == Bought(w, c, key, rid, token).clients;
  }

  function Sold(): Db { Apply(Start().sh.db, Create("r1", Buy("k1"))) }

  function Dropped(): Booking { Buy("k1").(id := "r1", status := Cancelled) }

  function Free(): Db { Apply(Sold(), Cancel(Dropped())) }

  function Resold(): Db { Apply(Free(), Create("r2", Buy("k2"))) }

  function FreeAgain(): Db { Apply(Resold(), Cancel(Dropped())) }

  function SoldTwice(): Db { Apply(FreeAgain(), Create("r3", Buy("k3"))) }

  lemma SoldAndFreed()
    ensures Selling(Start().sh.db) && NewKey(Start().sh.db, "k1")
    ensures Sold().reservations == map["r1" := RowOf(Buy("k1"))] && Sold().issued == {"e", "s", "r1"}
    ensures Staged(Sold()) && HeldBy(Sold(), "r1", Reserved)
    ensures Selling(Free()) && Free().reservations == map["r1" := RowOf(Buy("k1")).(status := Cancelled)]
    ensures Free().issued == Sold().issued
  {
    hide Apply, Execute, Tally;
    BuyTables(Start().sh.db, "k1", "r1");
    DropTables(Sold(), Dropped());
  }

  lemma Episode()
    ensures Selling(Free()) && NewKey(Free(), "k2") && "r2" !in Free().issued
    ensures "r1" in Resold().reservations
    ensures Selling(FreeAgain()) && NewKey(FreeAgain(), "k3") && "r3" !in FreeAgain().issued
    ensures SoldTwice().reservations.Keys == {"r1", "r2", "r3"}
    ensures SoldTwice().reservations["r2"] == RowOf(Buy("k2")) && SoldTwice().reservations["r3"] == RowOf(Buy("k3"))
    ensures SoldTwice().reservations["r1"].status == Cancelled
    ensures Staged(SoldTwice()) && HeldBy(SoldTwice(), "r3", Reserved)
  {
    SoldAndFreed();
    hide Apply, Execute, Tally, Sold, Free;
    BuyTables(Free(), "k2", "r2");
    DropTables(Resold(), Dropped());
    BuyTables(FreeAgain(), "k3", "r3");
  }

  /** Two reservations owe for one seat. */
  lemma Unbalanced(db: Db)
    requires db.reservations.Keys == {"r1", "r2", "r3"} && db.reservations["r1"].status == Cancelled
    requires db.reservations["r2"] == RowOf(Buy("k2")) && db.reservations["r3"] == RowOf(Buy("k3"))
    requires Staged(db) && HeldBy(db, "r3", Reserved)
    ensures Sum(Totals(db, ActiveOf(db, "e"))) == 14
    ensures Sum(Prices(db.seats, SeatsWith(db, "e", Reserved))) == 7
    ensures Sum(Prices(db.seats, SeatsWith(db, "e", SeatStatus.Confirmed))) == 0
  {
    var none: map<Id, int> := map[];
    assert ActiveOf(db, "e") == {"r2", "r3"};
    assert Totals(db, ActiveOf(db, "e")) == none["r2" := 7]["r3" := 7];
    SumInsert(none, "r2", 7);
    SumInsert(none["r2" := 7], "r3", 7);
    assert SeatsWith(db, "e", Reserved) == {"s"} && SeatsWith(db, "e", SeatStatus.Confirmed) == {};
    assert Prices(db.seats, {"s"}) == none["s" := 7] && Prices(db.seats, {}) == none;
    SumInsert(none, "s", 7);
  }

  /** Without fresh commits one seat is sold twice, lock or no lock, and two totals of 7 stand against a price of 7.
      Two cancellations of r1 read it while it is pending; one commits, the seat is sold again to r2, then the stale
      one commits and frees r2's seat for r3. */
  lemma StaleCancelSellsTwice()
    ensures exists w :: Reaches(w, Asked()) && !NoDoubleBooking(w.sh.db)
              && Sum(Totals(w.sh.db, ActiveOf(w.sh.db, "e"))) == 14
              && Sum(Prices(w.sh.db.seats, SeatsWith(w.sh.db, "e", Reserved))) == 7
              && Sum(Prices(w.sh.db.seats, SeatsWith(w.sh.db, "e", SeatStatus.Confirmed))) == 0
  {
    var rs := Asked();
    Begins();
    SoldAndFreed();
    Episode();
    hide Reaches, Apply, RedisLockKey, KeyTaken, Asked, Ask;
    var w0 := Start();
    Buys(w0, 1, "k1", "r1", "l1", rs);
    var w1 := Bought(w0, 1, "k1", "r1", "l1");
    assert Elements(["s"]) == {"s"} && Lists(["s"], w1.sh.db.reservations["r1"].seats);
    CancelReads(w1, 2, "r1", ["s"], rs);
    var w2 := World(w1.sh, w1.clients[2 := CancelTx(Dropped())]);
    CancelReads(w2, 3, "r1", ["s"], rs);
    var w3 := World(w2.sh, w2.clients[3 := CancelTx(Dropped())]);
    CancelCommits(w3, 3, rs);
    var w4 := World(w3.sh.(db := Free()), w3.clients[3 := CancelInvalidate(Dropped())]);
    Buys(w4, 4, "k2", "r2", "l2", rs);
    var w5 := Bought(w4, 4, "k2", "r2", "l2");
    CancelCommits(w5, 2, rs);
    var w6 := World(w5.sh.(db := FreeAgain()), w5.clients[2 := CancelInvalidate(Dropped())]);
    Buys(w6, 5, "k3", "r3", "l3", rs);
    var w7 := Bought(w6, 5, "k3", "r3", "l3");
    assert w7.sh.db == SoldTwice();
    Unbalanced(SoldTwice());
    assert "s" in SoldTwice().reservations["r2"].seats && "s" in SoldTwice().reservations["r3"].seats;
  }

  // ---------------------------------------------------------------- a confirmation taken back

  function Paid(key: string, rid: Id): Booking {
    Buy(key).(id := rid, status := ReservationStatus.Confirmed, confirmedAt := Some(0))
  }

  function FirstPaid(): Db { Apply(Sold(), Confirm(Paid("k1", "r1"))) }

  function TakenBack(): Db { Apply(FirstPaid(), Cancel(Dropped())) }

  function SoldOn(): Db { Apply(TakenBack(), Create("r2", Buy("k2"))) }

  function SecondPaid(): Db { Apply(SoldOn(), Confirm(Paid("k2", "r2"))) }

  lemma PaidEpisode()
    ensures Execute(Sold(), Confirm(Paid("k1", "r1"))).Ok? && "r1" in FirstPaid().reservations
    ensures Selling(TakenBack()) && NewKey(TakenBack(), "k2") && "r2" !in TakenBack().issued
    ensures "r2" in SoldOn().reservations && SoldOn().reservations["r2"] == RowOf(Buy("k2"))
    ensures Execute(SoldOn(), Confirm(Paid("k2", "r2"))).Ok? && Consistent(SecondPaid())
  {
    SoldAndFreed();
    hide Apply, Execute, Tally, Sold, Free;
    PayTables(Sold(), Paid("k1", "r1"));
    DropTables(FirstPaid(), Dropped());
    BuyTables(TakenBack(), "k2", "r2");
    PayTables(SoldOn(), Paid("k2", "r2"));
    Settles(SecondPaid());
  }

  lemma Settles(db: Db)
    requires Staged(db) && HeldBy(db, "r2", SeatStatus.Confirmed) && db.reservations.Keys == {"r1", "r2"}
    requires db.reservations["r1"].status == Cancelled && db.reservations["r2"].status == ReservationStatus.Confirmed
    requires db.reservations["r2"].seats == {"s"}
    ensures Consistent(db)
  {
    assert HoldsItsSeats(db, "r1") && HoldsItsSeats(db, "r2") && NamesItsHolder(db, "s");
  }

  /** Client `c` was told that reservation `rid` of seat s is confirmed. */
  ghost predicate ToldConfirmed(w: World, c: nat, rid: Id) {
    && c in w.clients && w.clients[c].Returned? && w.clients[c].out.Settled?
    && w.clients[c].out.b.id == rid && w.clients[c].out.b.status == ReservationStatus.Confirmed
    && "s" in w.clients[c].out.b.seatIds
  }

  /** A Cancel reads r1 while it is pending, r1 is confirmed, the stale Cancel takes that back, and the seat is sold
      to r2 and confirmed again.  Two clients have been told that seat s is theirs, and yet seats and reservations
      agree: an owner check would have let it pass. */
  lemma SeatConfirmedTwice()
    ensures exists w, c: nat, d: nat :: Reaches(w, Asked()) && ToldConfirmed(w, c, "r1") && ToldConfirmed(w, d, "r2")
              && Consistent(w.sh.db)
  {
    var rs := Asked();
    Begins();
    SoldAndFreed();
    PaidEpisode();
    hide Reaches, Apply, RedisLockKey, KeyTaken, Asked, Ask, Consistent, Execute;
    var w0 := Start();
    Buys(w0, 1, "k1", "r1", "l1", rs);
    var w1 := Bought(w0, 1, "k1", "r1", "l1");
    assert Elements(["s"]) == {"s"} && Lists(["s"], w1.sh.db.reservations["r1"].seats);
    CancelReads(w1, 2, "r1", ["s"], rs);
    var w2 := World(w1.sh, w1.clients[2 := CancelTx(Dropped())]);
    ConfirmReads(w2, 3, "r1", ["s"], rs);
    var w3 := World(w2.sh, w2.clients[3 := ConfirmTx(Paid("k1", "r1"))]);
    ConfirmCommits(w3, 3, rs);
    var w4 := World(w3.sh.(db := FirstPaid()), w3.clients[3 := Returned(Settled(Paid("k1", "r1")))]);
    CancelCommits(w4, 2, rs);
    var w5 := World(w4.sh.(db := TakenBack()), w4.clients[2 := CancelInvalidate(Dropped())]);
    Buys(w5, 4, "k2", "r2", "l2", rs);
    var w6 := Bought(w5, 4, "k2", "r2", "l2");
    ConfirmReads(w6, 5, "r2", ["s"], rs);
    var w7 := World(w6.sh, w6.clients[5 := ConfirmTx(Paid("k2", "r2"))]);
    ConfirmCommits(w7, 5, rs);
    var w8 := World(w7.sh.(db := SecondPaid()), w7.clients[5 := Returned(Settled(Paid("k2", "r2")))]);
    assert ToldConfirmed(w8, 3, "r1") && ToldConfirmed(w8, 5, "r2");
  }
}
