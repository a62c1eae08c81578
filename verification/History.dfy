/**
 What the tables record about the past: a seat's version counts every status change it went through,
 and money and seats balance.
 */
module History {
  import opened Sums
  import opened Domain
  import opened SeatTable
  import opened Database
  import opened Invariants
  import opened Ownership

  /** A pending reservation has touched each of its seats once, a settled one twice. */
  function Weight(st: ReservationStatus): int {
    if st == Pending then 1 else 2
  }

  ghost function Weights(db: Db, s: Id): map<Id, int> {
    map r | r in db.reservations && s in db.reservations[r].seats :: Weight(db.reservations[r].status)
  }

  ghost predicate Versions(db: Db) {
    forall s :: s in db.seats ==> db.seats[s].version == Sum(Weights(db, s))
  }

  lemma WeightsKept(db: Db, next: Db, rid: Id, s: Id)
    requires forall r :: r != rid ==> (r in next.reservations <==> r in db.reservations)
    requires forall r :: r != rid && r in db.reservations ==> next.reservations[r] == db.reservations[r]
    requires rid in next.reservations
              && (rid in db.reservations ==> db.reservations[rid].seats == next.reservations[rid].seats)
    ensures s !in next.reservations[rid].seats ==> Weights(next, s) == Weights(db, s)
    ensures s in next.reservations[rid].seats ==>
              Sum(Weights(next, s)) == Sum(Weights(db, s)) + Weight(next.reservations[rid].status)
                                       - if rid in db.reservations then Weight(db.reservations[rid].status) else 0
  {
    var was, w := Weights(db, s), Weight(next.reservations[rid].status);
    if s in next.reservations[rid].seats {
      assert Weights(next, s) == was[rid := w];
      if rid in db.reservations { SumUpdate(was, rid, w); } else { SumInsert(was, rid, w); }
    } else {
      assert Weights(next, s) == was;
    }
  }

  lemma CreateVersions(db: Db, rid: Id, b: Booking)
    requires Versions(db) && rid !in db.reservations && b.status == Pending
    ensures Versions(Apply(db, Create(rid, b)))
  {
    if Execute(db, Create(rid, b)).Ok? {
      CreatedTables(db, rid, b);
      CreatedVersions(db, rid, b, Apply(db, Create(rid, b)));
    }
  }

  lemma CreatedVersions(db: Db, rid: Id, b: Booking, next: Db)
    requires Versions(db) && rid !in db.reservations && b.status == Pending
    requires next.reservations == db.reservations[rid := RowOf(b)] && next.seats.Keys == db.seats.Keys
    requires forall s :: s in db.seats ==>
               next.seats[s].version == if s in b.seatIds then db.seats[s].version + 1 else db.seats[s].version
    ensures Versions(next)
  {
    forall s | s in next.seats ensures next.seats[s].version == Sum(Weights(next, s)) {
      assert s in b.seatIds <==> s in Elements(b.seatIds);
      WeightsKept(db, next, rid, s);
    }
  }

  /** A settling commit gives each of its seats one more version tick and the reservation weight two. */
  lemma SettledVersions(db: Db, b: Booking, next: Db)
    requires Versions(db) && SnapshotAgrees(db, b) && b.status != Pending && b.seatIds != []
    requires next.reservations == Restated(db, b) && next.seats.Keys == db.seats.Keys
    requires forall s :: s in b.seatIds ==> s in db.seats
    requires forall s :: s in db.seats ==>
               next.seats[s].version == if s in b.seatIds then db.seats[s].version + 1 else db.seats[s].version
    ensures Versions(next) <==> db.reservations[b.id].status == Pending
  {
    ListedSeats(db, b);
    forall s | s in next.seats
      ensures Sum(Weights(next, s)) ==
                Sum(Weights(db, s)) + if s in b.seatIds then 2 - Weight(db.reservations[b.id].status) else 0
    {
      WeightsKept(db, next, b.id, s);
    }
    assert b.seatIds[0] in db.seats && b.seatIds[0] in next.seats;
  }

  lemma CatalogueVersions(db: Db, next: Db)
    requires Versions(db) && next.reservations == db.reservations
    requires forall r, s :: r in db.reservations && s in db.reservations[r].seats ==> s in db.seats
    requires forall s :: s in next.seats ==>
               next.seats[s].version == if s in db.seats then db.seats[s].version else 0
    ensures Versions(next)
  {
    forall s | s in next.seats ensures next.seats[s].version == Sum(Weights(next, s)) {
      assert Weights(next, s) == Weights(db, s);
      if s !in db.seats { assert Weights(db, s) == map[]; }
    }
  }

  lemma ReservedSeatsStored(db: Db)
    requires Linked(db)
    ensures forall r, s :: r in db.reservations && s in db.reservations[r].seats ==> s in db.seats
  {
    forall r | r in db.reservations ensures db.reservations[r].seats <= db.seats.Keys {
      assert RowLinked(db, db.reservations[r]);
    }
  }

  lemma ConfirmVersions(db: Db, b: Booking)
    requires Versions(db) && SnapshotAgrees(db, b) && b.status == ReservationStatus.Confirmed && b.seatIds != []
    requires forall s :: s in b.seatIds ==> s in db.seats
    ensures Versions(Apply(db, Confirm(b))) <==> Execute(db, Confirm(b)).Err? || Fresh(db, Confirm(b))
  {
    if ConfirmSeats(db.seats, b.seatIds).Ok? {
      ConfirmedTables(db, b);
      SettledVersions(db, b, Apply(db, Confirm(b)));
    }
  }

  lemma CancelVersions(db: Db, b: Booking)
    requires Versions(db) && SnapshotAgrees(db, b) && b.status == Cancelled && b.seatIds != []
    requires forall s :: s in b.seatIds ==> s in db.seats
    ensures Versions(Apply(db, Cancel(b))) <==> Fresh(db, Cancel(b))
    ensures Execute(db, Cancel(b)).Ok?
  {
    CancelledTables(db, b);
    SettledVersions(db, b, Apply(db, Cancel(b)));
  }

  /** Versions stay exact through a commit exactly when it was rolled back or found its reservation still pending. */
  lemma {:induction false} VersionsExact(db: Db, k: Commit)
    requires Linked(db) && Versions(db) && Agrees(db, k)
    ensures Versions(Apply(db, k)) <==> Execute(db, k).Err? || Fresh(db, k)
  {
    if k.Create? {
      CreateVersions(db, k.rid, k.b);
    } else if k.Confirm? {
      ListedSeatsStored(db, k.b);
      ConfirmVersions(db, k.b);
    } else if k.Cancel? {
      ListedSeatsStored(db, k.b);
      CancelVersions(db, k.b);
    } else {
      ReservedSeatsStored(db);
      CatalogueTables(db, k);
      CatalogueVersions(db, Apply(db, k));
    }
  }

  lemma {:induction false} EvenSum<K>(m: map<K, int>)
    requires forall k :: k in m ==> m[k] == 2
    ensures Sum(m) % 2 == 0
    decreases m.Keys
  {
    if m != map[] {
      var k :| k in m.Keys;
      SumRemove(m, k);
      EvenSum(m - {k});
    }
  }

  /** An odd version means the seat is on hold right now. */
  lemma OddMeansReserved(db: Db, s: Id)
    requires Consistent(db) && Versions(db) && s in db.seats
    ensures db.seats[s].version % 2 == 1 <==> db.seats[s].status == Reserved
  {
    assert NamesItsHolder(db, s);
    var ws := Weights(db, s);
    forall r | r in ws && db.reservations[r].status == Pending
      ensures db.seats[s].reservedBy == Some(r) && db.seats[s].status == Reserved
    {
      assert HoldsItsSeats(db, r);
    }
    if db.seats[s].status == Reserved {
      var r := db.seats[s].reservedBy.value;
      assert HoldsItsSeats(db, r);
      SumRemove(ws, r);
      EvenSum(ws - {r});
    } else {
      EvenSum(ws);
    }
  }

  // ---------------------------------------------------------------- money and seats

  ghost function ActiveOf(db: Db, e: Id): set<Id> {
    set r | r in db.reservations && Active(db.reservations[r].status) && db.reservations[r].eventId == e
  }

  ghost function Totals(db: Db, rs: set<Id>): map<Id, int> {
    map r | r in rs && r in db.reservations :: db.reservations[r].total
  }

  /** The seats held by reservations in `rs`. */
  ghost function HeldBy(db: Db, rs: set<Id>): set<Id> {
    set s | s in db.seats && db.seats[s].reservedBy.Some? && db.seats[s].reservedBy.value in rs
  }

  lemma HeldByOne(db: Db, r: Id)
    requires Consistent(db) && r in db.reservations && Active(db.reservations[r].status)
    ensures HeldBy(db, {r}) == db.reservations[r].seats
  {
    assert HoldsItsSeats(db, r);
    assert forall s :: s in HeldBy(db, {r}) ==> NamesItsHolder(db, s);
  }

  lemma PricesUnion(seats: Table, a: set<Id>, b: set<Id>)
    requires a !! b
    ensures Sum(Prices(seats, a + b)) == Sum(Prices(seats, a)) + Sum(Prices(seats, b))
  {
    assert Prices(seats, a + b) == Prices(seats, a) + Prices(seats, b);
    SumUnion(Prices(seats, a), Prices(seats, b));
  }

  lemma {:induction false} TotalsArePrices(db: Db, rs: set<Id>)
    requires Consistent(db)
    requires forall r :: r in rs ==>
               r in db.reservations && Active(db.reservations[r].status) && RowPriced(db, db.reservations[r])
    ensures Sum(Totals(db, rs)) == Sum(Prices(db.seats, HeldBy(db, rs)))
    decreases rs
  {
    if rs == {} {
      assert Totals(db, rs) == map[] && Prices(db.seats, HeldBy(db, rs)) == map[];
    } else {
      var r :| r in rs;
      var rest := rs - {r};
      TotalsArePrices(db, rest);
      TotalsInsert(db, rest, r);
      HeldByOne(db, r);
      assert HeldBy(db, rs) == HeldBy(db, rest) + HeldBy(db, {r});
      PricesUnion(db.seats, HeldBy(db, rest), HeldBy(db, {r}));
      assert rs == rest + {r};
    }
  }

  lemma TotalsInsert(db: Db, rest: set<Id>, r: Id)
    requires r !in rest && r in db.reservations
    ensures Sum(Totals(db, rest + {r})) == Sum(Totals(db, rest)) + db.reservations[r].total
  {
    assert Totals(db, rest + {r}) == Totals(db, rest)[r := db.reservations[r].total];
    SumInsert(Totals(db, rest), r, db.reservations[r].total);
  }

  ghost function SeatsWith(db: Db, e: Id, st: SeatStatus): set<Id> {
    set s | s in db.seats && db.seats[s].eventId == e && db.seats[s].status == st
  }

  /** The number the service counts is the number of seats in status available. */
  lemma CountIsSeats(db: Db, e: Id)
    ensures CountAvailable(db, e) == |SeatsWith(db, e, Available)|
  {
    assert AvailableSeats(db, e) == SeatsWith(db, e, Available);
  }

  /** Per event, active reservations are owed exactly the prices of the seats that are not available. */
  lemma MoneyConserved(db: Db, e: Id)
    requires Wf(db) && Consistent(db)
    ensures Sum(Totals(db, ActiveOf(db, e))) ==
            Sum(Prices(db.seats, SeatsWith(db, e, Reserved)))
            + Sum(Prices(db.seats, SeatsWith(db, e, SeatStatus.Confirmed)))
  {
    TotalsArePrices(db, ActiveOf(db, e));
    HeldSeats(db, e);
    PricesUnion(db.seats, SeatsWith(db, e, Reserved), SeatsWith(db, e, SeatStatus.Confirmed));
  }

  lemma HeldSeats(db: Db, e: Id)
    requires Linked(db) && Consistent(db)
    ensures HeldBy(db, ActiveOf(db, e)) == SeatsWith(db, e, Reserved) + SeatsWith(db, e, SeatStatus.Confirmed)
  {
    forall s | s in db.seats
      ensures s in HeldBy(db, ActiveOf(db, e)) <==> db.seats[s].status != Available && db.seats[s].eventId == e
    {
      assert NamesItsHolder(db, s);
      if db.seats[s].reservedBy.Some? {
        var r := db.seats[s].reservedBy.value;
        assert HoldsItsSeats(db, r) && RowLinked(db, db.reservations[r]);
      }
    }
  }

  /** Every seat of an event is in exactly one of the three statuses. */
  lemma SeatsConserved(db: Db, e: Id)
    ensures |SeatsWith(db, e, Available)| + |SeatsWith(db, e, Reserved)| + |SeatsWith(db, e, SeatStatus.Confirmed)|
            == |set s | s in db.seats && db.seats[s].eventId == e|
  {
    assert (set s | s in db.seats && db.seats[s].eventId == e) ==
           SeatsWith(db, e, Available) + SeatsWith(db, e, Reserved) + SeatsWith(db, e, SeatStatus.Confirmed);
  }
}
