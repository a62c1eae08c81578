/**
 What every commit keeps.  `Wf` holds whatever clients do.  `Consistent` (seats and reservations agree on
 who holds what) and `Versions` (a seat's version is its exact history count) hold exactly as long as
 Confirm and Cancel commits meet the guards the SQL leaves out.
 */
module Invariants {
  import opened Sums
  import opened Domain
  import opened SeatTable
  import opened Database

  predicate Active(st: ReservationStatus) { st != Cancelled }

  function HeldAs(st: ReservationStatus): SeatStatus
    requires Active(st)
  {
    if st == Pending then Reserved else SeatStatus.Confirmed
  }

  ghost function Prices(seats: Table, ids: set<Id>): map<Id, int> {
    map s | s in ids && s in seats :: seats[s].price
  }

  // ---------------------------------------------------------------- structure

  ghost predicate KeysUnique(db: Db) {
    forall q, r :: q in db.reservations && r in db.reservations && db.reservations[q].key == db.reservations[r].key ==>
      q == r
  }

  /** The foreign keys, and that a reservation's seats all belong to its event. */
  ghost predicate RowLinked(db: Db, row: ReservationRow) {
    && row.eventId in db.events
    && row.seats != {}
    && row.key != "" && row.expiresAt == row.createdAt + RESERVATION_EXPIRATION
    && forall s :: s in row.seats ==> s in db.seats && db.seats[s].eventId == row.eventId
  }

  ghost predicate Linked(db: Db) {
    && db.events.Keys + db.seats.Keys + db.reservations.Keys <= db.issued
    && (forall s :: s in db.seats ==> db.seats[s].eventId in db.events)
    && (forall r :: r in db.reservations ==> RowLinked(db, db.reservations[r]))
  }

  ghost predicate RowPriced(db: Db, row: ReservationRow) {
    row.total == Sum(Prices(db.seats, row.seats))
  }

  ghost predicate Wf(db: Db) {
    && Linked(db)
    && KeysUnique(db)
    && forall r :: r in db.reservations ==> RowPriced(db, db.reservations[r])
  }

  /** What a commit needs to be built from an earlier, possibly stale, read of the same database. */
  ghost predicate CreateAgrees(db: Db, b: Booking) {
    && b.Validate().None? && b.status == Pending && b.expiresAt == b.createdAt + RESERVATION_EXPIRATION
    && (forall s :: s in b.seatIds && s in db.seats ==> db.seats[s].eventId == b.eventId)
    && (Distinct(b.seatIds) && Elements(b.seatIds) <= db.seats.Keys ==>
          b.total == Sum(Prices(db.seats, Elements(b.seatIds))))
  }

  ghost predicate SnapshotAgrees(db: Db, b: Booking) {
    b.id in db.reservations && Lists(b.seatIds, db.reservations[b.id].seats)
  }

  predicate FreshSeat(row: SeatRow) {
    row.status == Available && row.reservedBy == None && row.version == 0
  }

  ghost predicate Agrees(db: Db, k: Commit) {
    match k
    case Create(rid, b) => rid !in db.issued && CreateAgrees(db, b)
    case Confirm(b) => SnapshotAgrees(db, b) && b.status == ReservationStatus.Confirmed
    case Cancel(b) => SnapshotAgrees(db, b) && b.status == Cancelled
    case AddEvent(id, row) => id !in db.issued
    case AddSeats(rows) => rows.Keys !! db.issued && forall s :: s in rows ==> FreshSeat(rows[s])
    case ChangeEvent(id, row) => true
    case RemoveEvent(id) => true
  }

  /** Same seats, same event, number and price; only status, holder and version may differ. */
  ghost predicate SameCatalogue(a: Table, b: Table) {
    a.Keys == b.Keys &&
    forall s :: s in a ==> a[s].eventId == b[s].eventId && a[s].number == b[s].number && a[s].price == b[s].price
  }

  /** Same reservation apart from status and confirmation time. */
  predicate SameTerms(a: ReservationRow, b: ReservationRow) {
    a.(status := b.status, confirmedAt := b.confirmedAt) == b
  }

  /** How any number of commits can move the tables: reservations stay on their terms, ids are never reused. */
  ghost predicate Evolves(db: Db, next: Db) {
    && db.issued <= next.issued
    && (forall r :: r in db.reservations ==>
        r in next.reservations && SameTerms(db.reservations[r], next.reservations[r]))
    && (forall s :: s in db.seats && s in next.seats ==>
          && db.seats[s].eventId == next.seats[s].eventId
          && db.seats[s].number == next.seats[s].number
          && db.seats[s].price == next.seats[s].price)
    && (forall s :: s in next.seats && s in db.issued ==> s in db.seats)
    && (forall e :: e in next.events && e in db.issued ==> e in db.events)
  }

  lemma SamePrices(a: Table, b: Table, ids: set<Id>)
    requires forall s :: s in ids ==> (s in a <==> s in b)
    requires forall s :: s in ids && s in a && s in b ==> a[s].price == b[s].price
    ensures Prices(a, ids) == Prices(b, ids)
  {
  }

  // ---------------------------------------------------------------- the tables after a commit, written out

  function Restated(db: Db, b: Booking): map<Id, ReservationRow>
    requires b.id in db.reservations
  {
    db.reservations[b.id := db.reservations[b.id].(status := b.status, confirmedAt := b.confirmedAt)]
  }

  lemma CreatedTables(db: Db, rid: Id, b: Booking)
    requires Execute(db, Create(rid, b)).Ok?
    ensures AllIn(db.seats, b.seatIds, Available)
    ensures Apply(db, Create(rid, b)) ==
            db.(reservations := db.reservations[rid := RowOf(b)], issued := db.issued + {rid},
                seats := map s | s in db.seats :: if s in b.seatIds then ReservedRow(db.seats[s], rid) else db.seats[s])
  {
    ReserveEffect(db.seats, b.seatIds, rid);
  }

  lemma ConfirmedTables(db: Db, b: Booking)
    requires b.id in db.reservations && ConfirmSeats(db.seats, b.seatIds).Ok?
    ensures AllIn(db.seats, b.seatIds, Reserved)
    ensures Apply(db, Confirm(b)) ==
            db.(reservations := Restated(db, b),
                seats := map s | s in db.seats :: if s in b.seatIds then ConfirmedRow(db.seats[s]) else db.seats[s])
  {
    ConfirmEffect(db.seats, b.seatIds);
  }

  lemma CancelledTables(db: Db, b: Booking)
    requires b.id in db.reservations
    ensures Apply(db, Cancel(b)) ==
            db.(reservations := Restated(db, b),
                seats := map s | s in db.seats :: if s in b.seatIds then ReleasedRow(db.seats[s]) else db.seats[s])
  {
    assert |b.seatIds| == 0 ==> ReleaseRows(db.seats, b.seatIds) == db.seats;
  }

  lemma RowWfKept(db: Db, next: Db, row: ReservationRow, row': ReservationRow)
    requires RowLinked(db, row) && RowPriced(db, row) && SameTerms(row, row')
    requires row.eventId in next.events
    requires forall s :: s in row.seats ==>
               s in next.seats && next.seats[s].eventId == db.seats[s].eventId
                 && next.seats[s].price == db.seats[s].price
    ensures RowLinked(next, row') && RowPriced(next, row')
  {
    SamePrices(db.seats, next.seats, row.seats);
  }

  /** Deleting an event never takes a seat away from a reservation, past or present. */
  lemma RemovalKeepsReservations(db: Db, id: Id)
    requires Linked(db)
    ensures Apply(db, RemoveEvent(id)).reservations == db.reservations
    ensures forall r, s :: r in db.reservations && s in db.reservations[r].seats ==>
              s in Apply(db, RemoveEvent(id)).seats && Apply(db, RemoveEvent(id)).seats[s] == db.seats[s]
  {
    forall r, s | r in db.reservations && s in db.reservations[r].seats
      ensures s in db.seats && db.seats[s].eventId == db.reservations[r].eventId
    {
      assert RowLinked(db, db.reservations[r]);
    }
    var next := Apply(db, RemoveEvent(id));
    forall r | r in db.reservations ensures next.reservations[r] == db.reservations[r] {
    }
  }

  predicate Catalogue(k: Commit) {
    k.AddEvent? || k.AddSeats? || k.ChangeEvent? || k.RemoveEvent?
  }

  /** Events and seats come and go around the reservations, which keep their rows, their event and their seats. */
  lemma CatalogueTables(db: Db, k: Commit)
    requires Linked(db) && Agrees(db, k) && Catalogue(k)
    ensures var next := Apply(db, k);
            && next.reservations == db.reservations && db.issued <= next.issued
            && (forall s :: s in next.seats ==>
                  && next.seats[s].eventId in next.events && s in next.issued
                  && if s in db.seats then next.seats[s] == db.seats[s]
                     else s !in db.issued && FreshSeat(next.seats[s]))
            && (forall s :: s in db.seats && db.seats[s].eventId in next.events ==> s in next.seats)
            && (forall e :: e in next.events ==> e in next.issued && (e in db.events || e !in db.issued))
            && (forall r :: r in db.reservations ==> db.reservations[r].eventId in next.events)
            && (forall r, s :: r in db.reservations && s in db.reservations[r].seats ==> s in next.seats)
  {
    hide NumbersUnique, KeyTaken, CreateAgrees, SnapshotAgrees, ConfirmSeats, ReserveSeats, ReleaseSeats, Sum;
    forall r, s | r in db.reservations && s in db.reservations[r].seats
      ensures db.reservations[r].eventId in db.events && s in db.seats
                && db.seats[s].eventId == db.reservations[r].eventId
    {
      assert RowLinked(db, db.reservations[r]);
    }
    assert forall r :: r in db.reservations ==> RowLinked(db, db.reservations[r]);
    if k.RemoveEvent? { RemovalKeepsReservations(db, k.id); }
  }

  /** Structure survives when reservations stay on their terms and keep their seats, and only new ids appear. */
  lemma WfFromParts(db: Db, next: Db)
    requires Wf(db)
    requires next.reservations.Keys == db.reservations.Keys && db.issued <= next.issued
    requires next.events.Keys <= next.issued
    requires forall r :: r in db.reservations ==>
               SameTerms(db.reservations[r], next.reservations[r]) && db.reservations[r].eventId in next.events
    requires forall s :: s in next.seats ==> next.seats[s].eventId in next.events && s in next.issued
    requires forall s :: s in db.seats && db.seats[s].eventId in next.events ==>
               s in next.seats && next.seats[s].eventId == db.seats[s].eventId
                 && next.seats[s].price == db.seats[s].price
    ensures Wf(next)
  {
    forall r | r in next.reservations
      ensures RowLinked(next, next.reservations[r]) && RowPriced(next, next.reservations[r])
    {
      assert RowLinked(db, db.reservations[r]) && RowPriced(db, db.reservations[r]);
      RowWfKept(db, next, db.reservations[r], next.reservations[r]);
    }
  }

  lemma CreatedWf(db: Db, rid: Id, b: Booking, next: Db)
    requires Wf(db) && rid !in db.reservations && CreateAgrees(db, b)
    requires !KeyTaken(db, b.key) && b.eventId in db.events && Distinct(b.seatIds)
    requires forall s :: s in b.seatIds ==> s in db.seats
    requires next.reservations == db.reservations[rid := RowOf(b)] && next.issued == db.issued + {rid}
    requires next.events == db.events && SameCatalogue(db.seats, next.seats)
    ensures Wf(next)
  {
    var mid := next.(reservations := db.reservations);
    WfFromParts(db, mid);
    NewRow(db, b, next);
    NewKey(db, rid, b, next);
    forall r | r in next.reservations
      ensures RowLinked(next, next.reservations[r]) && RowPriced(next, next.reservations[r])
    {
      if r != rid {
        assert RowLinked(mid, mid.reservations[r]) && RowPriced(mid, mid.reservations[r]);
      }
    }
  }

  lemma NewKey(db: Db, rid: Id, b: Booking, next: Db)
    requires KeysUnique(db) && !KeyTaken(db, b.key) && next.reservations == db.reservations[rid := RowOf(b)]
    ensures KeysUnique(next)
  {
  }

  lemma NewRow(db: Db, b: Booking, next: Db)
    requires CreateAgrees(db, b) && b.eventId in next.events && Distinct(b.seatIds)
    requires forall s :: s in b.seatIds ==> s in db.seats
    requires SameCatalogue(db.seats, next.seats)
    ensures RowLinked(next, RowOf(b)) && RowPriced(next, RowOf(b))
  {
    assert forall s :: s in b.seatIds <==> s in Elements(b.seatIds);
    SamePrices(db.seats, next.seats, Elements(b.seatIds));
    assert b.seatIds[0] in Elements(b.seatIds);
  }

  /** Structure is kept by every commit, fresh or stale. */
  lemma CommitWf(db: Db, k: Commit)
    requires Wf(db) && Agrees(db, k)
    ensures Wf(Apply(db, k))
  {
    if Execute(db, k).Ok? {
      if k.Create? {
        CreatedTables(db, k.rid, k.b);
        CreatedWf(db, k.rid, k.b, Apply(db, k));
      } else if Catalogue(k) {
        CatalogueTables(db, k);
        WfFromParts(db, Apply(db, k));
      } else {
        StatusTables(db, k);
        WfFromParts(db, Apply(db, k));
      }
    }
  }

  /** Ids are never reused, and no reservation ever changes its terms nor any seat its event, number or price. */
  lemma CommitEvolves(db: Db, k: Commit)
    requires Linked(db) && Agrees(db, k)
    ensures Evolves(db, Apply(db, k))
  {
    if Execute(db, k).Ok? {
      if k.Create? {
        CreatedTables(db, k.rid, k.b);
      } else if Catalogue(k) {
        CatalogueTables(db, k);
      } else {
        StatusTables(db, k);
      }
    }
  }

  /** Confirm and Cancel move one reservation's status and seat rows, nothing else. */
  lemma StatusTables(db: Db, k: Commit)
    requires (k.Confirm? || k.Cancel?) && Linked(db) && SnapshotAgrees(db, k.b)
    ensures var next := Apply(db, k);
            && next.events == db.events && next.issued == db.issued && SameCatalogue(db.seats, next.seats)
            && next.reservations.Keys == db.reservations.Keys
            && forall r :: r in db.reservations ==>
                 SameTerms(db.reservations[r], next.reservations[r]) && db.reservations[r].eventId in db.events
  {
    assert forall r :: r in db.reservations ==> RowLinked(db, db.reservations[r]);
    if k.Cancel? {
      CancelledTables(db, k.b);
    } else if ConfirmSeats(db.seats, k.b.seatIds).Ok? {
      ConfirmedTables(db, k.b);
    }
  }
}
