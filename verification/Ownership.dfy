/**
 Who holds which seat.  Confirm and Release never look at a seat's holder, so agreement between seats and
 reservations is a global matter: these lemmas say exactly which commits keep it.
 */
module Ownership {
  import opened Sums
  import opened Domain
  import opened SeatTable
  import opened Database
  import opened Invariants

  /** An active reservation holds each of its seats, in the matching status. */
  ghost predicate HoldsItsSeats(db: Db, r: Id)
    requires r in db.reservations
  {
    var row := db.reservations[r];
    Active(row.status) ==>
      forall s :: s in row.seats ==>
        s in db.seats && db.seats[s].reservedBy == Some(r) && db.seats[s].status == HeldAs(row.status)
  }

  /** A seat names a holder exactly when it is not available, and the holder is active and lists the seat. */
  ghost predicate NamesItsHolder(db: Db, s: Id)
    requires s in db.seats
  {
    match db.seats[s].reservedBy
    case None => db.seats[s].status == Available
    case Some(r) => r in db.reservations && Active(db.reservations[r].status) && s in db.reservations[r].seats
  }

  ghost predicate Consistent(db: Db) {
    && (forall r :: r in db.reservations ==> HoldsItsSeats(db, r))
    && (forall s :: s in db.seats ==> NamesItsHolder(db, s))
  }

  /** One seat is sold to one reservation. */
  ghost predicate NoDoubleBooking(db: Db) {
    forall q, r, s ::
      && q in db.reservations && Active(db.reservations[q].status) && s in db.reservations[q].seats
      && r in db.reservations && Active(db.reservations[r].status) && s in db.reservations[r].seats
      ==> q == r
  }

  lemma {:induction false} ConsistentMeansNoDoubleBooking(db: Db)
    requires Consistent(db)
    ensures NoDoubleBooking(db)
  {
    forall q, r, s |
      && q in db.reservations && Active(db.reservations[q].status) && s in db.reservations[q].seats
      && r in db.reservations && Active(db.reservations[r].status) && s in db.reservations[r].seats
      ensures q == r
    {
      assert HoldsItsSeats(db, q) && HoldsItsSeats(db, r);
    }
  }

  /** Every seat of `b` is held by `b` itself. */
  predicate AllOwned(db: Db, b: Booking) {
    forall s :: s in b.seatIds && s in db.seats ==> db.seats[s].reservedBy == Some(b.id)
  }

  /** No seat of `b` is held by another reservation. */
  predicate NoneForeign(db: Db, b: Booking) {
    forall s :: s in b.seatIds && s in db.seats ==> db.seats[s].reservedBy in {None, Some(b.id)}
  }

  /** The owner check that the UPDATE statements do not make. */
  predicate OwnerGuard(db: Db, k: Commit) {
    match k
    case Confirm(b) => ConfirmSeats(db.seats, b.seatIds).Err? || AllOwned(db, b)
    case Cancel(b) => NoneForeign(db, b)
    case _ => true
  }

  /** The stored reservation is still pending, as it was when the client read it. */
  predicate Fresh(db: Db, k: Commit) {
    k.Confirm? || k.Cancel? ==>
      k.b.id in db.reservations && db.reservations[k.b.id].status == Pending
  }

  lemma ListedSeats(db: Db, b: Booking)
    requires SnapshotAgrees(db, b)
    ensures forall s :: s in b.seatIds <==> s in db.reservations[b.id].seats
  {
    assert forall s :: s in b.seatIds <==> s in Elements(b.seatIds);
  }

  lemma ListedSeatsStored(db: Db, b: Booking)
    requires Linked(db) && SnapshotAgrees(db, b)
    ensures forall s :: s in b.seatIds ==> s in db.seats
    ensures b.seatIds != []
  {
    ListedSeats(db, b);
    assert RowLinked(db, db.reservations[b.id]);
  }

  /** Under agreement, a fresh commit passes the owner check, with nothing but its own seats in reach. */
  lemma {:induction false} FreshIsGuarded(db: Db, k: Commit)
    requires Linked(db) && Consistent(db) && Agrees(db, k) && Fresh(db, k)
    ensures OwnerGuard(db, k)
    ensures k.Confirm? || k.Cancel? ==> AllOwned(db, k.b) && AllIn(db.seats, k.b.seatIds, Reserved)
  {
    if k.Confirm? || k.Cancel? {
      ListedSeats(db, k.b);
      assert HoldsItsSeats(db, k.b.id);
    }
  }

  /** A Confirm that comes too late is rolled back, unless in the meantime every one of its seats was sold again and
      is on hold for somebody else; after another Confirm of the same reservation it always is. */
  lemma LateConfirmRolledBack(db: Db, b: Booking)
    requires Linked(db) && Consistent(db) && SnapshotAgrees(db, b) && db.reservations[b.id].status != Pending
    ensures Execute(db, Confirm(b)).Ok? <==>
            forall s :: s in b.seatIds ==>
              db.seats[s].status == Reserved && db.seats[s].reservedBy !in {None, Some(b.id)}
    ensures db.reservations[b.id].status == ReservationStatus.Confirmed ==>
              Execute(db, Confirm(b)) == Err(SeatNotReserved)
  {
    ListedSeatsStored(db, b);
    ListedSeats(db, b);
    ConfirmEffect(db.seats, b.seatIds);
    assert HoldsItsSeats(db, b.id);
    forall s | s in b.seatIds ensures db.seats[s].status == Reserved ==> db.seats[s].reservedBy !in {None, Some(b.id)} {
      assert NamesItsHolder(db, s);
    }
    assert b.seatIds[0] in db.seats;
  }

  // ---------------------------------------------------------------- which commits keep agreement

  /** Agreement survives when one reservation moves together with all its seats, none of which was another's. */
  lemma OneReservationMoves(db: Db, next: Db, rid: Id)
    requires Consistent(db) && rid in next.reservations
    requires forall r :: r != rid ==> (r in next.reservations <==> r in db.reservations)
    requires forall r :: r != rid && r in db.reservations ==> next.reservations[r] == db.reservations[r]
    requires rid in db.reservations ==> db.reservations[rid].seats == next.reservations[rid].seats
    requires next.seats.Keys == db.seats.Keys && next.reservations[rid].seats <= db.seats.Keys
    requires forall s :: s in db.seats && s !in next.reservations[rid].seats ==> next.seats[s] == db.seats[s]
    requires forall s :: s in next.reservations[rid].seats ==>
               && db.seats[s].reservedBy in {None, Some(rid)}
               && if Active(next.reservations[rid].status)
                  then next.seats[s].reservedBy == Some(rid)
                       && next.seats[s].status == HeldAs(next.reservations[rid].status)
                  else next.seats[s].reservedBy == None && next.seats[s].status == Available
    ensures Consistent(next)
  {
    forall r | r in next.reservations ensures HoldsItsSeats(next, r) {
      if r != rid { assert HoldsItsSeats(db, r); }
    }
    forall s | s in next.seats ensures NamesItsHolder(next, s) {
      assert NamesItsHolder(db, s);
    }
  }

  lemma CreateConsistent(db: Db, rid: Id, b: Booking)
    requires Consistent(db) && rid !in db.reservations && b.status == Pending
    ensures Consistent(Apply(db, Create(rid, b)))
  {
    if Execute(db, Create(rid, b)).Ok? {
      CreatedTables(db, rid, b);
      assert forall s :: s in b.seatIds <==> s in Elements(b.seatIds);
      assert forall s :: s in b.seatIds ==> NamesItsHolder(db, s);
      OneReservationMoves(db, Apply(db, Create(rid, b)), rid);
    }
  }

  lemma ConfirmConsistent(db: Db, b: Booking)
    requires Consistent(db) && SnapshotAgrees(db, b) && b.status == ReservationStatus.Confirmed
              && OwnerGuard(db, Confirm(b))
    ensures Consistent(Apply(db, Confirm(b)))
  {
    if ConfirmSeats(db.seats, b.seatIds).Ok? {
      ConfirmedTables(db, b);
      ListedSeats(db, b);
      OneReservationMoves(db, Apply(db, Confirm(b)), b.id);
    }
  }

  lemma CancelConsistent(db: Db, b: Booking)
    requires Consistent(db) && SnapshotAgrees(db, b) && b.status == Cancelled && OwnerGuard(db, Cancel(b))
    requires forall s :: s in b.seatIds ==> s in db.seats
    ensures Consistent(Apply(db, Cancel(b)))
  {
    CancelledTables(db, b);
    ListedSeats(db, b);
    OneReservationMoves(db, Apply(db, Cancel(b)), b.id);
  }

  /** Events and new seats come and go without touching who holds what. */
  lemma CatalogueConsistent(db: Db, k: Commit)
    requires Linked(db) && Consistent(db) && Agrees(db, k) && Catalogue(k)
    ensures Consistent(Apply(db, k))
  {
    CatalogueTables(db, k);
    SeatsComeAndGo(db, Apply(db, k));
  }

  lemma SeatsComeAndGo(db: Db, next: Db)
    requires Linked(db) && Consistent(db) && next.reservations == db.reservations
    requires forall s :: s in next.seats ==>
               if s in db.seats then next.seats[s] == db.seats[s] else FreshSeat(next.seats[s])
    requires forall r, s :: r in db.reservations && s in db.reservations[r].seats ==> s in next.seats
    ensures Consistent(next)
  {
    forall r | r in next.reservations ensures HoldsItsSeats(next, r) {
      assert HoldsItsSeats(db, r) && RowLinked(db, db.reservations[r]);
    }
    forall s | s in next.seats ensures NamesItsHolder(next, s) {
      if s in db.seats { assert NamesItsHolder(db, s); }
    }
  }

  /** Confirming over a seat held by somebody else sells that seat twice: `b` is confirmed without its seat. */
  lemma UnownedConfirmBreaks(db: Db, b: Booking)
    requires Consistent(db) && SnapshotAgrees(db, b) && b.status == ReservationStatus.Confirmed
              && !OwnerGuard(db, Confirm(b))
    ensures !Consistent(Apply(db, Confirm(b))) && !NoDoubleBooking(Apply(db, Confirm(b)))
  {
    ConfirmedTables(db, b);
    ListedSeats(db, b);
    var s :| s in b.seatIds && s in db.seats && db.seats[s].reservedBy != Some(b.id);
    var next := Apply(db, Confirm(b));
    assert next.seats[s].reservedBy != Some(b.id);
    assert !HoldsItsSeats(next, b.id);
    assert NamesItsHolder(db, s) && db.seats[s].status == Reserved;
    var holder := db.seats[s].reservedBy.value;
    assert next.reservations[holder] == db.reservations[holder] && s in next.reservations[holder].seats;
    assert s in next.reservations[b.id].seats && next.reservations[b.id].status == ReservationStatus.Confirmed;
  }

  /** Releasing a seat held by somebody else takes it away from that holder. */
  lemma ForeignReleaseBreaks(db: Db, b: Booking)
    requires Consistent(db) && SnapshotAgrees(db, b) && !OwnerGuard(db, Cancel(b))
    ensures !Consistent(Apply(db, Cancel(b)))
  {
    CancelledTables(db, b);
    var s :| s in b.seatIds && s in db.seats && db.seats[s].reservedBy !in {None, Some(b.id)};
    assert NamesItsHolder(db, s);
    var next := Apply(db, Cancel(b));
    assert next.seats[s].reservedBy == None;
    assert !HoldsItsSeats(next, db.seats[s].reservedBy.value);
  }

  /** And once a seat so released is booked again, it is in two active reservations. */
  lemma ForeignReleaseSellsTwice(db: Db, b: Booking, s: Id, rid: Id, next: Booking)
    requires Consistent(db) && SnapshotAgrees(db, b) && b.status == Cancelled
    requires s in b.seatIds && s in db.seats && db.seats[s].reservedBy !in {None, Some(b.id)}
    requires rid !in db.reservations && next.status == Pending && s in next.seatIds
    requires Execute(Apply(db, Cancel(b)), Create(rid, next)).Ok?
    ensures !OwnerGuard(db, Cancel(b))
    ensures !NoDoubleBooking(Apply(Apply(db, Cancel(b)), Create(rid, next)))
  {
    var holder := db.seats[s].reservedBy.value;
    assert NamesItsHolder(db, s);
    CancelledTables(db, b);
    CreatedTables(Apply(db, Cancel(b)), rid, next);
    var after := Apply(Apply(db, Cancel(b)), Create(rid, next));
    assert after.reservations[holder] == db.reservations[holder] && s in after.reservations[rid].seats;
  }

  /** Exactly the commits that would have passed an owner check keep seats and reservations in agreement. */
  lemma OwnerGuardExact(db: Db, k: Commit)
    requires Linked(db) && Consistent(db) && Agrees(db, k)
    ensures Consistent(Apply(db, k)) <==> OwnerGuard(db, k)
  {
    if OwnerGuard(db, k) {
      if k.Create? {
        CreateConsistent(db, k.rid, k.b);
      } else if k.Confirm? {
        ConfirmConsistent(db, k.b);
      } else if k.Cancel? {
        ListedSeatsStored(db, k.b);
        CancelConsistent(db, k.b);
      } else {
        CatalogueConsistent(db, k);
      }
    } else {
      if k.Confirm? { UnownedConfirmBreaks(db, k.b); } else { ForeignReleaseBreaks(db, k.b); }
    }
  }

  /** What a fresh Confirm or Cancel changes: its own status and the seats it holds, nothing else. */
  lemma FreshTouchesOwnOnly(db: Db, k: Commit)
    requires Linked(db) && Consistent(db) && Agrees(db, k) && Fresh(db, k) && (k.Confirm? || k.Cancel?)
    ensures Execute(db, k).Ok?
    ensures var next := Apply(db, k);
            && next.events == db.events && next.seats.Keys == db.seats.Keys && next.issued == db.issued
            && next.reservations == Restated(db, k.b)
            && forall s :: s in db.seats ==>
                 next.seats[s] == if db.seats[s].reservedBy != Some(k.b.id) then db.seats[s]
                                  else if k.Confirm? then ConfirmedRow(db.seats[s]) else ReleasedRow(db.seats[s])
  {
    FreshIsGuarded(db, k);
    ListedSeats(db, k.b);
    ConfirmEffect(db.seats, k.b.seatIds);
    if k.Confirm? { ConfirmedTables(db, k.b); } else { CancelledTables(db, k.b); }
    forall s | s in db.seats && db.seats[s].reservedBy == Some(k.b.id) ensures s in k.b.seatIds {
      assert NamesItsHolder(db, s);
    }
  }
}
