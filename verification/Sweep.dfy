/**
 The expiry sweep: one transaction per expired reservation, each of which may fail on its own.
 */
module Sweep {
  import opened Sums
  import opened Domain
  import opened SeatTable
  import opened Database
  import opened Invariants
  import opened Ownership

  /** What goes wrong in one transaction: at BEGIN, at the seat update, at the reservation update, at COMMIT. */
  datatype TxFault = NoFault | BeginFails | SeatsFail | UpdateFails | CommitFails

  datatype Progress = Progress(db: Db, count: nat)

  function SweepItem(s: Progress, b: Booking, fault: TxFault): Progress {
    var c := b.Cancel();
    if c.Err? || fault != NoFault || Execute(s.db, Cancel(c.value)).Err? then s
    else Progress(Execute(s.db, Cancel(c.value)).value, s.count + 1)
  }

  function SweepRows(db: Db, rows: seq<Booking>, faults: seq<TxFault>): Progress
    requires |faults| >= |rows|
  {
    if |rows| == 0 then Progress(db, 0)
    else SweepItem(SweepRows(db, rows[..|rows| - 1], faults), rows[|rows| - 1], faults[|rows| - 1])
  }

  /** The reservations whose item went through. */
  ghost function Done(rows: seq<Booking>, faults: seq<TxFault>): set<Id>
    requires |faults| >= |rows|
  {
    set i | 0 <= i < |rows| && faults[i] == NoFault :: rows[i].id
  }

  lemma DoneSnoc(rows: seq<Booking>, faults: seq<TxFault>)
    requires |faults| >= |rows| > 0 && forall i, j :: 0 <= i < j < |rows| ==> rows[i].id != rows[j].id
    ensures var n := |rows| - 1;
            && rows[n].id !in Done(rows[..n], faults)
            && Done(rows, faults) ==
               if faults[n] == NoFault then Done(rows[..n], faults) + {rows[n].id} else Done(rows[..n], faults)
  {
    var n := |rows| - 1;
    forall r
      ensures r in Done(rows, faults) <==> r in Done(rows[..n], faults) || (r == rows[n].id && faults[n] == NoFault)
    {
      if r in Done(rows[..n], faults) {
        var i :| 0 <= i < n && faults[i] == NoFault && rows[..n][i].id == r;
        assert rows[i].id == r;
      }
      if r in Done(rows, faults) {
        var i :| 0 <= i < |rows| && faults[i] == NoFault && rows[i].id == r;
        if i < n { assert rows[..n][i].id == r; }
      }
    }
  }

  ghost function CancelAll(rs: map<Id, ReservationRow>, done: set<Id>): map<Id, ReservationRow> {
    map r | r in rs :: if r in done then rs[r].(status := Cancelled) else rs[r]
  }

  ghost function ReleaseHeld(seats: Table, done: set<Id>): Table {
    map s | s in seats ::
      if seats[s].reservedBy.Some? && seats[s].reservedBy.value in done then ReleasedRow(seats[s]) else seats[s]
  }

  lemma PrefixLoaded(db: Db, cutoff: int, rows: seq<Booking>, n: nat)
    requires RowsLoaded(db, cutoff, rows) && n <= |rows|
    ensures RowsLoaded(db, cutoff, rows[..n])
  {
  }

  /** What one successful item does to the tables. */
  lemma ItemTables(s: Progress, b: Booking)
    requires b.id in s.db.reservations && b.status == Pending && b.confirmedAt == s.db.reservations[b.id].confirmedAt
    ensures SweepItem(s, b, NoFault) == Progress(
              s.db.(reservations := s.db.reservations[b.id := s.db.reservations[b.id].(status := Cancelled)],
                    seats := ReleaseRows(s.db.seats, b.seatIds)),
              s.count + 1)
  {
    CancelledTables(s.db, b.(status := Cancelled));
  }

  lemma CancelOne(rs: map<Id, ReservationRow>, done: set<Id>, r: Id)
    requires r in rs && r !in done
    ensures var was := CancelAll(rs, done);
            r in was && was[r] == rs[r] && was[r := was[r].(status := Cancelled)] == CancelAll(rs, done + {r})
  {
  }

  /** Whatever else is going on, the sweep cancels exactly the reservations whose item went through, and counts them. */
  lemma {:induction false} SweepReservations(db: Db, cutoff: int, rows: seq<Booking>, faults: seq<TxFault>)
    requires |faults| >= |rows| && RowsLoaded(db, cutoff, rows)
    ensures var s := SweepRows(db, rows, faults);
            && s.count == |Done(rows, faults)|
            && s.db.reservations == CancelAll(db.reservations, Done(rows, faults))
            && s.db.events == db.events && s.db.issued == db.issued
    ensures Done(rows, faults) <= db.reservations.Keys
    decreases |rows|
  {
    hide SweepItem, RowsLoaded, Lists, Done, CancelAll, ReleaseRows;
    if |rows| == 0 {
      CancelNothing(db.reservations, rows, faults);
    } else {
      LastLoaded(db, cutoff, rows);
      var n := |rows| - 1;
      var b, mid := rows[n], SweepRows(db, rows[..n], faults);
      PrefixLoaded(db, cutoff, rows, n);
      SweepReservations(db, cutoff, rows[..n], faults);
      DoneSnoc(rows, faults);
      if faults[n] == NoFault {
        CancelOne(db.reservations, Done(rows[..n], faults), b.id);
        ItemTables(mid, b);
      } else {
        FaultyItem(mid, b, faults[n]);
      }
    }
  }

  lemma FaultyItem(s: Progress, b: Booking, fault: TxFault)
    requires fault != NoFault
    ensures SweepItem(s, b, fault) == s
  {
  }

  lemma CancelNothing(rs: map<Id, ReservationRow>, rows: seq<Booking>, faults: seq<TxFault>)
    requires |faults| >= |rows| == 0
    ensures Done(rows, faults) == {} && CancelAll(rs, {}) == rs
  {
  }

  lemma ReleaseNothing(seats: Table, rows: seq<Booking>, faults: seq<TxFault>)
    requires |faults| >= |rows| == 0
    ensures ReleaseHeld(seats, Done(rows, faults)) == seats
  {
  }

  lemma LastLoaded(db: Db, cutoff: int, rows: seq<Booking>)
    requires |rows| > 0 && RowsLoaded(db, cutoff, rows)
    ensures var b := rows[|rows| - 1];
            && b.id in db.reservations && db.reservations[b.id].status == Pending
            && Lists(b.seatIds, db.reservations[b.id].seats) && b == Load(db, b.id, b.seatIds)
    ensures forall i, j :: 0 <= i < j < |rows| ==> rows[i].id != rows[j].id
  {
  }

  /** With seats and reservations in agreement, the sweep releases exactly the seats of what it cancels. */
  lemma {:induction false} SweepSeats(db: Db, cutoff: int, rows: seq<Booking>, faults: seq<TxFault>)
    requires |faults| >= |rows| && RowsLoaded(db, cutoff, rows) && Consistent(db)
    ensures SweepRows(db, rows, faults).db.seats == ReleaseHeld(db.seats, Done(rows, faults))
    decreases |rows|
  {
    hide Consistent, SweepItem, CancelAll, ReleaseHeld, RowsLoaded, Lists, ReleaseRows, Done;
    if |rows| == 0 {
      ReleaseNothing(db.seats, rows, faults);
    } else {
      LastLoaded(db, cutoff, rows);
      var n := |rows| - 1;
      var b, mid := rows[n], SweepRows(db, rows[..n], faults);
      PrefixLoaded(db, cutoff, rows, n);
      SweepSeats(db, cutoff, rows[..n], faults);
      DoneSnoc(rows, faults);
      if faults[n] == NoFault {
        SweepReservations(db, cutoff, rows[..n], faults);
        CancelOne(db.reservations, Done(rows[..n], faults), b.id);
        ItemTables(mid, b);
        SeatsOfHolder(db, b);
        ReleaseOne(db.seats, Done(rows[..n], faults), b);
      } else {
        FaultyItem(mid, b, faults[n]);
      }
    }
  }

  lemma SeatsOfHolder(db: Db, b: Booking)
    requires Consistent(db) && b.id in db.reservations && db.reservations[b.id].status == Pending
    requires Lists(b.seatIds, db.reservations[b.id].seats)
    ensures forall s :: s in db.seats ==> (s in b.seatIds <==> db.seats[s].reservedBy == Some(b.id))
  {
    ListedSeats(db, b);
    assert HoldsItsSeats(db, b.id);
    forall s | s in db.seats && db.seats[s].reservedBy == Some(b.id) ensures s in b.seatIds {
      assert NamesItsHolder(db, s);
    }
  }

  lemma ReleaseOne(seats: Table, done: set<Id>, b: Booking)
    requires b.id !in done && forall s :: s in seats ==> (s in b.seatIds <==> seats[s].reservedBy == Some(b.id))
    ensures ReleaseHeld(seats, done + {b.id}) == ReleaseRows(ReleaseHeld(seats, done), b.seatIds)
  {
  }

  lemma AllDone(rows: seq<Booking>, faults: seq<TxFault>)
    requires |faults| >= |rows| && forall i :: 0 <= i < |rows| ==> faults[i] == NoFault
    ensures forall i :: 0 <= i < |rows| ==> rows[i].id in Done(rows, faults)
  {
  }

  /** The reservations that were pending in `db` and are cancelled in `next`. */
  ghost function Moved(db: Db, next: Db): set<Id> {
    set r | r in db.reservations && r in next.reservations
            && db.reservations[r].status == Pending && next.reservations[r].status == Cancelled
  }

  /** The sweep, for any pattern of item failures: the count is the number of reservations moved from pending to
      cancelled, their seats and only theirs become available, everything else is untouched, and without
      failures nothing older than the cutoff stays pending. */
  lemma {:induction false} SweepExact(db: Db, cutoff: int, rows: seq<Booking>, faults: seq<TxFault>)
    requires |faults| >= |rows| && ExpiredRows(db, cutoff, rows) && Consistent(db)
    ensures var s := SweepRows(db, rows, faults);
            var moved := Moved(db, s.db);
            && s.count == |moved|
            && s.db == Db(db.events, ReleaseHeld(db.seats, moved), CancelAll(db.reservations, moved), db.issued)
            && (forall r :: r in moved ==> Expired(db, cutoff, r))
            && ((forall i :: 0 <= i < |rows| ==> faults[i] == NoFault) ==> forall r :: !Expired(s.db, cutoff, r))
  {
    hide Consistent;
    SweepReservations(db, cutoff, rows, faults);
    SweepSeats(db, cutoff, rows, faults);
    var s, done := SweepRows(db, rows, faults), Done(rows, faults);
    forall r | r in done ensures Expired(db, cutoff, r) {
      var i :| 0 <= i < |rows| && faults[i] == NoFault && rows[i].id == r;
    }
    assert done == Moved(db, s.db);
    if forall i :: 0 <= i < |rows| ==> faults[i] == NoFault { NothingExpiredLeft(db, cutoff, rows, faults); }
  }

  /** Needs no agreement between seats and reservations: an infallible sweep clears every expired reservation. */
  lemma {:induction false} NothingExpiredLeft(db: Db, cutoff: int, rows: seq<Booking>, faults: seq<TxFault>)
    requires |faults| >= |rows| && ExpiredRows(db, cutoff, rows)
    requires forall i :: 0 <= i < |rows| ==> faults[i] == NoFault
    ensures forall r :: !Expired(SweepRows(db, rows, faults).db, cutoff, r)
  {
    SweepReservations(db, cutoff, rows, faults);
    AllDone(rows, faults);
    forall r ensures !Expired(SweepRows(db, rows, faults).db, cutoff, r) {
      if Expired(db, cutoff, r) {
        var i :| 0 <= i < |rows| && rows[i].id == r;
      }
    }
  }

  // ---------------------------------------------------------------- the sweep and the 15 minutes

  /** A sweep that waits at least the 15 minutes never picks a reservation that Confirm would still accept;
      waiting exactly 15 minutes, it picks exactly the pending ones that Confirm would refuse as expired. */
  lemma SweepOrConfirm(db: Db, r: Id, ids: seq<Id>, now: int, expireAfter: int)
    requires Linked(db) && r in db.reservations && db.reservations[r].status == Pending
    ensures expireAfter >= 15 * MINUTE && Expired(db, now - expireAfter, r) ==>
              Load(db, r, ids).Confirm(now, now).Err?
    ensures expireAfter == 15 * MINUTE ==>
              (Expired(db, now - expireAfter, r) <==> Load(db, r, ids).Confirm(now, now) == Err(ReservationExpired))
  {
    assert RowLinked(db, db.reservations[r]);
  }

  /** With a shorter wait it can: the reservation below is swept and confirmable at the same moment. */
  lemma ShortSweepPicksLive(db: Db, r: Id, ids: seq<Id>, now: int, expireAfter: int)
    requires Linked(db) && r in db.reservations && db.reservations[r].status == Pending
    requires expireAfter < 15 * MINUTE && now == db.reservations[r].createdAt + expireAfter + 1
    ensures Expired(db, now - expireAfter, r) && Load(db, r, ids).Confirm(now, now).Ok?
  {
    assert RowLinked(db, db.reservations[r]);
  }
}
