/**
 The repositories over the stored tables.  Each statement changes the tables in place, inside the caller's
 transaction: a statement that fails half-way leaves its partial effect for Rollback to undo.
 */
module Postgres {
  import opened Sums
  import opened Domain
  import opened SeatTable
  import opened Database
  import LockKey

  class Store {
    var events: map<Id, EventRow>
    var seats: Table
    var reservations: map<Id, ReservationRow>
    var issued: set<Id>

    function Tables(): Db
      reads this
    {
      Db(events, seats, reservations, issued)
    }

    constructor ()
      ensures Tables() == Db(map[], map[], map[], {})
    {
      events, seats, reservations, issued := map[], map[], map[], {};
    }

    // -------------------------------------------------------------- transactions

    method Begin() returns (saved: Db)
      ensures saved == Tables()
    {
      saved := Tables();
    }

    method Rollback(saved: Db)
      modifies this
      ensures Tables() == saved
    {
      events, seats, reservations, issued := saved.events, saved.seats, saved.reservations, saved.issued;
    }

    /** What other clients commit between two statements of a service. */
    method Become(db: Db)
      modifies this
      ensures Tables() == db
    {
      events, seats, reservations, issued := db.events, db.seats, db.reservations, db.issued;
    }

    // -------------------------------------------------------------- seats

    method ReserveSeats(ids: seq<Id>, rid: Id) returns (err: Option<Error>)
      modifies this`seats
      ensures seats == if |ids| == 0 then old(seats) else ReserveRows(old(seats), ids, rid)
      ensures SeatTable.ReserveSeats(old(seats), ids, rid) == if err.Some? then Err(err.value) else Ok(seats)
    {
      if |ids| == 0 { return None; }
      var rows := |Matching(seats, ids, Available)|;
      seats := ReserveRows(seats, ids, rid);
      if rows != |ids| { return Some(SeatAlreadyReserved); }
      err := None;
    }

    method ConfirmSeats(ids: seq<Id>) returns (err: Option<Error>)
      modifies this`seats
      ensures seats == if |ids| == 0 then old(seats) else ConfirmRows(old(seats), ids)
      ensures SeatTable.ConfirmSeats(old(seats), ids) == if err.Some? then Err(err.value) else Ok(seats)
    {
      if |ids| == 0 { return None; }
      var rows := |Matching(seats, ids, Reserved)|;
      seats := ConfirmRows(seats, ids);
      if rows != |ids| { return Some(SeatNotReserved); }
      err := None;
    }

    method ReleaseSeats(ids: seq<Id>)
      modifies this`seats
      ensures seats == SeatTable.ReleaseSeats(old(seats), ids)
    {
      if |ids| == 0 { return; }
      seats := ReleaseRows(seats, ids);
    }

    method CountAvailableByEventId(e: Id) returns (count: int)
      ensures count == CountAvailable(Tables(), e)
      ensures count == |set s | s in seats && seats[s].eventId == e && seats[s].status == Available|
    {
      count := |AvailableSeats(Tables(), e)|;
    }

    // -------------------------------------------------------------- reservations

    /** INSERT the reservation under the generated id, then one reservation_seats row per seat id. */
    method CreateReservation(res: Reservation, rid: Id) returns (err: Option<Error>)
      requires rid !in reservations
      modifies this`reservations, this`issued, res`id
      ensures InsertReservation(old(Tables()), rid, old(res.Value())) ==
                if err.Some? then Err(err.value) else Ok(Tables())
      ensures err.None? ==> res.Value() == old(res.Value()).(id := rid)
      ensures err.Some? ==> res.Value() == old(res.Value()).(id := res.id)
    {
      var b := res.Value();
      if |res.userId| > TEXT_WIDTH || |res.key| > TEXT_WIDTH { return Some(Infrastructure); }
      if KeyTaken(Tables(), res.key) { return Some(KeyAlreadyExists); }
      if res.eventId !in events { return Some(Infrastructure); }
      ghost var before := reservations;
      res.id := rid;
      var row := RowOf(b).(seats := {});
      reservations, issued := reservations[rid := row], issued + {rid};
      var i := 0;
      assert Elements(b.seatIds[..0]) == {};
      while i < |res.seatIds|
        invariant 0 <= i <= |b.seatIds| && res.Value() == b.(id := rid)
        invariant reservations == before[rid := row.(seats := Elements(b.seatIds[..i]))]
        invariant issued == old(issued) + {rid}
        invariant Distinct(b.seatIds[..i]) && forall s :: s in b.seatIds[..i] ==> s in seats
        modifies this`reservations
      {
        var s := res.seatIds[i];
        PrefixStep(b.seatIds, i, seats);
        if s in reservations[rid].seats || s !in seats { return Some(Infrastructure); }
        reservations := reservations[rid := reservations[rid].(seats := reservations[rid].seats + {s})];
        i := i + 1;
      }
      assert b.seatIds[..i] == b.seatIds;
      err := None;
    }

    method UpdateReservation(res: Reservation) returns (err: Option<Error>)
      modifies this`reservations
      ensures Database.UpdateReservation(old(Tables()), res.Value()) ==
                if err.Some? then Err(err.value) else Ok(Tables())
      ensures err == if res.id in old(reservations) then None else Some(ReservationNotFound)
      ensures err.Some? ==> reservations == old(reservations)
      ensures err.None? ==>
                reservations == old(reservations)[res.id :=
                  old(reservations)[res.id].(status := res.status, confirmedAt := res.confirmedAt)]
    {
      if res.id !in reservations { return Some(ReservationNotFound); }
      var row := reservations[res.id].(status := res.status, confirmedAt := res.confirmedAt);
      reservations := reservations[res.id := row];
      err := None;
    }

    /** The seat ids come back in whatever order the rows are found. */
    method GetSeatIds(rid: Id) returns (ids: seq<Id>)
      requires rid in reservations
      ensures Lists(ids, reservations[rid].seats)
    {
      ids := InSomeOrder(reservations[rid].seats);
    }

    method GetReservation(rid: Id) returns (res: Reservation?, err: Option<Error>)
      ensures rid !in reservations ==> res == null && err == Some(ReservationNotFound)
      ensures rid in reservations ==>
                && err.None? && res != null && fresh(res)
                && Lists(res.seatIds, reservations[rid].seats) && res.Value() == Load(Tables(), rid, res.seatIds)
                && ReadsBack(res.Value(), rid, reservations[rid])
    {
      if rid !in reservations { return null, Some(ReservationNotFound); }
      var ids := GetSeatIds(rid);
      res := new Reservation(Load(Tables(), rid, ids));
      err := None;
    }

    method GetReservationByKey(key: string) returns (res: Reservation?, err: Option<Error>)
      ensures !KeyTaken(Tables(), key) ==> res == null && err == Some(ReservationNotFound)
      ensures KeyTaken(Tables(), key) ==>
                && err.None? && res != null && fresh(res) && res.id in reservations && reservations[res.id].key == key
                && Lists(res.seatIds, reservations[res.id].seats) && res.Value() == Load(Tables(), res.id, res.seatIds)
                && ReadsBack(res.Value(), res.id, reservations[res.id])
    {
      if !KeyTaken(Tables(), key) { return null, Some(ReservationNotFound); }
      var rid :| rid in reservations && reservations[rid].key == key;
      res, err := GetReservation(rid);
    }

    /** SELECT the pending reservations created before the cutoff, and load each with its seat ids. */
    method GetExpiredPending(cutoff: int) returns (rs: seq<Reservation>)
      ensures forall r :: r in rs ==> fresh(r)
      ensures Distinct(rs)
      ensures ExpiredRows(Tables(), cutoff, Values(rs))
    {
      var ids := InSomeOrder(set r | r in reservations && Expired(Tables(), cutoff, r));
      rs := [];
      for i := 0 to |ids|
        invariant |rs| == i && forall k :: 0 <= k < i ==> fresh(rs[k]) && Loaded(rs[k].Value(), ids[k])
        invariant Distinct(rs)
      {
        assert ids[i] in Elements(ids);
        var res, err := GetReservation(ids[i]);
        rs := rs + [res];
      }
      LoadedRows(Tables(), cutoff, ids, Values(rs));
    }

    ghost predicate Loaded(b: Booking, rid: Id)
      reads this
    {
      rid in reservations && Lists(b.seatIds, reservations[rid].seats) && b == Load(Tables(), rid, b.seatIds)
    }

    /** SELECT every seat of the event, each once, ordered by seat number. */
    method GetSeatsByEvent(e: Id) returns (rows: seq<(Id, SeatRow)>)
      ensures forall i :: 0 <= i < |rows| ==> rows[i].0 in SeatsOf(Tables(), e) && rows[i].1 == seats[rows[i].0]
      ensures forall s :: s in SeatsOf(Tables(), e) ==> (s, seats[s]) in rows
      ensures forall i, j :: 0 <= i < j < |rows| ==>
                rows[i].0 != rows[j].0 && LockKey.Le(rows[i].1.number, rows[j].1.number)
    {
      hide LockKey.Le;
      rows := [];
      var left := SeatsOf(Tables(), e).Keys;
      while left != {}
        invariant left <= SeatsOf(Tables(), e).Keys
        invariant forall i :: 0 <= i < |rows| ==>
                    rows[i].0 in SeatsOf(Tables(), e) && rows[i].0 !in left && rows[i].1 == seats[rows[i].0]
        invariant forall i, j :: 0 <= i < j < |rows| ==>
                    rows[i].0 != rows[j].0 && LockKey.Le(rows[i].1.number, rows[j].1.number)
        invariant forall i, t :: 0 <= i < |rows| && t in left ==> LockKey.Le(rows[i].1.number, seats[t].number)
        invariant forall s :: s in SeatsOf(Tables(), e) ==> s in left || (s, seats[s]) in rows
        decreases left
      {
        FirstSeat(seats, left);
        var s :| s in left && ComesFirst(seats, left, s);
        rows, left := rows + [(s, seats[s])], left - {s};
      }
    }

    /** One multi-row INSERT; the generated ids are given in the order of the rows. */
    method InsertSeats(rows: Table) returns (err: Option<Error>)
      modifies this`seats, this`issued
      ensures Database.InsertSeats(old(Tables()), rows) == if err.Some? then Err(err.value) else Ok(Tables())
      ensures err.Some? ==> Tables() == old(Tables())
    {
      if !(forall s :: s in rows ==> RowAccepted(Tables(), rows[s])) || !NumbersUnique(seats, rows) {
        return Some(Infrastructure);
      }
      seats, issued := seats + rows, issued + rows.Keys;
      err := None;
    }

    // -------------------------------------------------------------- events

    method GetEvent(id: Id) returns (e: Event?, err: Option<Error>)
      ensures id !in events ==> e == null && err == Some(EventNotFound)
      ensures id in events ==> err.None? && e != null && fresh(e) && e.id == id && e.Row() == events[id]
    {
      if id !in events { return null, Some(EventNotFound); }
      e := new Event(id, events[id]);
      err := None;
    }

    method UpdateEvent(e: Event) returns (err: Option<Error>)
      modifies this`events, e`version
      ensures Database.UpdateEvent(old(Tables()), e.id, old(e.Row())) ==
                if err.Some? then Err(err.value) else Ok(Tables())
      ensures err.Some? ==> events == old(events) && e.Row() == old(e.Row())
      ensures err == if e.id in old(events) && old(events)[e.id].version == old(e.version) then None
                     else Some(EventNotFound)
      ensures err.None? ==>
                events == old(events)[e.id := e.Row()] && e.Row() == old(e.Row()).(version := old(e.version) + 1)
    {
      if e.id !in events || events[e.id].version != e.version { return Some(EventNotFound); }
      events := events[e.id := e.Row().(version := e.version + 1)];
      e.version := e.version + 1;
      err := None;
    }

    method DeleteEvent(id: Id) returns (err: Option<Error>)
      modifies this
      ensures Database.DeleteEvent(old(Tables()), id) == if err.Some? then Err(err.value) else Ok(Tables())
      ensures err.Some? ==> Tables() == old(Tables())
      ensures err == if id !in old(events) then Some(EventNotFound)
                     else if exists r :: r in old(reservations) && old(reservations)[r].eventId == id then
                       Some(Infrastructure)
                     else None
      ensures err.None? ==>
                && events == old(events) - {id} && issued == old(issued)
                && (forall s :: s in seats <==> s in old(seats) && old(seats)[s].eventId != id)
                && (forall s :: s in seats ==> seats[s] == old(seats)[s])
    {
      if id !in events { return Some(EventNotFound); }
      if exists r :: r in reservations && reservations[r].eventId == id { return Some(Infrastructure); }
      var kept := map s | s in seats && seats[s].eventId != id :: seats[s];
      var gone := seats.Keys - kept.Keys;
      events, seats := events - {id}, kept;
      reservations := map r | r in reservations :: reservations[r].(seats := reservations[r].seats - gone);
      err := None;
    }
  }

  /** The entity has every column of the stored row, whatever its status. */
  ghost predicate ReadsBack(b: Booking, rid: Id, row: ReservationRow) {
    && b.id == rid && b.eventId == row.eventId && b.userId == row.userId && b.key == row.key && b.status == row.status
    && b.total == row.total && b.createdAt == row.createdAt && b.expiresAt == row.expiresAt
    && b.confirmedAt == row.confirmedAt && Elements(b.seatIds) == row.seats && Distinct(b.seatIds)
  }

  /** The members of a set, in an order the caller cannot choose. */
  method InSomeOrder(m: set<Id>) returns (ids: seq<Id>)
    ensures Lists(ids, m)
  {
    ids := [];
    var left := m;
    while left != {}
      invariant left <= m
      invariant Lists(ids, m - left)
      decreases left
    {
      var s :| s in left;
      ListsSnoc(ids, m - left, s);
      assert m - (left - {s}) == (m - left) + {s};
      ids, left := ids + [s], left - {s};
    }
  }

  predicate ComesFirst(seats: Table, some: set<Id>, s: Id)
    requires some <= seats.Keys
  {
    s in some && forall t :: t in some ==> LockKey.Le(seats[s].number, seats[t].number)
  }

  lemma {:induction false} FirstSeat(seats: Table, some: set<Id>)
    requires some != {} && some <= seats.Keys
    ensures exists s :: ComesFirst(seats, some, s)
    decreases some
  {
    hide LockKey.Le;
    var s :| s in some;
    var others := some - {s};
    LockKey.LeTotal(seats[s].number, seats[s].number);
    assert some == others + {s};
    if others == {} {
      assert ComesFirst(seats, some, s);
    } else {
      FirstSeat(seats, others);
      var f :| ComesFirst(seats, others, f);
      LockKey.LeTotal(seats[s].number, seats[f].number);
      if LockKey.Le(seats[s].number, seats[f].number) {
        forall t | t in others ensures LockKey.Le(seats[s].number, seats[t].number) {
          LockKey.LeTransitive(seats[s].number, seats[f].number, seats[t].number);
        }
        assert ComesFirst(seats, some, s);
      } else {
        assert ComesFirst(seats, some, f);
      }
    }
  }

  lemma LoadedRows(db: Db, cutoff: int, ids: seq<Id>, rows: seq<Booking>)
    requires Lists(ids, set r | r in db.reservations && Expired(db, cutoff, r)) && |rows| == |ids|
    requires forall i :: 0 <= i < |ids| ==>
               && ids[i] in db.reservations && Lists(rows[i].seatIds, db.reservations[ids[i]].seats)
               && rows[i] == Load(db, ids[i], rows[i].seatIds)
    ensures ExpiredRows(db, cutoff, rows)
  {
    assert forall i :: 0 <= i < |ids| ==> ids[i] in Elements(ids) && rows[i].id == ids[i];
    forall r | Expired(db, cutoff, r) ensures exists i :: 0 <= i < |rows| && rows[i].id == r {
      assert r in Elements(ids);
      var i :| 0 <= i < |ids| && ids[i] == r;
      assert rows[i].id == r;
    }
  }

  function Values(rs: seq<Reservation>): (bs: seq<Booking>)
    reads rs
    ensures |bs| == |rs| && forall i :: 0 <= i < |rs| ==> bs[i] == rs[i].Value()
  {
    if |rs| == 0 then [] else Values(rs[..|rs| - 1]) + [rs[|rs| - 1].Value()]
  }

  lemma PrefixStep(ids: seq<Id>, i: nat, seats: Table)
    requires i < |ids| && Distinct(ids[..i]) && forall s :: s in ids[..i] ==> s in seats
    ensures ids[i] in Elements(ids[..i]) ==> !Distinct(ids)
    ensures ids[i] !in Elements(ids[..i]) ==> Distinct(ids[..i + 1])
    ensures Elements(ids[..i + 1]) == Elements(ids[..i]) + {ids[i]}
    ensures ids[i] in seats ==> forall s :: s in ids[..i + 1] ==> s in seats
    ensures ids[i] in ids
  {
    assert ids[..i + 1] == ids[..i] + [ids[i]];
    if ids[i] in Elements(ids[..i]) {
      var j :| 0 <= j < i && ids[j] == ids[i];
    }
  }

  lemma ListsSnoc(ids: seq<Id>, m: set<Id>, s: Id)
    requires Lists(ids, m) && s !in m
    ensures Lists(ids + [s], m + {s})
  {
    assert s !in Elements(ids);
    assert Elements(ids + [s]) == Elements(ids) + {s};
  }
}
