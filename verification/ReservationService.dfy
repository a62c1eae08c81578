/** The reservation service over its repositories, the lock manager and the cache, one call at a time. */
module ReservationServices {
  import opened Sums
  import opened Domain
  import opened SeatTable
  import opened Database
  import opened Redis
  import opened Postgres
  import opened Protocol
  import opened Sequential
  import opened Sweep
  import opened Answers
  import LockKey

  lemma {:induction false} TallyStopsAtFirst(seats: Table, ids: seq<Id>, i: nat)
    requires i <= |ids| && Tally(seats, ids[..i]).Err?
    ensures Tally(seats, ids) == Tally(seats, ids[..i])
    decreases |ids|
  {
    if i == |ids| {
      assert ids[..i] == ids;
    } else {
      assert ids[..|ids| - 1][..i] == ids[..i];
      TallyStopsAtFirst(seats, ids[..|ids| - 1], i);
    }
  }

  lemma TallyNext(seats: Table, ids: seq<Id>, i: nat)
    requires i < |ids| && Tally(seats, ids[..i]).Ok?
    ensures Tally(seats, ids[..i + 1]) ==
              if ids[i] !in seats then Err(SeatNotFound)
              else if seats[ids[i]].status != Available then Err(SeatAlreadyReserved)
              else Ok(Tally(seats, ids[..i]).value + seats[ids[i]].price)
  {
    assert ids[..i + 1][..i] == ids[..i] && ids[..i + 1][i] == ids[i];
  }

  lemma NothingTallied(seats: Table, ids: seq<Id>)
    ensures Tally(seats, ids[..0]) == Ok(0)
  {
  }

  lemma RowsWithinReservations(db: Db, cutoff: int, rows: seq<Booking>)
    requires RowsLoaded(db, cutoff, rows)
    ensures |rows| <= |db.reservations|
  {
    var ids := seq(|rows|, i requires 0 <= i < |rows| => rows[i].id);
    assert Distinct(ids);
    DistinctCount(ids);
    forall r | r in Elements(ids) ensures r in db.reservations.Keys {
      var i :| 0 <= i < |ids| && ids[i] == r;
      assert Expired(db, cutoff, rows[i].id);
    }
    SameSizeSubset(Elements(ids), db.reservations.Keys);
    assert |db.reservations.Keys| == |db.reservations|;
  }

  /** What goes wrong in one CreateReservation besides its lock attempts. */
  datatype CreateFaults = CreateFaults(keyRead: bool, eventRead: bool, seatRead: bool, tx: TxFault, invalidate: bool,
    unlock: bool)
  {
    /** Past the key check nothing fails that the caller hears of: a failed invalidation or unlock is passed over. */
    predicate Harmless() { !eventRead && !seatRead && tx == NoFault }
  }

  class ReservationService {
    const store: Store
    const server: Server
    const locks: LockManager?
    const cache: SeatCache?

    ghost predicate Valid() {
      && (locks != null ==> locks.server == server)
      && (cache != null ==> cache.server == server)
    }

    constructor (store: Store, server: Server, locks: LockManager?, cache: SeatCache?)
      requires (locks != null ==> locks.server == server) && (cache != null ==> cache.server == server)
      ensures Valid() && this.store == store && this.server == server && this.locks == locks && this.cache == cache
    {
      this.store, this.server, this.locks, this.cache := store, server, locks, cache;
    }

    method InvalidateSeatCache(e: Id, fault: bool)
      requires Valid()
      modifies server`counts
      ensures server.counts == if cache != null && !fault then old(server.counts) - {e} else old(server.counts)
    {
      if cache != null { var err := cache.Invalidate(e, fault); }
    }

    /** Everything from the event check to the cache invalidation; other clients commit in between. */
    method Book(req: Request, rid: Id, checkedAt: int, now: int, m: Meanwhile, faults: CreateFaults)
      returns (res: Reservation?, err: Option<Error>)
      requires Valid() && rid !in m.atTx.reservations
      modifies store, server`counts
      ensures err.Some? ==>
                && res == null && store.Tables() in {m.atEvent, m.atSeats, m.atTx}
                    && server.counts == old(server.counts)
                && (faults.Harmless() ==> BookingAmid(m, checkedAt, now, rid, req) == Err(err.value))
      ensures err.None? ==>
                && faults.Harmless() && res != null && fresh(res)
                && BookingAmid(m, checkedAt, now, rid, req) == Ok(res.Value())
                && store.Tables() == Apply(m.atTx, Create(rid, res.Value().(id := "")))
                && server.counts == CountsAfter(old(server.counts), req.eventId, faults)
    {
      store.Become(m.atEvent);
      if faults.eventRead { return null, Some(Infrastructure); }
      if req.eventId !in store.events { return null, Some(EventNotFound); }
      if !store.events[req.eventId].IsBookingOpen(checkedAt) { return null, Some(EventNotOpen); }
      store.Become(m.atSeats);
      if faults.seatRead { return null, Some(Infrastructure); }
      var total: int;
      total, err := CheckSeats(req);
      if err.Some? { return null, err; }
      res := new Reservation(NewBooking(req.eventId, req.userId, req.key, req.seatIds, total, now));
      err := res.Value().Validate();
      if err.Some? { return null, err; }
      store.Become(m.atTx);
      res, err := CreateInTransaction(res, rid, faults.tx);
      if err.Some? { return null, err; }
      InvalidateSeatCache(req.eventId, faults.invalidate);
    }

    function CountsAfter(counts: map<Id, CacheEntry>, e: Id, faults: CreateFaults): map<Id, CacheEntry> {
      if cache != null && !faults.invalidate then counts - {e} else counts
    }

    /** The pre-check: read the event's seats into a map, then look at each requested seat and add up the prices. */
    method CheckSeats(req: Request) returns (total: int, err: Option<Error>)
      ensures Tally(SeatsOf(store.Tables(), req.eventId), req.seatIds) ==
                if err.Some? then Err(err.value) else Ok(total)
    {
      var rows := store.GetSeatsByEvent(req.eventId);
      var seatMap: Table := map[];
      for i := 0 to |rows|
        invariant forall s :: s in seatMap ==> s in SeatsOf(store.Tables(), req.eventId) && seatMap[s] == store.seats[s]
        invariant forall k :: 0 <= k < i ==> rows[k].0 in seatMap
      {
        seatMap := seatMap[rows[i].0 := rows[i].1];
      }
      assert seatMap == SeatsOf(store.Tables(), req.eventId) by {
        forall s | s in SeatsOf(store.Tables(), req.eventId) ensures s in seatMap {
          var k :| 0 <= k < |rows| && rows[k] == (s, store.seats[s]);
        }
      }
      hide Tally;
      total := 0;
      NothingTallied(seatMap, req.seatIds);
      for i := 0 to |req.seatIds|
        invariant Tally(seatMap, req.seatIds[..i]) == Ok(total)
      {
        var id := req.seatIds[i];
        TallyNext(seatMap, req.seatIds, i);
        if id !in seatMap {
          TallyStopsAtFirst(seatMap, req.seatIds, i + 1);
          return 0, Some(SeatNotFound);
        }
        if seatMap[id].status != Available {
          TallyStopsAtFirst(seatMap, req.seatIds, i + 1);
          return 0, Some(SeatAlreadyReserved);
        }
        total := total + seatMap[id].price;
      }
      assert req.seatIds[..|req.seatIds|] == req.seatIds;
      err := None;
    }

    /** Insert, reserve, commit; any error undoes whatever the statements before it did. */
    method CreateInTransaction(draft: Reservation, rid: Id, fault: TxFault)
      returns (res: Reservation?, err: Option<Error>)
      requires rid !in store.reservations
      modifies store, draft`id
      ensures fault == NoFault ==>
                Execute(old(store.Tables()), Create(rid, old(draft.Value()))) ==
                if err.Some? then Err(err.value) else Ok(store.Tables())
      ensures fault != NoFault ==> err.Some?
      ensures err.Some? ==> res == null && store.Tables() == old(store.Tables())
      ensures err.None? ==> res == draft && res.Value() == old(draft.Value()).(id := rid)
    {
      if fault == BeginFails { return null, Some(Infrastructure); }
      var saved := store.Begin();
      err := store.CreateReservation(draft, rid);
      if err.None? && fault == UpdateFails { err := Some(Infrastructure); }
      if err.Some? { store.Rollback(saved); return null, err; }
      ghost var inserted := store.Tables();
      err := store.ReserveSeats(draft.seatIds, rid);
      if err.None? && fault != NoFault { err := Some(Infrastructure); }
      if err.Some? { store.Rollback(saved); return null, err; }
      assert store.Tables() == inserted.(seats := store.seats);
      res := draft;
    }

    /** Attempt `i` finds the key of the requested seats taken. */
    predicate TakenFor(req: Request, attempts: seq<Attempt>, i: nat)
      requires i <= |attempts|
      reads server
    {
      TakenAt(server.locks, server.now, attempts, i, RedisLockKey(req.seatIds))
    }

    /** Attempt `i` finds it taken, and neither it nor the wait after it fails. */
    predicate Busy(req: Request, attempts: seq<Attempt>, i: nat)
      requires i < |attempts|
      reads server
    {
      TakenFor(req, attempts, i) && !attempts[i].fault && !attempts[i].done
    }

    predicate LockFree(req: Request, attempts: seq<Attempt>)
      reads server
    {
      locks == null || (|attempts| > 0 && !attempts[0].fault && !TakenFor(req, attempts, 0))
    }

    /** Three attempts at the lock of the requested seats, for ten seconds. */
    method LockSeats(req: Request, attempts: seq<Attempt>) returns (lock: DistributedLock?, err: Option<Error>)
      requires Valid() && locks != null && |attempts| >= 3 && NoneOfOurs(server.locks, attempts)
      requires forall i :: 0 <= i < |attempts| ==> NoneOfOurs(attempts[i].others, attempts)
      modifies server`locks, server`now
      ensures err.Some? <==> lock == null
      ensures (forall i :: 0 <= i < 3 ==> old(Busy(req, attempts, i))) ==> err == Some(LockBusy)
      ensures !attempts[0].fault && !old(TakenFor(req, attempts, 0)) ==> lock != null
      ensures lock == null ==> NoneOfOurs(server.locks, attempts)
      ensures lock != null ==>
                && lock.server == server && lock.key == RedisLockKey(req.seatIds)
                && NoneOfOurs(server.locks - {lock.key}, attempts)
                && exists i :: 0 <= i < 3 && !attempts[i].fault && !old(TakenFor(req, attempts, i))
                     && lock.value == attempts[i].token && lock.key in server.locks
                     && server.locks[lock.key] == LockEntry(attempts[i].token, At(server.now + 10 * 1000))
    {
      hide NoneOfOurs, TakenAt;
      var key := LockKey.BuildSeatLockKey(req.seatIds);
      assert "lock:" + key == RedisLockKey(req.seatIds);
      var lockErr, tries;
      lock, lockErr, tries := locks.AcquireLockWithRetry(key, LOCK_TTL, LOCK_RETRIES, attempts);
      assert old(Busy(req, attempts, tries - 1)) ==> lockErr == Some(LockNotAcquired);
      if lockErr.Some? {
        return null, Some(if lockErr.value == LockNotAcquired then LockBusy else lockErr.value);
      }
      err := None;
    }

    /** What a request with an unused key does: lock, book, unlock. */
    method BookUnderLock(req: Request, rid: Id, checkedAt: int, now: int, attempts: seq<Attempt>, m: Meanwhile,
                         faults: CreateFaults)
      returns (res: Reservation?, err: Option<Error>)
      requires Valid() && rid !in m.atTx.reservations
      requires |attempts| >= 3 && NoneOfOurs(server.locks, attempts)
      requires forall i :: 0 <= i < |attempts| ==> NoneOfOurs(attempts[i].others, attempts)
      modifies store, server
      ensures err.Some? ==>
                && res == null && store.Tables() in {old(store.Tables()), m.atEvent, m.atSeats, m.atTx}
                && server.counts == old(server.counts)
      ensures err.None? ==>
                && faults.Harmless() && res != null && fresh(res)
                && BookingAmid(m, checkedAt, now, rid, req) == Ok(res.Value())
                && store.Tables() == Apply(m.atTx, Create(rid, res.Value().(id := "")))
                && server.counts == CountsAfter(old(server.counts), req.eventId, faults)
      ensures err.Some? && faults.Harmless() && old(LockFree(req, attempts)) ==>
                BookingAmid(m, checkedAt, now, rid, req) == Err(err.value)
      ensures locks != null && (forall i :: 0 <= i < 3 ==> old(Busy(req, attempts, i))) ==>
                err == Some(LockBusy) && store.Tables() == old(store.Tables())
      ensures locks != null && err.None? ==>
                exists i :: 0 <= i < 3 && !attempts[i].fault && !old(TakenFor(req, attempts, i))
      ensures locks != null && err.None? && faults.unlock ==> LockKept(req, attempts)
      ensures !faults.unlock ==> NoneOfOurs(server.locks, attempts)
    {
      hide BookingAmid, NoneOfOurs, TakenFor, Apply, RedisLockKey;
      var lock: DistributedLock? := null;
      if locks != null {
        lock, err := LockSeats(req, attempts);
        if err.Some? { return null, err; }
      }
      res, err := Book(req, rid, checkedAt, now, m, faults);
      if lock != null {
        var unlockErr := lock.Release(faults.unlock);
      }
    }

    /** The entry of the requested seats carries one of the attempts' tokens, for ten seconds. */
    ghost predicate LockKept(req: Request, attempts: seq<Attempt>)
      requires |attempts| >= 3
      reads server
    {
      var key := RedisLockKey(req.seatIds);
      key in server.locks
      && exists i :: 0 <= i < 3 && server.locks[key] == LockEntry(attempts[i].token, At(server.now + 10 * 1000))
    }

    /** A key already used returns its reservation and changes nothing.  Otherwise the request either meets a failure
        or never gets its lock, or gets exactly the booking result for the tables it found at each step.  All or nothing
        under any failure.  With a lock manager nothing is booked unless one of three attempts found the key of the
        requested seats free and took it, and no lock entry of its own is left unless giving it back fails. */
    method CreateReservation(req: Request, rid: Id, checkedAt: int, now: int, attempts: seq<Attempt>, m: Meanwhile,
                             faults: CreateFaults)
      returns (res: Reservation?, err: Option<Error>)
      requires Valid() && rid !in m.atTx.issued && rid !in m.atTx.reservations
      requires |attempts| >= 3 && NoneOfOurs(server.locks, attempts)
      requires forall i :: 0 <= i < |attempts| ==> NoneOfOurs(attempts[i].others, attempts)
      modifies store, server
      ensures err.Some? <==> res == null
      ensures err.Some? ==> store.Tables() in {old(store.Tables()), m.atEvent, m.atSeats, m.atTx}
      ensures err.Some? ==> server.counts == old(server.counts)
      ensures faults.keyRead ==> err == Some(Infrastructure)
      ensures faults.keyRead || KeyTaken(old(store.Tables()), req.key) ==>
                && store.Tables() == old(store.Tables()) && server.locks == old(server.locks)
                && server.counts == old(server.counts)
      ensures !faults.keyRead && KeyTaken(old(store.Tables()), req.key) ==>
                && err.None? && res.id in store.reservations && store.reservations[res.id].key == req.key
                && ReadsBack(res.Value(), res.id, store.reservations[res.id])
      ensures !KeyTaken(old(store.Tables()), req.key) && err.None? ==>
                && faults.Harmless() && BookingAnswer(m, checkedAt, now, rid, req, Ok(res.Value()))
                && OnlyBooked(m.atTx, store.Tables(), rid, req, res.Value().total, now)
                && server.counts == CountsAfter(old(server.counts), req.eventId, faults)
      ensures !KeyTaken(old(store.Tables()), req.key) && err.Some? && !faults.keyRead && faults.Harmless() ==>
                (old(LockFree(req, attempts)) ==> BookingAnswer(m, checkedAt, now, rid, req, Err(err.value)))
      ensures !faults.keyRead && !KeyTaken(old(store.Tables()), req.key) && locks != null ==>
                && ((forall i :: 0 <= i < 3 ==> old(Busy(req, attempts, i))) ==>
                      err == Some(LockBusy) && store.Tables() == old(store.Tables()))
                && (err.None? ==> exists i :: 0 <= i < 3 && !attempts[i].fault && !old(TakenFor(req, attempts, i)))
                && (err.None? && faults.unlock ==> LockKept(req, attempts))
      ensures !faults.unlock ==> NoneOfOurs(server.locks, attempts)
    {
      hide BookingAmid, BookingAnswer, OnlyBooked, ReadsBack, Load, NoneOfOurs, TakenFor, LockFree, LockKept, Apply,
        KeyTaken, Busy;
      if faults.keyRead { return null, Some(Infrastructure); }
      res, err := store.GetReservationByKey(req.key);
      if err.None? { return; }
      BookingAnswers(m, checkedAt, now, rid, req);
      res, err := BookUnderLock(req, rid, checkedAt, now, attempts, m, faults);
    }

    /** Confirm, with other clients committing between the read and the transaction and whatever goes wrong in it: all
        or nothing, and without faults exactly what was read, settled, on the tables found. */
    method ConfirmReservation(id: Id, checkedAt: int, now: int, atTx: Db, readFails: bool, fault: TxFault)
      returns (res: Reservation?, err: Option<Error>)
      modifies store
      ensures readFails ==> err == Some(Infrastructure)
      ensures !readFails && id !in old(store.reservations) ==> err == Some(ReservationNotFound)
      ensures !readFails && id in old(store.reservations) && fault == NoFault ==> exists ids ::
                && Lists(ids, old(store.reservations)[id].seats) && (err.None? ==> res != null)
                && SettleAmid(old(store.Tables()), atTx, Load(old(store.Tables()), id, ids).Confirm(checkedAt, now)) ==
                   (store.Tables(), if err.Some? then Err(err.value) else Ok(res.Value()))
      ensures !readFails && id in old(store.reservations) && fault == NoFault ==>
                && ConfirmAnswer(old(store.Tables()), atTx, id, checkedAt, now, store.Tables(), err)
                && (err.None? ==> res != null && Returns(old(store.reservations)[id], id, ReservationStatus.Confirmed,
                                                         Some(now), res.Value()))
      ensures fault != NoFault ==> err.Some?
      ensures err.Some? ==> store.Tables() in {old(store.Tables()), atTx}
    {
      if readFails { return null, Some(Infrastructure); }
      res, err := store.GetReservation(id);
      if err.Some? { return; }
      hide ConfirmAnswer, Returns, ReadsBack;
      ghost var ids := res.seatIds;
      ConfirmAnswers(store.Tables(), atTx, id, ids, checkedAt, now);
      err := res.Confirm(checkedAt, now);
      if err.Some? { return; }
      store.Become(atTx);
      if fault == BeginFails { return null, Some(Infrastructure); }
      var saved := store.Begin();
      err := store.ConfirmSeats(res.seatIds);
      if err.None? && fault == SeatsFail { err := Some(Infrastructure); }
      if err.Some? { store.Rollback(saved); return null, err; }
      assert store.Tables() == saved.(seats := store.seats);
      err := store.UpdateReservation(res);
      if err.None? && fault != NoFault { err := Some(Infrastructure); }
      if err.Some? { store.Rollback(saved); return null, err; }
    }

    /** Cancel, likewise, and then the cached count is dropped. */
    method CancelReservation(id: Id, atTx: Db, readFails: bool, fault: TxFault, invalidateFails: bool)
      returns (res: Reservation?, err: Option<Error>)
      requires Valid()
      modifies store, server`counts
      ensures readFails ==> err == Some(Infrastructure)
      ensures !readFails && id !in old(store.reservations) ==> err == Some(ReservationNotFound)
      ensures server.counts == if err.None? && cache != null && !invalidateFails
                               then old(server.counts) - {old(store.reservations)[id].eventId} else old(server.counts)
      ensures !readFails && id in old(store.reservations) && fault == NoFault ==> exists ids ::
                && Lists(ids, old(store.reservations)[id].seats) && (err.None? ==> res != null)
                && SettleAmid(old(store.Tables()), atTx, Load(old(store.Tables()), id, ids).Cancel()) ==
                   (store.Tables(), if err.Some? then Err(err.value) else Ok(res.Value()))
      ensures !readFails && id in old(store.reservations) && fault == NoFault ==>
                && CancelAnswer(old(store.Tables()), atTx, id, store.Tables(), err)
                && (err.None? ==> res != null && Returns(old(store.reservations)[id], id, Cancelled,
                                                         old(store.reservations)[id].confirmedAt, res.Value()))
      ensures fault != NoFault ==> err.Some?
      ensures err.Some? ==> store.Tables() in {old(store.Tables()), atTx}
    {
      if readFails { return null, Some(Infrastructure); }
      res, err := store.GetReservation(id);
      if err.Some? { return; }
      hide CancelAnswer, Returns, ReadsBack;
      ghost var ids := res.seatIds;
      CancelAnswers(store.Tables(), atTx, id, ids);
      err := res.Cancel();
      if err.Some? { return; }
      store.Become(atTx);
      err := CancelInTransaction(res, fault);
      if err.Some? { return null, err; }
      InvalidateSeatCache(res.eventId, invalidateFails);
    }

    /** Release, update, commit; any error undoes whatever the statements before it did. */
    method CancelInTransaction(res: Reservation, fault: TxFault) returns (err: Option<Error>)
      modifies store
      ensures fault == NoFault ==>
                Execute(old(store.Tables()), Cancel(res.Value())) ==
                  if err.Some? then Err(err.value) else Ok(store.Tables())
      ensures fault != NoFault ==> err.Some?
      ensures err.Some? ==> store.Tables() == old(store.Tables())
    {
      if fault == BeginFails { return Some(Infrastructure); }
      var saved := store.Begin();
      store.ReleaseSeats(res.seatIds);
      if fault == SeatsFail { store.Rollback(saved); return Some(Infrastructure); }
      assert store.Tables() == saved.(seats := store.seats);
      err := store.UpdateReservation(res);
      if err.None? && fault != NoFault { err := Some(Infrastructure); }
      if err.Some? { store.Rollback(saved); }
    }

    /** One item of the sweep: its own transaction, undone wherever it fails. */
    method CancelExpired(res: Reservation, fault: TxFault) returns (cancelled: bool)
      modifies store, res`status
      ensures SweepItem(Progress(old(store.Tables()), 0), old(res.Value()), fault) ==
              Progress(store.Tables(), if cancelled then 1 else 0)
    {
      var err := res.Cancel();
      if err.Some? { return false; }
      err := CancelInTransaction(res, fault);
      if err.Some? { return false; }
      cancelled := true;
    }

    /** The sweep refines its specification for every order of rows and every pattern of failures; when the
        expired reservations cannot be read it does nothing. */
    method CancelExpiredReservations(expireAfter: int, now: int, readFails: bool, faults: seq<TxFault>)
      returns (count: nat, err: Option<Error>)
      requires |faults| >= |store.reservations|
      modifies store
      ensures err == if readFails then Some(Infrastructure) else None
      ensures readFails ==> count == 0 && store.Tables() == old(store.Tables())
      ensures !readFails ==> exists rows ::
                && ExpiredRows(old(store.Tables()), now - expireAfter, rows) && |rows| <= |faults|
                && SweepRows(old(store.Tables()), rows, faults) == Progress(store.Tables(), count)
    {
      if readFails { return 0, Some(Infrastructure); }
      hide SweepItem, SweepRows, RowsLoaded, Load;
      var expired := store.GetExpiredPending(now - expireAfter);
      ghost var rows, db := Values(expired), store.Tables();
      RowsWithinReservations(db, now - expireAfter, rows);
      NothingSwept(db, rows, faults);
      count := 0;
      for i := 0 to |expired|
        invariant |faults| >= |rows| && SweepRows(db, rows[..i], faults) == Progress(store.Tables(), count)
        invariant forall k :: i <= k < |expired| ==> expired[k].Value() == rows[k]
        invariant forall r :: r in expired ==> fresh(r)
      {
        SweepNext(db, rows, faults, i);
        assert expired[i] in expired;
        var cancelled := CancelExpired(expired[i], faults[i]);
        if cancelled { count := count + 1; }
      }
      assert rows[..|expired|] == rows;
      err := None;
    }
  }

  lemma NothingSwept(db: Db, rows: seq<Booking>, faults: seq<TxFault>)
    requires |rows| <= |faults|
    ensures SweepRows(db, rows[..0], faults) == Progress(db, 0)
  {
  }

  lemma SweepNext(db: Db, rows: seq<Booking>, faults: seq<TxFault>, i: nat)
    requires i < |rows| <= |faults|
    ensures SweepRows(db, rows[..i + 1], faults) == SweepItem(SweepRows(db, rows[..i], faults), rows[i], faults[i])
    ensures var s := SweepRows(db, rows[..i], faults);
            SweepItem(s, rows[i], faults[i]) ==
            Progress(SweepItem(Progress(s.db, 0), rows[i], faults[i]).db,
                     s.count + SweepItem(Progress(s.db, 0), rows[i], faults[i]).count)
  {
    assert rows[..i + 1][..i] == rows[..i];
  }
}
