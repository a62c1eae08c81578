/**
 What each service call answers and leaves, said in the stored values alone: which check refuses first, with which
 error, and otherwise every row afterwards.  Other clients may commit between a call's reads and its transaction.
 */
module Answers {
  import opened Sums
  import opened Domain
  import opened SeatTable
  import opened Database
  import opened Invariants
  import opened Ownership
  import opened Redis
  import opened Protocol
  import opened Sequential
  import Safety

  // ---------------------------------------------------------------- settling a reservation

  /** Reservation `id` has the given status and confirmation time; no other reservation, event or id differs. */
  ghost predicate OnlySettled(db: Db, next: Db, id: Id, st: ReservationStatus, at: Option<int>)
    requires id in db.reservations
  {
    && next.events == db.events && next.issued == db.issued && next.reservations.Keys == db.reservations.Keys
    && next.reservations[id] == db.reservations[id].(status := st, confirmedAt := at)
    && forall r :: r in db.reservations && r != id ==> next.reservations[r] == db.reservations[r]
  }

  /** The listed seats are available and without a holder, one version on; no other seat differs. */
  ghost predicate OnlyFreed(seats: Table, next: Table, ids: set<Id>) {
    && next.Keys == seats.Keys
    && forall s :: s in seats ==>
         if s !in ids then next[s] == seats[s]
         else next[s] == seats[s].(status := Available, reservedBy := None, version := seats[s].version + 1)
  }

  /** The listed seats are confirmed, one version on; no other seat differs. */
  ghost predicate OnlyConfirmed(seats: Table, next: Table, ids: set<Id>) {
    && next.Keys == seats.Keys
    && forall s :: s in seats ==>
         if s !in ids then next[s] == seats[s]
         else next[s] == seats[s].(status := SeatStatus.Confirmed, version := seats[s].version + 1)
  }

  /** The answer to a cancellation that reads reservation `id` in `before` and commits in `atTx`. */
  ghost predicate CancelAnswer(before: Db, atTx: Db, id: Id, next: Db, err: Option<Error>)
    requires id in before.reservations
  {
    var row := before.reservations[id];
    match row.status
    case Cancelled => err == Some(ReservationAlreadyCancelled) && next == before
    case Confirmed => err == Some(ReservationAlreadyConfirmed) && next == before
    case Pending =>
      if id !in atTx.reservations then err == Some(ReservationNotFound) && next == atTx
      else
        && err.None? && OnlySettled(atTx, next, id, Cancelled, row.confirmedAt)
        && OnlyFreed(atTx.seats, next.seats, row.seats)
  }

  /** The answer to a confirmation, with its two looks at the clock. */
  ghost predicate ConfirmAnswer(before: Db, atTx: Db, id: Id, checkedAt: int, now: int, next: Db, err: Option<Error>)
    requires id in before.reservations
  {
    var row := before.reservations[id];
    if row.status != Pending then err == Some(ReservationNotPending) && next == before
    else if row.expiresAt < checkedAt then err == Some(ReservationExpired) && next == before
    else if exists s :: s in row.seats && !(s in atTx.seats && atTx.seats[s].status == Reserved) then
      err == Some(SeatNotReserved) && next == atTx
    else if id !in atTx.reservations then err == Some(ReservationNotFound) && next == atTx
    else
      && err.None? && OnlySettled(atTx, next, id, ReservationStatus.Confirmed, Some(now))
      && OnlyConfirmed(atTx.seats, next.seats, row.seats)
  }

  /** The reservation a settling call returns. */
  ghost predicate Returns(row: ReservationRow, id: Id, st: ReservationStatus, at: Option<int>, b: Booking) {
    && b == Booking(id, row.eventId, row.userId, b.seatIds, st, row.key, row.total, row.createdAt, row.expiresAt, at)
    && Lists(b.seatIds, row.seats)
  }

  function ErrorOf<T>(r: Result<T>): Option<Error> { if r.Err? then Some(r.error) else None }

  lemma CancelAnswers(before: Db, atTx: Db, id: Id, ids: seq<Id>)
    requires id in before.reservations && Lists(ids, before.reservations[id].seats)
    ensures var r := SettleAmid(before, atTx, Load(before, id, ids).Cancel());
            && CancelAnswer(before, atTx, id, r.0, ErrorOf(r.1))
            && (r.1.Ok? ==>
                  Returns(before.reservations[id], id, Cancelled, before.reservations[id].confirmedAt, r.1.value))
  {
    assert forall s :: s in ids <==> s in Elements(ids);
    if before.reservations[id].status == Pending && id in atTx.reservations {
      CancelledTables(atTx, Load(before, id, ids).Cancel().value);
    }
  }

  lemma ConfirmAnswers(before: Db, atTx: Db, id: Id, ids: seq<Id>, checkedAt: int, now: int)
    requires id in before.reservations && Lists(ids, before.reservations[id].seats)
    ensures var r := SettleAmid(before, atTx, Load(before, id, ids).Confirm(checkedAt, now));
            && ConfirmAnswer(before, atTx, id, checkedAt, now, r.0, ErrorOf(r.1))
            && (r.1.Ok? ==> Returns(before.reservations[id], id, ReservationStatus.Confirmed, Some(now), r.1.value))
  {
    assert forall s :: s in ids <==> s in Elements(ids);
    ConfirmEffect(atTx.seats, ids);
  }

  /** From tables in which seats and reservations agree, cancelling succeeds exactly for a pending reservation; then
      exactly the seats it held are available without a holder, and all else is as it was. */
  lemma CancelSucceedsExactly(db: Db, id: Id, ids: seq<Id>)
    requires Linked(db) && Consistent(db) && id in db.reservations && Lists(ids, db.reservations[id].seats)
    ensures var r, st := SettleAmid(db, db, Load(db, id, ids).Cancel()), db.reservations[id].status;
            && (r.1.Ok? <==> st == Pending) && (r.1.Err? ==> r.0 == db)
            && (st == ReservationStatus.Confirmed ==> r.1 == Err(ReservationAlreadyConfirmed))
            && (st == Cancelled ==> r.1 == Err(ReservationAlreadyCancelled))
            && (st == Pending ==>
                  && OnlySettled(db, r.0, id, Cancelled, db.reservations[id].confirmedAt)
                      && r.0.seats.Keys == db.seats.Keys
                  && forall s :: s in db.seats ==>
                       if db.seats[s].reservedBy != Some(id) then r.0.seats[s] == db.seats[s]
                       else r.0.seats[s] == db.seats[s].(status := Available, reservedBy := None,
                                                          version := db.seats[s].version + 1))
  {
    CancelAnswers(db, db, id, ids);
    if db.reservations[id].status == Pending { HeldExactly(db, id); }
  }

  lemma HeldExactly(db: Db, id: Id)
    requires Consistent(db) && id in db.reservations && Active(db.reservations[id].status)
    ensures forall s :: s in db.seats ==> (s in db.reservations[id].seats <==> db.seats[s].reservedBy == Some(id))
  {
    assert HoldsItsSeats(db, id);
    forall s | s in db.seats && db.seats[s].reservedBy == Some(id) ensures s in db.reservations[id].seats {
      assert NamesItsHolder(db, s);
    }
  }

  // ---------------------------------------------------------------- booking

  predicate FreeIn(db: Db, e: Id, s: Id) {
    s in db.seats && db.seats[s].eventId == e && db.seats[s].status == Available
  }

  /** Seat `i` of the list is the first that is not free. */
  ghost predicate FirstTaken(db: Db, e: Id, ids: seq<Id>, i: int) {
    0 <= i < |ids| && !FreeIn(db, e, ids[i]) && forall k :: 0 <= k < i ==> FreeIn(db, e, ids[k])
  }

  /** The answer to a request with an unused key: the first check that fails decides. */
  ghost predicate BookingAnswer(m: Meanwhile, checkedAt: int, now: int, rid: Id, req: Request, r: Result<Booking>) {
    var e, ids := req.eventId, req.seatIds;
    if e !in m.atEvent.events then r == Err(EventNotFound)
    else if m.atEvent.events[e].startAt <= checkedAt then r == Err(EventNotOpen)
    else if exists i :: FirstTaken(m.atSeats, e, ids, i) then
      exists i :: FirstTaken(m.atSeats, e, ids, i)
        && r == Err(if ids[i] in m.atSeats.seats && m.atSeats.seats[ids[i]].eventId == e then SeatAlreadyReserved
                    else SeatNotFound)
    else if e == "" then r == Err(EventIdRequired)
    else if req.userId == "" then r == Err(UserIdRequired)
    else if ids == [] then r == Err(SeatIdsRequired)
    else if req.key == "" then r == Err(KeyRequired)
    else if |req.userId| > 255 || |req.key| > 255 then r == Err(Infrastructure)
    else if exists q :: q in m.atTx.reservations && m.atTx.reservations[q].key == req.key then
      r == Err(KeyAlreadyExists)
    else if e !in m.atTx.events || !Distinct(ids) || exists s :: s in ids && s !in m.atTx.seats then
      r == Err(Infrastructure)
    else if exists s :: s in ids && m.atTx.seats[s].status != Available then r == Err(SeatAlreadyReserved)
    else
      r == Ok(Booking(rid, e, req.userId, ids, Pending, req.key, Sum(Prices(m.atSeats.seats, Elements(ids))), now,
                      now + 15 * MINUTE, None))
  }

  /** The request is stored under `rid` as a pending reservation that holds its seats; nothing else differs. */
  ghost predicate OnlyBooked(db: Db, next: Db, rid: Id, req: Request, total: int, now: int) {
    && next.events == db.events && next.issued == db.issued + {rid}
    && next.reservations == db.reservations[rid :=
         ReservationRow(req.eventId, req.userId, req.key, Pending, total, now, now + 15 * MINUTE, None,
                        Elements(req.seatIds))]
    && next.seats.Keys == db.seats.Keys
    && forall s :: s in db.seats ==>
         if s !in req.seatIds then next.seats[s] == db.seats[s]
         else next.seats[s] == db.seats[s].(status := Reserved, reservedBy := Some(rid),
           version := db.seats[s].version + 1)
  }

  /** Where and why the seat check refuses. */
  lemma {:induction false} TallyRefuses(db: Db, e: Id, ids: seq<Id>) returns (i: nat)
    requires Tally(SeatsOf(db, e), ids).Err?
    ensures FirstTaken(db, e, ids, i)
    ensures Tally(SeatsOf(db, e), ids).error ==
              if ids[i] in db.seats && db.seats[ids[i]].eventId == e then SeatAlreadyReserved else SeatNotFound
    decreases |ids|
  {
    var n := |ids| - 1;
    var init := ids[..n];
    assert forall k :: 0 <= k < n ==> init[k] == ids[k];
    if Tally(SeatsOf(db, e), init).Err? {
      i := TallyRefuses(db, e, init);
    } else {
      i := n;
      TallyPasses(db, e, init);
    }
  }

  lemma TallyPasses(db: Db, e: Id, ids: seq<Id>)
    requires Tally(SeatsOf(db, e), ids).Ok?
    ensures forall k :: 0 <= k < |ids| ==> FreeIn(db, e, ids[k])
  {
    Sequential.TallyOk(SeatsOf(db, e), ids);
  }

  lemma TallyAnswers(db: Db, e: Id, ids: seq<Id>)
    ensures Tally(SeatsOf(db, e), ids).Ok? <==> forall i :: !FirstTaken(db, e, ids, i)
    ensures Tally(SeatsOf(db, e), ids).Err? ==>
              exists i :: FirstTaken(db, e, ids, i)
                && Tally(SeatsOf(db, e), ids).error ==
                   if ids[i] in db.seats && db.seats[ids[i]].eventId == e then SeatAlreadyReserved else SeatNotFound
  {
    hide Tally;
    if Tally(SeatsOf(db, e), ids).Ok? {
      TallyPasses(db, e, ids);
    } else {
      var i := TallyRefuses(db, e, ids);
    }
  }

  /** The total a passed check arrives at, whether or not the list has duplicates that the insertion will refuse. */
  lemma PassedTotal(db: Db, e: Id, ids: seq<Id>)
    requires Tally(SeatsOf(db, e), ids).Ok? && Distinct(ids)
    ensures Tally(SeatsOf(db, e), ids).value == Sum(Prices(db.seats, Elements(ids)))
  {
    Safety.TallySum(SeatsOf(db, e), ids);
    SamePrices(SeatsOf(db, e), db.seats, Elements(ids));
  }

  lemma BookingAnswers(m: Meanwhile, checkedAt: int, now: int, rid: Id, req: Request)
    ensures BookingAnswer(m, checkedAt, now, rid, req, BookingAmid(m, checkedAt, now, rid, req))
    ensures BookingAmid(m, checkedAt, now, rid, req).Ok? ==>
              var b := BookingAmid(m, checkedAt, now, rid, req).value;
              OnlyBooked(m.atTx, Apply(m.atTx, Create(rid, b.(id := ""))), rid, req, b.total, now)
  {
    hide FirstTaken;
    TallyAnswers(m.atSeats, req.eventId, req.seatIds);
    if PreCheck(m, checkedAt, now, req).Ok? {
      var b := PreCheck(m, checkedAt, now, req).value;
      TxAnswer(m.atTx, rid, b);
      if Distinct(b.seatIds) { PassedTotal(m.atSeats, req.eventId, req.seatIds); }
      if Execute(m.atTx, Create(rid, b)).Ok? { CreatedTables(m.atTx, rid, b); }
    }
  }

  /** Which error the transaction of a Create meets first. */
  lemma TxAnswer(db: Db, rid: Id, b: Booking)
    ensures var r := Execute(db, Create(rid, b));
            if |b.userId| > 255 || |b.key| > 255 then r == Err(Infrastructure)
            else if exists q :: q in db.reservations && db.reservations[q].key == b.key then r == Err(KeyAlreadyExists)
            else if b.eventId !in db.events || !Distinct(b.seatIds) || exists s :: s in b.seatIds && s !in db.seats then
              r == Err(Infrastructure)
            else if exists s :: s in b.seatIds && db.seats[s].status != Available then r == Err(SeatAlreadyReserved)
            else r.Ok?
  {
    ReserveEffect(db.seats, b.seatIds, rid);
  }

  // ---------------------------------------------------------------- step by step

  function OrElse(e: Effect, next: Effect, goOn: bool): Effect { if goOn then next else e }

  /** A Create from its event check to its transaction, each step meeting the shared resources of its own moment. */
  function BookInSteps(sh1: Shared, sh2: Shared, sh3: Shared, req: Request, lock: Option<Held>, rid: Id): Effect {
    var e1 := ClientStep(sh1, EventCheck(req, lock), Go);
    var e2 := OrElse(e1, ClientStep(sh2, e1.pc, Go), e1.pc.SeatCheck?);
    OrElse(e2, ClientStep(sh3, e2.pc, Generated(rid)), e2.pc.CreateTx?)
  }

  /** A Confirm from its read to its transaction: one look at the database, two at the clock, one transaction. */
  function ConfirmInSteps(sh1: Shared, sh2: Shared, sh3: Shared, sh4: Shared, id: Id, ids: seq<Id>): Effect {
    var e1 := ClientStep(sh1, ConfirmRead(id), Found(id, ids));
    var e2 := OrElse(e1, ClientStep(sh2, e1.pc, Go), e1.pc.ConfirmCheck?);
    var e3 := OrElse(e2, ClientStep(sh3, e2.pc, Go), e2.pc.ConfirmStamp?);
    OrElse(e3, ClientStep(sh4, e3.pc, Go), e3.pc.ConfirmTx?)
  }

  function CancelInSteps(sh1: Shared, sh2: Shared, id: Id, ids: seq<Id>): Effect {
    var e1 := ClientStep(sh1, CancelCheck(id), Found(id, ids));
    OrElse(e1, ClientStep(sh2, e1.pc, Go), e1.pc.CancelTx?)
  }

  /** The three attempts of a Create at its lock. */
  function LockInSteps(sh1: Shared, sh2: Shared, sh3: Shared, req: Request, t1: Id, t2: Id, t3: Id): Effect {
    var e1 := ClientStep(sh1, LockTry(req, LOCK_RETRIES), Generated(t1));
    var e2 := OrElse(e1, ClientStep(sh2, e1.pc, Generated(t2)), e1.pc.LockTry?);
    OrElse(e2, ClientStep(sh3, e2.pc, Generated(t3)), e2.pc.LockTry?)
  }

  /** The key of the requested seats is taken with `token`, for ten seconds, and no other key is touched. */
  predicate OnlyLocked(sh: Shared, e: Effect, req: Request, token: Id) {
    var key := RedisLockKey(req.seatIds);
    && e.pc == EventCheck(req, Some(Held(key, token, sh.now + 10 * 1000)))
    && e.sh == sh.(locks := sh.locks[key := LockEntry(token, At(sh.now + 10 * 1000))], tokens := sh.tokens + {token})
  }

  /** The first attempt that finds the key free takes it; three that find it taken are answered as being processed. */
  lemma LockStepsAnswer(sh1: Shared, sh2: Shared, sh3: Shared, req: Request, t1: Id, t2: Id, t3: Id)
    ensures var e, key := LockInSteps(sh1, sh2, sh3, req, t1, t2, t3), RedisLockKey(req.seatIds);
            if !LockLive(sh1, key) then OnlyLocked(sh1, e, req, t1)
            else if !LockLive(sh2, key) then OnlyLocked(sh2, e, req, t2)
            else if !LockLive(sh3, key) then OnlyLocked(sh3, e, req, t3)
            else e.pc == Returned(Failed(LockBusy)) && e.sh == sh3.(tokens := sh3.tokens + {t3})
  {
    hide RedisLockKey;
  }

  /** A client that moves step by step among others answers a booking as the call does: the same check decides, with the
      same error, and a booked request leaves its client at the invalidation with everything else as it was. */
  lemma BookingStepsAnswer(sh1: Shared, sh2: Shared, sh3: Shared, req: Request, lock: Option<Held>, rid: Id)
    ensures var e, m := BookInSteps(sh1, sh2, sh3, req, lock, rid), Meanwhile(sh1.db, sh2.db, sh3.db);
            if e.pc.CreateInvalidate? then
              && e.pc == CreateInvalidate(req, lock, e.pc.b)
              && BookingAnswer(m, sh1.now, sh2.now, rid, req, Ok(e.pc.b))
              && e.sh == sh3.(db := e.sh.db) && OnlyBooked(sh3.db, e.sh.db, rid, req, e.pc.b.total, sh2.now)
            else
              && e.pc.Unlock? && e.pc == Unlock(req, lock, Failed(e.pc.out.error))
              && BookingAnswer(m, sh1.now, sh2.now, rid, req, Err(e.pc.out.error)) && e.sh in {sh1, sh2, sh3}
  {
    hide BookingAnswer, OnlyBooked, Tally, Execute;
    BookingAnswers(Meanwhile(sh1.db, sh2.db, sh3.db), sh1.now, sh2.now, rid, req);
  }

  /** So does a confirmation ... */
  lemma ConfirmStepsAnswer(sh1: Shared, sh2: Shared, sh3: Shared, sh4: Shared, id: Id, ids: seq<Id>)
    requires id in sh1.db.reservations && Lists(ids, sh1.db.reservations[id].seats)
    ensures var e, row := ConfirmInSteps(sh1, sh2, sh3, sh4, id, ids), sh1.db.reservations[id];
            if e.pc.Returned? && e.pc.out.Settled? then
              && ConfirmAnswer(sh1.db, sh4.db, id, sh2.now, sh3.now, e.sh.db, None) && e.sh == sh4.(db := e.sh.db)
              && Returns(row, id, ReservationStatus.Confirmed, Some(sh3.now), e.pc.out.b)
            else
              && e.pc == Returned(Failed(e.pc.out.error)) && e.sh in {sh2, sh4}
              && exists left :: ConfirmAnswer(sh1.db, sh4.db, id, sh2.now, sh3.now, left, Some(e.pc.out.error))
  {
    hide ConfirmAnswer, Execute, CreateStep, ReadStep, Returns, Lists;
    ConfirmAnswers(sh1.db, sh4.db, id, ids, sh2.now, sh3.now);
  }

  /** ... and a cancellation, which a settled status at its read refuses. */
  lemma CancelStepsAnswer(sh1: Shared, sh2: Shared, id: Id, ids: seq<Id>)
    requires id in sh1.db.reservations && Lists(ids, sh1.db.reservations[id].seats)
    ensures var e, row := CancelInSteps(sh1, sh2, id, ids), sh1.db.reservations[id];
            if e.pc.CancelInvalidate? then
              && CancelAnswer(sh1.db, sh2.db, id, e.sh.db, None) && e.sh == sh2.(db := e.sh.db)
              && Returns(row, id, Cancelled, row.confirmedAt, e.pc.b)
            else
              && e.pc == Returned(Failed(e.pc.out.error)) && e.sh in {sh1, sh2}
              && exists left :: CancelAnswer(sh1.db, sh2.db, id, left, Some(e.pc.out.error))
  {
    hide CancelAnswer, Execute, CreateStep, ReadStep, Returns, Lists;
    CancelAnswers(sh1.db, sh2.db, id, ids);
  }
}
