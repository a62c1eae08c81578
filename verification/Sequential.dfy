/**
 The services run one at a time: what each operation does to the database and the count cache,
 exactly when a booking succeeds, and why the cache then never lies.
 */
module Sequential {
  import opened Sums
  import opened Domain
  import opened SeatTable
  import opened Database
  import opened Invariants
  import opened Ownership
  import opened History
  import opened Redis
  import opened Protocol
  import Safety

  datatype Site = Site(db: Db, counts: map<Id, CacheEntry>, now: int)

  // ---------------------------------------------------------------- booking

  /** The booking the service drafts once the pre-check has passed. */
  function Draft(db: Db, now: int, req: Request): Booking
    requires Tally(SeatsOf(db, req.eventId), req.seatIds).Ok?
  {
    NewBooking(req.eventId, req.userId, req.key, req.seatIds, Tally(SeatsOf(db, req.eventId), req.seatIds).value, now)
  }

  /** The tables as the service finds them at its event check, its seat check and its transaction. */
  datatype Meanwhile = Meanwhile(atEvent: Db, atSeats: Db, atTx: Db)

  /** The checks between the key check and the transaction, in the order the service makes them.  The service looks
      at the clock twice: `checkedAt` is when it checks that the event is open, `now` when it drafts the booking. */
  function PreCheck(m: Meanwhile, checkedAt: int, now: int, req: Request): Result<Booking> {
    if req.eventId !in m.atEvent.events then Err(EventNotFound)
    else if !m.atEvent.events[req.eventId].IsBookingOpen(checkedAt) then Err(EventNotOpen)
    else
      var total := Tally(SeatsOf(m.atSeats, req.eventId), req.seatIds);
      if total.Err? then Err(total.error)
      else
        var b := Draft(m.atSeats, now, req);
        if b.Validate().Some? then Err(b.Validate().value) else Ok(b)
  }

  /** What a request with an unused key gets while others move. */
  function BookingAmid(m: Meanwhile, checkedAt: int, now: int, rid: Id, req: Request): Result<Booking> {
    var b := PreCheck(m, checkedAt, now, req);
    if b.Err? then b
    else
      var r := Execute(m.atTx, Create(rid, b.value));
      if r.Err? then Err(r.error) else Ok(b.value.(id := rid))
  }

  /** What it gets on its own. */
  function BookingResult(db: Db, checkedAt: int, now: int, rid: Id, req: Request): Result<Booking> {
    BookingAmid(Meanwhile(db, db, db), checkedAt, now, rid, req)
  }

  function CreateOp(s: Site, checkedAt: int, rid: Id, req: Request): Site {
    if KeyTaken(s.db, req.key) || BookingResult(s.db, checkedAt, s.now, rid, req).Err? then s
    else s.(db := Apply(s.db, Create(rid, Draft(s.db, s.now, req))), counts := s.counts - {req.eventId})
  }

  /** What the service promises to book. */
  predicate Bookable(db: Db, checkedAt: int, req: Request) {
    && req.eventId != "" && req.userId != "" && req.key != ""
    && |req.userId| <= TEXT_WIDTH && |req.key| <= TEXT_WIDTH
    && req.eventId in db.events && checkedAt < db.events[req.eventId].startAt
    && req.seatIds != [] && Distinct(req.seatIds)
    && forall s :: s in req.seatIds ==>
         s in db.seats && db.seats[s].eventId == req.eventId && db.seats[s].status == Available
  }

  lemma {:induction false} TallyOk(seats: Table, ids: seq<Id>)
    ensures Tally(seats, ids).Ok? <==> forall s :: s in ids ==> s in seats && seats[s].status == Available
  {
    if |ids| > 0 {
      TallyOk(seats, ids[..|ids| - 1]);
      assert ids == ids[..|ids| - 1] + [ids[|ids| - 1]];
    }
  }

  /** A request with an unused key is booked exactly when it is bookable; what is stored then is the request,
      priced at the sum of its seats, and what is stored otherwise is what was there before. */
  lemma BookingSucceedsExactly(s: Site, checkedAt: int, rid: Id, req: Request)
    requires rid !in s.db.issued && !KeyTaken(s.db, req.key)
    ensures BookingResult(s.db, checkedAt, s.now, rid, req).Ok? <==> Bookable(s.db, checkedAt, req)
    ensures !Bookable(s.db, checkedAt, req) ==> CreateOp(s, checkedAt, rid, req) == s
    ensures Bookable(s.db, checkedAt, req) ==>
              var next := CreateOp(s, checkedAt, rid, req).db;
              && next.reservations.Keys == s.db.reservations.Keys + {rid}
              && next.reservations[rid] == ReservationRow(req.eventId, req.userId, req.key, Pending,
                   Sum(Prices(s.db.seats, Elements(req.seatIds))), s.now, s.now + 15 * MINUTE, None,
                     Elements(req.seatIds))
              && next.seats == (map t | t in s.db.seats ::
                   if t in req.seatIds then ReservedRow(s.db.seats[t], rid) else s.db.seats[t])
              && BookingResult(s.db, checkedAt, s.now, rid, req) == Ok(Load(next, rid, req.seatIds))
              && forall ids :: Lists(ids, next.reservations[rid].seats) ==> multiset(ids) == multiset(req.seatIds)
  {
    BookableExactly(s.db, checkedAt, s.now, rid, req);
    if Bookable(s.db, checkedAt, req) {
      var b := Draft(s.db, s.now, req);
      CreatedTables(s.db, rid, b);
      forall ids | Lists(ids, Elements(req.seatIds)) ensures multiset(ids) == multiset(req.seatIds) {
        SameElementsSameMultiset(ids, req.seatIds);
      }
    }
  }

  lemma BookableExactly(db: Db, checkedAt: int, now: int, rid: Id, req: Request)
    requires rid !in db.issued && !KeyTaken(db, req.key)
    ensures BookingResult(db, checkedAt, now, rid, req).Ok? <==> Bookable(db, checkedAt, req)
    ensures Bookable(db, checkedAt, req) ==>
              Tally(SeatsOf(db, req.eventId), req.seatIds) == Ok(Sum(Prices(db.seats, Elements(req.seatIds))))
  {
    var inEvent := SeatsOf(db, req.eventId);
    TallyOk(inEvent, req.seatIds);
    if Tally(inEvent, req.seatIds).Ok? {
      ReserveEffect(db.seats, req.seatIds, rid);
      Safety.TallySum(inEvent, req.seatIds);
      SamePrices(inEvent, db.seats, Elements(req.seatIds));
    }
  }

  // ---------------------------------------------------------------- settling and counting

  /** A reservation read in `before` and settled to `b`, or refused, is committed in `atTx`: the tables then, and the
      outcome. */
  function SettleAmid(before: Db, atTx: Db, b: Result<Booking>): (Db, Result<Booking>) {
    if b.Err? then (before, b)
    else
      var r := Execute(atTx, if b.value.status == Cancelled then Cancel(b.value) else Confirm(b.value));
      if r.Err? then (atTx, Err(r.error)) else (r.value, b)
  }

  function ConfirmOp(s: Site, checkedAt: int, id: Id, ids: seq<Id>): Site {
    if id !in s.db.reservations then s
    else s.(db := SettleAmid(s.db, s.db, Load(s.db, id, ids).Confirm(checkedAt, s.now)).0)
  }

  function CancelOp(s: Site, id: Id, ids: seq<Id>): Site {
    if id !in s.db.reservations then s
    else
      var r := SettleAmid(s.db, s.db, Load(s.db, id, ids).Cancel());
      s.(db := r.0, counts := if r.1.Ok? then s.counts - {s.db.reservations[id].eventId} else s.counts)
  }

  function CountOp(s: Site, e: Id): Site {
    if CountLive(s.counts, s.now, e) then s
    else s.(counts := s.counts[e := CacheEntry(CountAvailable(s.db, e), At(s.now + CACHE_TTL), s.now)])
  }

  function CountResult(s: Site, e: Id): int {
    if CountLive(s.counts, s.now, e) then s.counts[e].count else CountAvailable(s.db, e)
  }

  /** Confirm of a reservation that is pending and not expired always gets its full row count and succeeds. */
  lemma ConfirmSucceedsExactly(s: Site, checkedAt: int, id: Id, ids: seq<Id>)
    requires Linked(s.db) && Consistent(s.db) && id in s.db.reservations && Lists(ids, s.db.reservations[id].seats)
    ensures var b := Load(s.db, id, ids).Confirm(checkedAt, s.now);
            (b.Ok? && Execute(s.db, Confirm(b.value)).Ok?) <==>
            s.db.reservations[id].status == Pending && checkedAt <= s.db.reservations[id].expiresAt
    ensures ConfirmOp(s, checkedAt, id, ids) == s ||
            (ConfirmOp(s, checkedAt, id, ids).db.reservations[id].status == ReservationStatus.Confirmed
             && s.db.reservations[id].status == Pending)
  {
    var b := Load(s.db, id, ids).Confirm(checkedAt, s.now);
    if b.Ok? { FreshTouchesOwnOnly(s.db, Confirm(b.value)); }
  }

  // ---------------------------------------------------------------- the cache tells the truth

  datatype Op =
    | Book(checkedAt: int, rid: Id, req: Request)
    | Settle(checkedAt: int, id: Id, ids: seq<Id>)
    | Drop(id: Id, ids: seq<Id>)
    | Count(e: Id)
    | Wait(d: nat)

  function Perform(s: Site, op: Op): Site {
    match op
    case Book(checkedAt, rid, req) => CreateOp(s, checkedAt, rid, req)
    case Settle(checkedAt, id, ids) => ConfirmOp(s, checkedAt, id, ids)
    case Drop(id, ids) => CancelOp(s, id, ids)
    case Count(e) => CountOp(s, e)
    case Wait(d) => s.(now := s.now + d)
  }

  ghost predicate Legal(s: Site, op: Op) {
    match op
    case Book(_, rid, _) => rid !in s.db.issued
    case Settle(_, id, ids) => id in s.db.reservations ==> Lists(ids, s.db.reservations[id].seats)
    case Drop(id, ids) => id in s.db.reservations ==> Lists(ids, s.db.reservations[id].seats)
    case _ => true
  }

  /** A cached count that can still be served is the true count. */
  ghost predicate Coherent(s: Site) {
    forall e :: CountLive(s.counts, s.now, e) ==> s.counts[e].count == CountAvailable(s.db, e)
  }

  /** Confirm changes no count: it only moves seats that were reserved. */
  lemma ConfirmKeepsCounts(db: Db, b: Booking, e: Id)
    ensures AvailableSeats(Apply(db, Confirm(b)), e) == AvailableSeats(db, e)
  {
  }

  lemma CreateKeepsOtherCounts(db: Db, rid: Id, b: Booking, e: Id)
    requires CreateAgrees(db, b) && e != b.eventId
    ensures AvailableSeats(Apply(db, Create(rid, b)), e) == AvailableSeats(db, e)
  {
    hide Sum;
  }

  lemma CancelKeepsOtherCounts(db: Db, b: Booking, e: Id)
    requires Linked(db) && SnapshotAgrees(db, b) && e != db.reservations[b.id].eventId
    ensures AvailableSeats(Apply(db, Cancel(b)), e) == AvailableSeats(db, e)
  {
    ListedSeats(db, b);
    assert RowLinked(db, db.reservations[b.id]);
  }

  lemma BookCoherent(s: Site, checkedAt: int, rid: Id, req: Request)
    requires Wf(s.db) && Coherent(s) && rid !in s.db.issued
    ensures Wf(CreateOp(s, checkedAt, rid, req).db) && Coherent(CreateOp(s, checkedAt, rid, req))
  {
    hide Apply, KeyTaken, Wf;
    Safety.LinkedPart(s.db);
    var next := CreateOp(s, checkedAt, rid, req);
    if next != s {
      var b := Draft(s.db, s.now, req);
      Safety.TallyAgrees(s.db, b);
      CommitWf(s.db, Create(rid, b));
      forall e | CountLive(next.counts, next.now, e) ensures next.counts[e].count == CountAvailable(next.db, e) {
        assert CountLive(s.counts, s.now, e);
        CreateKeepsOtherCounts(s.db, rid, b, e);
      }
    }
  }

  lemma SettleCoherent(s: Site, checkedAt: int, id: Id, ids: seq<Id>)
    requires Wf(s.db) && Coherent(s) && Legal(s, Settle(checkedAt, id, ids))
    ensures Wf(ConfirmOp(s, checkedAt, id, ids).db) && Coherent(ConfirmOp(s, checkedAt, id, ids))
  {
    hide Wf;
    if id in s.db.reservations && Load(s.db, id, ids).Confirm(checkedAt, s.now).Ok? {
      var b := Load(s.db, id, ids).Confirm(checkedAt, s.now).value;
      CommitWf(s.db, Confirm(b));
      forall e | CountLive(s.counts, s.now, e) ensures s.counts[e].count == CountAvailable(Apply(s.db, Confirm(b)), e) {
        ConfirmKeepsCounts(s.db, b, e);
      }
    }
  }

  lemma DropCoherent(s: Site, id: Id, ids: seq<Id>)
    requires Wf(s.db) && Coherent(s) && Legal(s, Drop(id, ids))
    ensures Wf(CancelOp(s, id, ids).db) && Coherent(CancelOp(s, id, ids))
  {
    hide Execute, Wf;
    Safety.LinkedPart(s.db);
    var next := CancelOp(s, id, ids);
    if next != s {
      var b := Load(s.db, id, ids).Cancel().value;
      CommitWf(s.db, Cancel(b));
      forall e | CountLive(next.counts, next.now, e) ensures next.counts[e].count == CountAvailable(next.db, e) {
        assert CountLive(s.counts, s.now, e);
        CancelKeepsOtherCounts(s.db, b, e);
      }
    }
  }

  lemma {:induction false} OpCoherent(s: Site, op: Op)
    requires Wf(s.db) && Coherent(s) && Legal(s, op)
    ensures Wf(Perform(s, op).db) && Coherent(Perform(s, op))
  {
    hide CreateOp, ConfirmOp, CancelOp, Wf, CountAvailable;
    match op
    case Book(checkedAt, rid, req) => BookCoherent(s, checkedAt, rid, req);
    case Settle(checkedAt, id, ids) => SettleCoherent(s, checkedAt, id, ids);
    case Drop(id, ids) => DropCoherent(s, id, ids);
    case Count(e) =>
    case Wait(d) =>
      assert forall e :: CountLive(s.counts, s.now + d, e) ==> CountLive(s.counts, s.now, e);
  }

  ghost predicate Sequence(ss: seq<Site>, ops: seq<Op>) {
    && |ss| == |ops| + 1
    && forall i :: 0 <= i < |ops| ==> Legal(ss[i], ops[i]) && ss[i + 1] == Perform(ss[i], ops[i])
  }

  /** Over any sequence of bookings, confirmations, cancellations, counts and waits that do not overlap,
      every count given out is the number of available seats at that moment. */
  lemma {:induction false} CountsAreExact(ss: seq<Site>, ops: seq<Op>, i: nat, e: Id)
    requires Sequence(ss, ops) && Wf(ss[0].db) && Coherent(ss[0]) && i < |ss|
    ensures CountResult(ss[i], e) == |SeatsWith(ss[i].db, e, Available)|
    ensures Wf(ss[i].db) && Coherent(ss[i])
  {
    hide Perform, Legal, Wf, CountAvailable;
    CountIsSeats(ss[i].db, e);
    if i > 0 {
      CountsAreExact(ss, ops, i - 1, e);
      OpCoherent(ss[i - 1], ops[i - 1]);
    }
  }

  /** The sweep cancels without invalidating: its item keeps the cache truthful exactly when the event has no live
      count. */
  lemma UninvalidatedCancel(s: Site, b: Booking)
    requires Linked(s.db) && Consistent(s.db) && Coherent(s) && SnapshotAgrees(s.db, b) && b.status == Cancelled
    requires s.db.reservations[b.id].status == Pending && b.eventId == s.db.reservations[b.id].eventId
    ensures Coherent(s.(db := Apply(s.db, Cancel(b)))) <==> !CountLive(s.counts, s.now, b.eventId)
  {
    var next := Apply(s.db, Cancel(b));
    forall e | e != b.eventId ensures CountAvailable(next, e) == CountAvailable(s.db, e) {
      CancelKeepsOtherCounts(s.db, b, e);
    }
    CountRises(s.db, b);
  }

  /** Booking lowers the count of its event by exactly the seats it takes. */
  lemma CountFalls(db: Db, rid: Id, b: Booking)
    requires CreateAgrees(db, b) && Execute(db, Create(rid, b)).Ok?
    ensures CountAvailable(Apply(db, Create(rid, b)), b.eventId) == |SeatsWith(db, b.eventId, Available)| - |b.seatIds|
  {
    CreatedTables(db, rid, b);
    CountIsSeats(db, b.eventId);
    DistinctCount(b.seatIds);
    var next := Apply(db, Create(rid, b));
    assert AvailableSeats(next, b.eventId) == AvailableSeats(db, b.eventId) - Elements(b.seatIds);
    assert Elements(b.seatIds) <= AvailableSeats(db, b.eventId);
  }

  /** Cancelling a pending reservation raises it by exactly the seats it gives back. */
  lemma CountRises(db: Db, b: Booking)
    requires Linked(db) && Consistent(db) && SnapshotAgrees(db, b) && b.status == Cancelled
    requires db.reservations[b.id].status == Pending && b.eventId == db.reservations[b.id].eventId
    ensures CountAvailable(Apply(db, Cancel(b)), b.eventId) ==
              |SeatsWith(db, b.eventId, Available)| + |db.reservations[b.id].seats|
    ensures CountAvailable(db, b.eventId) == |SeatsWith(db, b.eventId, Available)|
    ensures |db.reservations[b.id].seats| > 0
  {
    CountIsSeats(db, b.eventId);
    var row := db.reservations[b.id];
    ListedSeats(db, b);
    CancelledTables(db, b);
    assert RowLinked(db, row) && HoldsItsSeats(db, b.id);
    assert AvailableSeats(Apply(db, Cancel(b)), b.eventId) == AvailableSeats(db, b.eventId) + row.seats;
    assert AvailableSeats(db, b.eventId) !! row.seats;
  }
}
