/**
 Exactly which pairs of requests can pass the seat check and still fail at reserving.  The lock is taken on the whole
 list of seats, so lists that overlap without being equal do not exclude each other.
 */
module Overlap {
  import opened Sums
  import opened Domain
  import opened SeatTable
  import opened Database
  import opened Invariants
  import opened Protocol
  import opened Locking
  import opened PunctualRuns
  import LockKey
  import Sequential

  /** A complete request for seats that are on sale. */
  predicate Asks(e: Id, rows: Table, p: Request) {
    && p.eventId == e && e != "" && p.userId != "" && |p.userId| <= TEXT_WIDTH && p.key != "" && |p.key| <= TEXT_WIDTH
    && p.seatIds != [] && Distinct(p.seatIds) && LockKey.Plain(p.seatIds)
    && forall s :: s in p.seatIds ==> s in rows
  }

  function PriceOf(w: World, p: Request): Result<int> {
    Tally(SeatsOf(w.sh.db, p.eventId), p.seatIds)
  }

  /** The requested seats are on sale, so the request passes every check before its transaction. */
  lemma ChecksPass(e: Id, event: EventRow, rows: Table, now: int, p: Request)
    requires Stage(e, event, rows, now) && Asks(e, rows, p)
    ensures var w := OnSale(e, event, rows, now);
            && PriceOf(w, p).Ok? && !KeyTaken(w.sh.db, p.key) && Drafted(w, p, PriceOf(w, p).value).Validate().None?
            && p.eventId in w.sh.db.events && w.sh.db.events[p.eventId].IsBookingOpen(now)
  {
    hide NumbersUnique, LockKey.Plain;
    Sequential.TallyOk(SeatsOf(OnSale(e, event, rows, now).sh.db, e), p.seatIds);
  }

  lemma SameElements(a: seq<Id>, b: seq<Id>)
    requires multiset(a) == multiset(b)
    ensures Elements(a) == Elements(b)
  {
    assert forall s :: s in a <==> s in multiset(a);
    assert forall s :: s in b <==> s in multiset(b);
  }

  lemma DifferentKeys(p: Request, q: Request)
    requires LockKey.Plain(p.seatIds) && LockKey.Plain(q.seatIds) && !SameOrDisjoint(p, q)
    ensures RedisLockKey(p.seatIds) != RedisLockKey(q.seatIds)
  {
    LockKey.KeyCanonical(p.seatIds, q.seatIds);
    if multiset(p.seatIds) == multiset(q.seatIds) { SameElements(p.seatIds, q.seatIds); }
    assert RedisLockKey(p.seatIds)[5..] == LockKey.SeatLockKey(p.seatIds);
    assert RedisLockKey(q.seatIds)[5..] == LockKey.SeatLockKey(q.seatIds);
  }

  function AtTx(w: World, p: Request, token: Id): Client
    requires PriceOf(w, p).Ok?
  {
    CreateTx(p, Some(Locked(w, p, token)), Drafted(w, p, PriceOf(w, p).value))
  }

  function FirstIn(w: World, p: Request): World
    requires PriceOf(w, p).Ok?
  {
    World(WithLock(w, p, "1"), map[1 := AtTx(w, p, "1")])
  }

  function BothIn(w: World, p: Request, q: Request): World
    requires PriceOf(w, p).Ok? && PriceOf(w, q).Ok?
  {
    World(WithLock(FirstIn(w, p), q, "2"), map[1 := AtTx(w, p, "1"), 2 := AtTx(w, q, "2")])
  }

  lemma FirstPasses(e: Id, event: EventRow, rows: Table, now: int, p: Request, rs: set<Request>)
    requires Stage(e, event, rows, now) && Asks(e, rows, p) && p in rs
    ensures PriceOf(OnSale(e, event, rows, now), p).Ok?
    ensures Reaches(FirstIn(OnSale(e, event, rows, now), p), rs)
  {
    ChecksPass(e, event, rows, now, p);
    GoesOnSale(e, event, rows, now, rs);
    hide Reaches, RedisLockKey, PriceOf, KeyTaken, Stage, Distinct;
    var w := OnSale(e, event, rows, now);
    Drafts(w, 1, p, "1", PriceOf(w, p).value, rs);
  }

  /** The first client's lock leaves the second's key free. */
  lemma KeyFree(w: World, p: Request, q: Request)
    requires PriceOf(w, p).Ok? && PriceOf(w, q).Ok? && w.sh.locks == map[] && w.sh.tokens == {}
    requires RedisLockKey(p.seatIds) != RedisLockKey(q.seatIds)
    ensures !LockLive(FirstIn(w, p).sh, RedisLockKey(q.seatIds)) && "2" !in FirstIn(w, p).sh.tokens
    ensures PriceOf(FirstIn(w, p), q) == PriceOf(w, q) && Locked(FirstIn(w, p), q, "2") == Locked(w, q, "2")
    ensures FirstIn(w, p).clients[2 := AtTx(w, q, "2")] == BothIn(w, p, q).clients
    ensures 2 !in FirstIn(w, p).clients
              && Drafted(FirstIn(w, p), q, PriceOf(w, q).value) == Drafted(w, q, PriceOf(w, q).value)
    ensures FirstIn(w, p).sh.db == w.sh.db && FirstIn(w, p).sh.now == w.sh.now
  {
    hide RedisLockKey, Tally;
  }

  /** Both clients hold their locks, in time, and have passed the seat check. */
  lemma BothPass(e: Id, event: EventRow, rows: Table, now: int, p: Request, q: Request)
    requires Stage(e, event, rows, now) && Asks(e, rows, p) && Asks(e, rows, q) && !SameOrDisjoint(p, q)
    ensures PriceOf(OnSale(e, event, rows, now), p).Ok? && PriceOf(OnSale(e, event, rows, now), q).Ok?
    ensures Reaches(BothIn(OnSale(e, event, rows, now), p, q), {p, q})
  {
    FirstPasses(e, event, rows, now, p, {p, q});
    ChecksPass(e, event, rows, now, q);
    DifferentKeys(p, q);
    var w := OnSale(e, event, rows, now);
    KeyFree(w, p, q);
    hide Reaches, RedisLockKey, KeyTaken, Stage, SameOrDisjoint, Distinct, FirstIn, Tally, LockLive, LockKey.Plain,
      Drafted,
      WithLock, Locked;
    Drafts(FirstIn(w, p), 2, q, "2", PriceOf(w, q).value, {p, q});
  }

  /** Once one of two overlapping drafts is committed, the other finds a seat taken. */
  lemma SecondFails(db: Db, e: Id, rid: Id, b: Booking, other: Booking, again: Id)
    requires e in db.events && b.eventId == e && other.eventId == e && TextFits(b) && TextFits(other)
    requires b.key != other.key && !KeyTaken(db, b.key) && !KeyTaken(db, other.key)
    requires AllIn(db.seats, b.seatIds, Available) && AllIn(db.seats, other.seatIds, Available)
    requires !(Elements(b.seatIds) !! Elements(other.seatIds))
    ensures Execute(db, Create(rid, b)).Ok?
    ensures Execute(Apply(db, Create(rid, b)), Create(again, other)) == Err(SeatAlreadyReserved)
  {
    ReserveEffect(db.seats, b.seatIds, rid);
    CreatedTables(db, rid, b);
    var next := Apply(db, Create(rid, b));
    var s :| s in Elements(b.seatIds) && s in Elements(other.seatIds);
    ReserveEffect(next.seats, other.seatIds, again);
    assert next.seats[s].status == Reserved;
  }

  /** Two requests for seats on sale, under different keys, that overlap without being equal: there is a run in which
      both pass the seat check, in time and each under its own lock, and the second fails at reserving. */
  lemma OverlapFails(e: Id, event: EventRow, rows: Table, now: int, p: Request, q: Request, rid: Id)
    requires Stage(e, event, rows, now) && Asks(e, rows, p) && Asks(e, rows, q) && p.key != q.key
    requires rid != e && rid !in rows && !SameOrDisjoint(p, q)
    ensures exists w, c: nat :: FailsAtReserving(w, c, {p, q}, rid)
  {
    BothPass(e, event, rows, now, p, q);
    var w := OnSale(e, event, rows, now);
    var bp, bq := AtTx(w, p, "1"), AtTx(w, q, "2");
    assert AllIn(rows, p.seatIds, Available) && AllIn(rows, q.seatIds, Available) by { hide NumbersUnique; }
    SecondFails(w.sh.db, e, rid, bp.b, bq.b, rid);
    hide Reaches, RedisLockKey, Tally, NumbersUnique, LockKey.Plain, SameOrDisjoint, Execute, Apply;
    var w2 := BothIn(w, p, q);
    Commits(w2, 1, rid, {p, q});
    var w3 := World(w2.sh.(db := Apply(w2.sh.db, Create(rid, bp.b))),
                    w2.clients[1 := CreateInvalidate(p, bp.lock, bp.b.(id := rid))]);
    assert w3.clients[2] == bq;
    assert FailsAtReserving(w3, 2, {p, q}, rid);
  }

  /** A state of a punctual run over the given requests in which client `c` has passed the seat check and would now
      find a seat already reserved. */
  ghost predicate FailsAtReserving(w: World, c: nat, rs: set<Request>, rid: Id) {
    && Reaches(w, rs) && c in w.clients && w.clients[c].CreateTx?
    && Execute(w.sh.db, Create(rid, w.clients[c].b)) == Err(SeatAlreadyReserved)
  }

  /** With equal or disjoint requests that never happens, in any punctual run, whatever other clients do. */
  lemma NeverFails(p: Request, q: Request, w: World, c: nat, rid: Id)
    requires SameOrDisjoint(p, q)
    ensures !FailsAtReserving(w, c, {p, q}, rid)
  {
    hide Step, Enabled, Initial, Execute, Punctual;
    if FailsAtReserving(w, c, {p, q}, rid) {
      var tr: seq<World>, acts: seq<Action> :| PunctualRun(tr, acts, {p, q}) && tr[|acts|] == w;
      forall j | 0 <= j < |acts| ensures InTime(tr[j]) {
        assert Punctual(tr[j]) && Only(tr[j], {p, q});
      }
      PreCheckAuthoritative(tr, acts, |acts|, c, rid);
      assert false;
    }
  }

  /** The exact condition: two requests for seats on sale can lead to a failure at reserving, after a passed seat check
      and under locks held in time, if and only if their seats overlap without being equal. */
  lemma OverlapExact(e: Id, event: EventRow, rows: Table, now: int, p: Request, q: Request, rid: Id)
    requires Stage(e, event, rows, now) && Asks(e, rows, p) && Asks(e, rows, q) && p.key != q.key
    requires rid != e && rid !in rows
    ensures (exists w, c: nat :: FailsAtReserving(w, c, {p, q}, rid)) <==> !SameOrDisjoint(p, q)
  {
    hide FailsAtReserving, SameOrDisjoint, Stage, Asks;
    if SameOrDisjoint(p, q) {
      forall w, c: nat ensures !FailsAtReserving(w, c, {p, q}, rid) { NeverFails(p, q, w, c, rid); }
    } else {
      OverlapFails(e, event, rows, now, p, q, rid);
    }
  }
}
