/**
 Building runs step by step: runs in which the lock is on and every client is in time.
 */
module PunctualRuns {
  import opened Sums
  import opened Domain
  import opened SeatTable
  import opened Database
  import opened Invariants
  import opened Redis
  import opened Protocol
  import opened Locking

  /** Nobody asks for anything but the given requests. */
  ghost predicate Only(w: World, rs: set<Request>) {
    forall c :: c in w.clients && Creating(w.clients[c]) ==> w.clients[c].req in rs
  }

  /** A run, punctual throughout, of clients that make only the given requests. */
  ghost predicate PunctualRun(tr: seq<World>, acts: seq<Action>, rs: set<Request>) {
    Run(tr, acts) && forall i :: 0 <= i < |tr| ==> Punctual(tr[i]) && Only(tr[i], rs)
  }

  /** Some such run ends in `w`. */
  ghost predicate Reaches(w: World, rs: set<Request>) {
    exists tr: seq<World>, acts: seq<Action> :: PunctualRun(tr, acts, rs) && tr[|acts|] == w
  }

  lemma ReachesPunctual(w: World, rs: set<Request>)
    requires Reaches(w, rs)
    ensures Punctual(w) && Only(w, rs) && w.sh.lockOn
  {
    hide Step, Enabled, Initial, Only;
    var tr: seq<World>, acts: seq<Action> :| PunctualRun(tr, acts, rs) && tr[|acts|] == w;
    assert Punctual(tr[|acts|]) && Only(tr[|acts|], rs);
  }

  lemma ReachStep(w: World, a: Action, rs: set<Request>)
    requires Reaches(w, rs) && Enabled(w, a) && Punctual(Step(w, a)) && Only(Step(w, a), rs)
    ensures Reaches(Step(w, a), rs)
  {
    hide Step, Enabled, Punctual, Only, Initial;
    var tr: seq<World>, acts: seq<Action> :| PunctualRun(tr, acts, rs) && tr[|acts|] == w;
    var longer, more := tr + [Step(w, a)], acts + [a];
    assert PunctualRun(longer, more, rs);
    assert longer[|more|] == Step(w, a);
  }

  predicate FreshLock(sh: Shared, pc: Client, rs: set<Request>) {
    && (Creating(pc) ==> Distinct(pc.req.seatIds) && pc.req in rs)
    && BeforeDeadline(sh.now, pc)
  }

  /** One step of client `c`, or its start, leading to shared state `sh` and point `pc`. */
  lemma Took(w: World, a: Action, c: nat, sh: Shared, pc: Client, rs: set<Request>)
    requires Reaches(w, rs) && Enabled(w, a) && Step(w, a) == World(sh, w.clients[c := pc])
    requires sh.lockOn == w.sh.lockOn && sh.now == w.sh.now && FreshLock(sh, pc, rs)
    ensures Reaches(World(sh, w.clients[c := pc]), rs)
  {
    hide Step, Enabled, Reaches;
    ReachesPunctual(w, rs);
    ReachStep(w, a, rs);
  }

  function Drafted(w: World, req: Request, total: int): Booking {
    NewBooking(req.eventId, req.userId, req.key, req.seatIds, total, w.sh.now)
  }

  function Locked(w: World, req: Request, token: Id): Held {
    Held(RedisLockKey(req.seatIds), token, w.sh.now + LOCK_TTL)
  }

  function WithLock(w: World, req: Request, token: Id): Shared {
    w.sh.(locks := w.sh.locks[RedisLockKey(req.seatIds) := LockEntry(token, At(w.sh.now + LOCK_TTL))],
          tokens := w.sh.tokens + {token})
  }

  /** From the key check to the transaction. */
  lemma Drafts(w: World, c: nat, req: Request, token: Id, total: int, rs: set<Request>)
    requires Reaches(w, rs) && c !in w.clients && token !in w.sh.tokens && !KeyTaken(w.sh.db, req.key)
    requires req in rs && Distinct(req.seatIds) && !LockLive(w.sh, RedisLockKey(req.seatIds))
    requires req.eventId in w.sh.db.events && w.sh.db.events[req.eventId].IsBookingOpen(w.sh.now)
    requires Tally(SeatsOf(w.sh.db, req.eventId), req.seatIds) == Ok(total) && Drafted(w, req, total).Validate().None?
    ensures var lock := Some(Locked(w, req, token));
            Reaches(World(WithLock(w, req, token), w.clients[c := CreateTx(req, lock, Drafted(w, req, total))]), rs)
  {
    hide Reaches, RedisLockKey, Tally, KeyTaken;
    var sh, lock := WithLock(w, req, token), Some(Locked(w, req, token));
    ReachesPunctual(w, rs);
    Took(w, Begin(c, KeyCheck(req)), c, w.sh, KeyCheck(req), rs);
    var w1 := World(w.sh, w.clients[c := KeyCheck(req)]);
    Took(w1, Move(c, Go), c, w.sh, LockTry(req, LOCK_RETRIES), rs);
    var w2 := World(w.sh, w1.clients[c := LockTry(req, LOCK_RETRIES)]);
    Took(w2, Move(c, Generated(token)), c, sh, EventCheck(req, lock), rs);
    var w3 := World(sh, w2.clients[c := EventCheck(req, lock)]);
    Took(w3, Move(c, Go), c, sh, SeatCheck(req, lock), rs);
    var w4 := World(sh, w3.clients[c := SeatCheck(req, lock)]);
    Took(w4, Move(c, Go), c, sh, CreateTx(req, lock, Drafted(w, req, total)), rs);
    var w5 := World(sh, w4.clients[c := CreateTx(req, lock, Drafted(w, req, total))]);
    assert w5.clients == w.clients[c := CreateTx(req, lock, Drafted(w, req, total))];
  }

  lemma Commits(w: World, c: nat, rid: Id, rs: set<Request>)
    requires Reaches(w, rs) && c in w.clients && w.clients[c].CreateTx? && rid !in w.sh.db.issued
    requires Execute(w.sh.db, Create(rid, w.clients[c].b)).Ok?
    ensures var pc := w.clients[c];
            Reaches(World(w.sh.(db := Apply(w.sh.db, Create(rid, pc.b))),
                          w.clients[c := CreateInvalidate(pc.req, pc.lock, pc.b.(id := rid))]), rs)
  {
    hide Reaches, RedisLockKey, Tally, KeyTaken, Execute;
    ReachesPunctual(w, rs);
    var pc := w.clients[c];
    Took(w, Move(c, Generated(rid)), c, w.sh.(db := Execute(w.sh.db, Create(rid, pc.b)).value),
         CreateInvalidate(pc.req, pc.lock, pc.b.(id := rid)), rs);
  }

  /** Invalidate the cache and give the lock back. */
  lemma Finishes(w: World, c: nat, rs: set<Request>)
    requires Reaches(w, rs) && c in w.clients && w.clients[c].CreateInvalidate? && w.clients[c].lock.Some?
    ensures var pc := w.clients[c];
            Reaches(World(w.sh.(cache := w.sh.cache - {pc.req.eventId},
                                locks := CompareAndDelete(w.sh.locks, w.sh.now, pc.lock.value.key,
                                  pc.lock.value.token)),
                          w.clients[c := Returned(Booked(pc.b))]), rs)
  {
    hide Reaches, RedisLockKey, Tally, KeyTaken, Execute;
    ReachesPunctual(w, rs);
    var pc := w.clients[c];
    assert FreshLock(w.sh, Unlock(pc.req, pc.lock, Booked(pc.b)), rs);
    var sh := w.sh.(cache := w.sh.cache - {pc.req.eventId});
    Took(w, Move(c, Go), c, sh, Unlock(pc.req, pc.lock, Booked(pc.b)), rs);
    var w1 := World(sh, w.clients[c := Unlock(pc.req, pc.lock, Booked(pc.b))]);
    Took(w1, Move(c, Go), c, sh.(locks := CompareAndDelete(w.sh.locks, w.sh.now, pc.lock.value.key,
      pc.lock.value.token)),
         Returned(Booked(pc.b)), rs);
    assert w1.clients[c := Returned(Booked(pc.b))] == w.clients[c := Returned(Booked(pc.b))];
  }

  lemma CancelReads(w: World, c: nat, rid: Id, ids: seq<Id>, rs: set<Request>)
    requires Reaches(w, rs) && c !in w.clients && rid in w.sh.db.reservations
    requires w.sh.db.reservations[rid].status == Pending && Lists(ids, w.sh.db.reservations[rid].seats)
    ensures Reaches(World(w.sh, w.clients[c := CancelTx(Load(w.sh.db, rid, ids).(status := Cancelled))]), rs)
  {
    hide Reaches, Lists;
    ReachesPunctual(w, rs);
    var pc := CancelTx(Load(w.sh.db, rid, ids).(status := Cancelled));
    Took(w, Begin(c, CancelCheck(rid)), c, w.sh, CancelCheck(rid), rs);
    var w1 := World(w.sh, w.clients[c := CancelCheck(rid)]);
    Took(w1, Move(c, Found(rid, ids)), c, w.sh, pc, rs);
    assert w1.clients[c := pc] == w.clients[c := pc];
  }

  lemma CancelCommits(w: World, c: nat, rs: set<Request>)
    requires Reaches(w, rs) && c in w.clients && w.clients[c].CancelTx? && w.clients[c].b.id in w.sh.db.reservations
    ensures Reaches(World(w.sh.(db := Apply(w.sh.db, Cancel(w.clients[c].b))),
                          w.clients[c := CancelInvalidate(w.clients[c].b)]), rs)
  {
    hide Reaches, Execute;
    ReachesPunctual(w, rs);
    CancelSucceeds(w.sh.db, w.clients[c].b);
    Took(w, Move(c, Go), c, w.sh.(db := Apply(w.sh.db, Cancel(w.clients[c].b))), CancelInvalidate(w.clients[c].b), rs);
  }

  lemma ConfirmLoads(w: World, c: nat, rid: Id, ids: seq<Id>, rs: set<Request>)
    requires Reaches(w, rs) && c !in w.clients && rid in w.sh.db.reservations
    requires Lists(ids, w.sh.db.reservations[rid].seats)
    ensures Reaches(World(w.sh, w.clients[c := ConfirmCheck(Load(w.sh.db, rid, ids))]), rs)
  {
    hide Reaches, Lists, CreateStep, ReadStep, Execute;
    var b := Load(w.sh.db, rid, ids);
    Took(w, Begin(c, ConfirmRead(rid)), c, w.sh, ConfirmRead(rid), rs);
    var w1 := World(w.sh, w.clients[c := ConfirmRead(rid)]);
    Took(w1, Move(c, Found(rid, ids)), c, w.sh, ConfirmCheck(b), rs);
    assert w1.clients[c := ConfirmCheck(b)] == w.clients[c := ConfirmCheck(b)];
  }

  lemma ConfirmLooks(w: World, c: nat, b: Booking, rs: set<Request>)
    requires Reaches(w, rs) && c in w.clients && w.clients[c] == ConfirmCheck(b) && b.Confirm(w.sh.now, w.sh.now).Ok?
    ensures Reaches(World(w.sh, w.clients[c := ConfirmTx(b.Confirm(w.sh.now, w.sh.now).value)]), rs)
  {
    hide Reaches, CreateStep, ReadStep, Execute, Load;
    Took(w, Move(c, Go), c, w.sh, ConfirmStamp(b), rs);
    var w1 := World(w.sh, w.clients[c := ConfirmStamp(b)]);
    var paid := b.Confirm(w.sh.now, w.sh.now).value;
    Took(w1, Move(c, Go), c, w.sh, ConfirmTx(paid), rs);
    assert w1.clients[c := ConfirmTx(paid)] == w.clients[c := ConfirmTx(paid)];
  }

  /** From reading the reservation to the transaction of a Confirm. */
  lemma ConfirmReads(w: World, c: nat, rid: Id, ids: seq<Id>, rs: set<Request>)
    requires Reaches(w, rs) && c !in w.clients && rid in w.sh.db.reservations
    requires Lists(ids, w.sh.db.reservations[rid].seats) && Load(w.sh.db, rid, ids).Confirm(w.sh.now, w.sh.now).Ok?
    ensures Reaches(World(w.sh, w.clients[c := ConfirmTx(Load(w.sh.db, rid, ids).Confirm(w.sh.now, w.sh.now).value)]),
              rs)
  {
    hide Reaches, Lists;
    var b := Load(w.sh.db, rid, ids);
    ConfirmLoads(w, c, rid, ids, rs);
    ConfirmLooks(World(w.sh, w.clients[c := ConfirmCheck(b)]), c, b, rs);
    var paid := b.Confirm(w.sh.now, w.sh.now).value;
    assert w.clients[c := ConfirmCheck(b)][c := ConfirmTx(paid)] == w.clients[c := ConfirmTx(paid)];
  }

  lemma ConfirmCommits(w: World, c: nat, rs: set<Request>)
    requires Reaches(w, rs) && c in w.clients && w.clients[c].ConfirmTx?
              && Execute(w.sh.db, Confirm(w.clients[c].b)).Ok?
    ensures Reaches(World(w.sh.(db := Apply(w.sh.db, Confirm(w.clients[c].b))),
                          w.clients[c := Returned(Settled(w.clients[c].b))]), rs)
  {
    hide Reaches, Execute;
    ReachesPunctual(w, rs);
    var b := w.clients[c].b;
    Took(w, Move(c, Go), c, w.sh.(db := Execute(w.sh.db, Confirm(b)).value), Returned(Settled(b)), rs);
  }

  lemma CancelSucceeds(db: Db, b: Booking)
    requires b.id in db.reservations
    ensures Execute(db, Cancel(b)).Ok?
  {
  }

  // ---------------------------------------------------------------- seats of one event on sale

  /** An event open at time `now` and seats for it that the database accepts. */
  ghost predicate Stage(e: Id, event: EventRow, rows: Table, now: int) {
    && e !in rows && event.IsBookingOpen(now)
    && (forall s :: s in rows ==> rows[s].eventId == e && FreshSeat(rows[s]) && |rows[s].number| <= SEAT_NUMBER_WIDTH)
    && NumbersUnique(map[], rows)
  }

  function OnSale(e: Id, event: EventRow, rows: Table, now: int): World {
    World(Shared(Db(map[e := event], rows, map[], {e} + rows.Keys), map[], map[], {}, now, true), map[])
  }

  lemma Opening(w: World, rs: set<Request>)
    requires Initial(w) && w.sh.lockOn
    ensures Reaches(w, rs)
  {
    assert PunctualRun([w], [], rs);
    assert [w][0] == w;
  }

  lemma EventAdded(e: Id, event: EventRow, now: int, rs: set<Request>)
    ensures Reaches(OnSale(e, event, map[], now), rs)
  {
    var w := World(OnSale(e, event, map[], now).sh.(db := Db(map[], map[], map[], {})), map[]);
    Opening(w, rs);
    hide Reaches;
    ReachStep(w, Admin(AddEvent(e, event)), rs);
    assert Step(w, Admin(AddEvent(e, event))) == OnSale(e, event, map[], now);
  }

  lemma SeatsAccepted(e: Id, event: EventRow, rows: Table, now: int)
    requires Stage(e, event, rows, now)
    ensures Agrees(OnSale(e, event, map[], now).sh.db, AddSeats(rows))
    ensures Apply(OnSale(e, event, map[], now).sh.db, AddSeats(rows)) == OnSale(e, event, rows, now).sh.db
  {
    var none: Table := map[];
    assert none + rows == rows && {e} + none.Keys == {e};
  }

  lemma GoesOnSale(e: Id, event: EventRow, rows: Table, now: int, rs: set<Request>)
    requires Stage(e, event, rows, now)
    ensures Reaches(OnSale(e, event, rows, now), rs)
  {
    hide Reaches, Apply, Agrees, Stage;
    EventAdded(e, event, now, rs);
    SeatsAccepted(e, event, rows, now);
    ReachStep(OnSale(e, event, map[], now), Admin(AddSeats(rows)), rs);
  }
}
