/**
 Any number of clients running the services against one database, one Redis and one clock.
 Every step of a client is one interaction with a shared resource; between two steps of one client
 anything may happen: other clients move, time passes, the client's process may die.
 */
module Protocol {
  import opened Sums
  import opened Domain
  import opened Database
  import opened Invariants
  import opened Redis
  import LockKey

  const LOCK_TTL: int := 10 * 1000
  const LOCK_RETRIES: nat := 3
  const CACHE_TTL: int := 30 * 1000

  datatype Request = Request(eventId: Id, userId: string, seatIds: seq<Id>, key: string)

  /** A lock a client took: its Redis key, the token it wrote, and when the entry expires. */
  datatype Held = Held(key: string, token: Id, deadline: int)

  datatype Outcome =
    | Booked(b: Booking) | Settled(b: Booking) | Swept(count: nat) | Counted(n: int) | Updated | Failed(error: Error)

  /** Where a client is, and what it remembers from its earlier reads. */
  datatype Client =
    // CreateReservation
    | KeyCheck(req: Request)
    | LockTry(req: Request, left: nat)
    | EventCheck(req: Request, lock: Option<Held>)
    | SeatCheck(req: Request, lock: Option<Held>)
    | CreateTx(req: Request, lock: Option<Held>, b: Booking)
    | CreateInvalidate(req: Request, lock: Option<Held>, b: Booking)
    | Unlock(req: Request, lock: Option<Held>, out: Outcome)
    // ConfirmReservation, CancelReservation
    | ConfirmRead(id: Id)
    | ConfirmCheck(b: Booking)
    | ConfirmStamp(b: Booking)
    | ConfirmTx(b: Booking)
    | CancelCheck(id: Id)
    | CancelTx(b: Booking)
    | CancelInvalidate(b: Booking)
    // CancelExpiredReservations
    | SweepCheck(expireAfter: int)
    | SweepTx(todo: seq<Booking>, count: nat)
    // CountAvailableSeats
    | CountGet(e: Id)
    | CountQuery(e: Id)
    | CountSet(e: Id, n: int, readAt: int)
    // UpdateEvent
    | EventRead(id: Id, fields: EventRow)
    | EventTx(id: Id, row: EventRow)
    | Returned(out: Outcome)

  /** What all clients share: the database, Redis, the clock, and whether a lock manager is configured. */
  datatype Shared = Shared(db: Db, locks: Locks, cache: map<Id, CacheEntry>, tokens: set<Id>,
                           now: int, lockOn: bool)

  datatype World = World(sh: Shared, clients: map<nat, Client>)

  /** What a step cannot decide alone: failures, generated ids, and the order in which rows come back. */
  datatype Choice = Go | Fault | Generated(id: Id) | Found(id: Id, seatIds: seq<Id>) | Rows(rows: seq<Booking>)

  datatype Action =
    | Advance(d: int)
    | Begin(c: nat, start: Client)
    | Crash(c: nat)
    | Move(c: nat, ch: Choice)
    | Admin(k: Commit)

  predicate Moves(a: Action, c: nat) { a.Move? && a.c == c }

  // ---------------------------------------------------------------- reads

  predicate LockLive(sh: Shared, key: string) { Live(sh.locks, sh.now, key) }

  predicate CacheLive(sh: Shared, e: Id) { CountLive(sh.cache, sh.now, e) }

  function RedisLockKey(seatIds: seq<Id>): string { "lock:" + LockKey.SeatLockKey(seatIds) }

  // ---------------------------------------------------------------- steps

  /** What one step of a client leaves: the shared resources and the client's next point. */
  datatype Effect = Effect(sh: Shared, pc: Client)

  function Fail(sh: Shared, e: Error): Effect { Effect(sh, Returned(Failed(e))) }

  function CreateStep(sh: Shared, pc: Client, ch: Choice): Effect {
    match pc
    case KeyCheck(req) =>
      if ch.Fault? then Fail(sh, Infrastructure)
      else if ch.Found? && ch.id in sh.db.reservations then Effect(sh, Returned(Booked(Load(sh.db, ch.id, ch.seatIds))))
      else Effect(sh, if sh.lockOn then LockTry(req, LOCK_RETRIES) else EventCheck(req, None))
    case LockTry(req, left) =>
      if !ch.Generated? then Fail(sh, Infrastructure)
      else
        var key, tried := RedisLockKey(req.seatIds), sh.(tokens := sh.tokens + {ch.id});
        var taken := SetNX(sh.locks, sh.now, key, ch.id, LOCK_TTL);
        if taken.None? then
          if left <= 1 then Fail(tried, LockBusy) else Effect(tried, LockTry(req, left - 1))
        else
          Effect(tried.(locks := taken.value), EventCheck(req, Some(Held(key, ch.id, sh.now + LOCK_TTL))))
    case EventCheck(req, lock) =>
      if ch.Fault? then Effect(sh, Unlock(req, lock, Failed(Infrastructure)))
      else if req.eventId !in sh.db.events then Effect(sh, Unlock(req, lock, Failed(EventNotFound)))
      else if !sh.db.events[req.eventId].IsBookingOpen(sh.now) then Effect(sh, Unlock(req, lock, Failed(EventNotOpen)))
      else Effect(sh, SeatCheck(req, lock))
    case SeatCheck(req, lock) =>
      if ch.Fault? then Effect(sh, Unlock(req, lock, Failed(Infrastructure)))
      else
        var total := Tally(SeatsOf(sh.db, req.eventId), req.seatIds);
        if total.Err? then Effect(sh, Unlock(req, lock, Failed(total.error)))
        else
          var b := NewBooking(req.eventId, req.userId, req.key, req.seatIds, total.value, sh.now);
          if b.Validate().Some? then Effect(sh, Unlock(req, lock, Failed(b.Validate().value)))
          else Effect(sh, CreateTx(req, lock, b))
    case CreateTx(req, lock, b) =>
      if !ch.Generated? then Effect(sh, Unlock(req, lock, Failed(Infrastructure)))
      else
        var r := Execute(sh.db, Create(ch.id, b));
        if r.Err? then Effect(sh, Unlock(req, lock, Failed(r.error)))
        else Effect(sh.(db := r.value), CreateInvalidate(req, lock, b.(id := ch.id)))
    case CreateInvalidate(req, lock, b) =>
      Effect(if ch.Fault? then sh else sh.(cache := sh.cache - {req.eventId}), Unlock(req, lock, Booked(b)))
    case Unlock(req, lock, out) =>
      Effect(if lock.None? || ch.Fault? then sh
             else sh.(locks := CompareAndDelete(sh.locks, sh.now, lock.value.key, lock.value.token)), Returned(out))
    case _ => Effect(sh, pc)
  }

  function SettleStep(sh: Shared, pc: Client, ch: Choice): Effect {
    match pc
    case ConfirmRead(id) =>
      if ch.Fault? then Fail(sh, Infrastructure)
      else if !ch.Found? || id !in sh.db.reservations then Fail(sh, ReservationNotFound)
      else Effect(sh, ConfirmCheck(Load(sh.db, id, ch.seatIds)))
    case ConfirmCheck(b) =>
      if b.status != Pending then Fail(sh, ReservationNotPending)
      else if b.IsExpired(sh.now) then Fail(sh, ReservationExpired)
      else Effect(sh, ConfirmStamp(b))
    case ConfirmStamp(b) =>
      Effect(sh, ConfirmTx(b.(status := ReservationStatus.Confirmed, confirmedAt := Some(sh.now))))
    case ConfirmTx(b) =>
      var r := Execute(sh.db, Confirm(b));
      if ch.Fault? then Fail(sh, Infrastructure)
      else if r.Err? then Fail(sh, r.error)
      else Effect(sh.(db := r.value), Returned(Settled(b)))
    case CancelCheck(id) =>
      if ch.Fault? then Fail(sh, Infrastructure)
      else if !ch.Found? || id !in sh.db.reservations then Fail(sh, ReservationNotFound)
      else
        var b := Load(sh.db, id, ch.seatIds).Cancel();
        if b.Err? then Fail(sh, b.error) else Effect(sh, CancelTx(b.value))
    case CancelTx(b) =>
      var r := Execute(sh.db, Cancel(b));
      if ch.Fault? then Fail(sh, Infrastructure)
      else if r.Err? then Fail(sh, r.error)
      else Effect(sh.(db := r.value), CancelInvalidate(b))
    case CancelInvalidate(b) =>
      Effect(if ch.Fault? then sh else sh.(cache := sh.cache - {b.eventId}), Returned(Settled(b)))
    case SweepCheck(expireAfter) =>
      if !ch.Rows? then Fail(sh, Infrastructure) else Effect(sh, SweepTx(ch.rows, 0))
    case SweepTx(todo, count) =>
      if |todo| == 0 then Effect(sh, Returned(Swept(count)))
      else
        var b := todo[0].Cancel();
        if b.Err? || ch.Fault? then Effect(sh, SweepTx(todo[1..], count))
        else
          var r := Execute(sh.db, Cancel(b.value));
          if r.Err? then Effect(sh, SweepTx(todo[1..], count))
          else Effect(sh.(db := r.value), SweepTx(todo[1..], count + 1))
    case _ => Effect(sh, pc)
  }

  function ReadStep(sh: Shared, pc: Client, ch: Choice): Effect {
    match pc
    case CountGet(e) =>
      if !ch.Fault? && CacheLive(sh, e) then Effect(sh, Returned(Counted(sh.cache[e].count)))
      else Effect(sh, CountQuery(e))
    case CountQuery(e) =>
      if ch.Fault? then Fail(sh, Infrastructure) else Effect(sh, CountSet(e, CountAvailable(sh.db, e), sh.now))
    case CountSet(e, n, readAt) =>
      var stored := sh.(cache := sh.cache[e := CacheEntry(n, At(sh.now + CACHE_TTL), readAt)]);
      Effect(if ch.Fault? then sh else stored, Returned(Counted(n)))
    case EventRead(id, fields) =>
      if ch.Fault? then Fail(sh, Infrastructure)
      else if id !in sh.db.events then Fail(sh, EventNotFound)
      else if fields.Validate().Some? then Fail(sh, fields.Validate().value)
      else Effect(sh, EventTx(id, fields.(version := sh.db.events[id].version)))
    case EventTx(id, row) =>
      var r := Execute(sh.db, ChangeEvent(id, row));
      if ch.Fault? then Fail(sh, Infrastructure)
      else if r.Err? then Fail(sh, r.error)
      else Effect(sh.(db := r.value), Returned(Updated))
    case _ => Effect(sh, pc)
  }

  predicate Creating(pc: Client) {
    pc.KeyCheck? || pc.LockTry? || pc.EventCheck? || pc.SeatCheck? || pc.CreateTx? || pc.CreateInvalidate? || pc.Unlock?
  }

  predicate Reading(pc: Client) {
    pc.CountGet? || pc.CountQuery? || pc.CountSet? || pc.EventRead? || pc.EventTx?
  }

  function ClientStep(sh: Shared, pc: Client, ch: Choice): Effect {
    if Creating(pc) then CreateStep(sh, pc, ch)
    else if Reading(pc) then ReadStep(sh, pc, ch)
    else SettleStep(sh, pc, ch)
  }

  function Step(w: World, a: Action): World {
    match a
    case Advance(d) => w.(sh := w.sh.(now := w.sh.now + d))
    case Begin(c, start) => w.(clients := w.clients[c := start])
    case Crash(c) => w.(clients := w.clients - {c})
    case Admin(k) => w.(sh := w.sh.(db := Apply(w.sh.db, k)))
    case Move(c, ch) =>
      if c !in w.clients then w
      else
        var e := ClientStep(w.sh, w.clients[c], ch);
        World(e.sh, w.clients[c := e.pc])
  }

  predicate Starting(pc: Client) {
    || pc.KeyCheck? || pc.ConfirmRead? || pc.CancelCheck? || pc.SweepCheck? || pc.CountGet? || pc.EventRead?
  }

  /** Which answers the shared resources can give a client at this point. */
  ghost predicate Possible(sh: Shared, pc: Client, ch: Choice) {
    match pc
    case KeyCheck(req) =>
      || ch.Fault?
      || (ch.Go? && !KeyTaken(sh.db, req.key))
      || (ch.Found? && ch.id in sh.db.reservations && sh.db.reservations[ch.id].key == req.key
          && Lists(ch.seatIds, sh.db.reservations[ch.id].seats))
    case LockTry(_, _) => ch.Fault? || (ch.Generated? && ch.id !in sh.tokens)
    case CreateTx(_, _, _) => ch.Fault? || (ch.Generated? && ch.id !in sh.db.issued)
    case ConfirmRead(id) =>
      || ch.Fault? || (ch.Go? && id !in sh.db.reservations)
      || (ch.Found? && ch.id == id && id in sh.db.reservations && Lists(ch.seatIds, sh.db.reservations[id].seats))
    case CancelCheck(id) =>
      || ch.Fault? || (ch.Go? && id !in sh.db.reservations)
      || (ch.Found? && ch.id == id && id in sh.db.reservations && Lists(ch.seatIds, sh.db.reservations[id].seats))
    case SweepCheck(expireAfter) => ch.Fault? || (ch.Rows? && ExpiredRows(sh.db, sh.now - expireAfter, ch.rows))
    case Returned(_) => false
    case _ => ch.Fault? || ch.Go?
  }

  ghost predicate Enabled(w: World, a: Action) {
    match a
    case Advance(d) => d >= 0
    case Begin(c, start) => c !in w.clients && Starting(start)
    case Crash(c) => c in w.clients
    case Move(c, ch) => c in w.clients && Possible(w.sh, w.clients[c], ch)
    case Admin(k) => (k.AddEvent? || k.AddSeats? || k.RemoveEvent?) && Agrees(w.sh.db, k)
  }

  /** The transaction a step commits or tries to commit. */
  function CommitOf(w: World, a: Action): Option<Commit> {
    match a
    case Admin(k) => Some(k)
    case Move(c, ch) =>
      if c !in w.clients || ch.Fault? then None
      else
        var pc := w.clients[c];
        if pc.CreateTx? && ch.Generated? then Some(Create(ch.id, pc.b))
        else if pc.ConfirmTx? then Some(Confirm(pc.b))
        else if pc.CancelTx? then Some(Cancel(pc.b))
        else if pc.SweepTx? && |pc.todo| > 0 && pc.todo[0].Cancel().Ok? then Some(Cancel(pc.todo[0].Cancel().value))
        else if pc.EventTx? then Some(ChangeEvent(pc.id, pc.row))
        else None
    case _ => None
  }

  // ---------------------------------------------------------------- runs

  ghost predicate Initial(w: World) {
    && w.sh.db == Db(map[], map[], map[], {})
    && w.sh.locks == map[] && w.sh.cache == map[] && w.sh.tokens == {} && w.clients == map[]
  }

  /** A run: `acts[i]` takes `tr[i]` to `tr[i + 1]`. */
  ghost predicate Run(tr: seq<World>, acts: seq<Action>) {
    && |tr| == |acts| + 1
    && Initial(tr[0])
    && forall i :: 0 <= i < |acts| ==> Enabled(tr[i], acts[i]) && tr[i + 1] == Step(tr[i], acts[i])
  }

  // ---------------------------------------------------------------- what clients remember stays usable

  ghost predicate ClientOk(db: Db, pc: Client) {
    match pc
    case CreateTx(req, lock, b) =>
      && b.eventId == req.eventId && b.seatIds == req.seatIds && b.key == req.key
      && CreateAgrees(db, b) && Elements(b.seatIds) <= db.issued
    case ConfirmCheck(b) => SnapshotAgrees(db, b)
    case ConfirmStamp(b) => SnapshotAgrees(db, b)
    case ConfirmTx(b) => SnapshotAgrees(db, b) && b.status == ReservationStatus.Confirmed
    case CancelTx(b) => SnapshotAgrees(db, b) && b.status == Cancelled
    case SweepTx(todo, _) => forall i :: 0 <= i < |todo| ==> SnapshotAgrees(db, todo[i])
    case _ => true
  }

  /** Holds in every reachable state, whatever is fresh or stale. */
  ghost predicate Sound(w: World) {
    Wf(w.sh.db) && forall c :: c in w.clients ==> ClientOk(w.sh.db, w.clients[c])
  }
}
