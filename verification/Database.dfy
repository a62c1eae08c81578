/**
 The stored tables and the transactions that change them.  A transaction is one atomic commit:
 it either takes effect as a whole or leaves the tables alone.
 */
module Database {
  import opened Sums
  import opened Domain
  import opened SeatTable

  /** One row of `reservations` together with its rows of `reservation_seats`. */
  datatype ReservationRow = ReservationRow(eventId: Id, userId: string, key: string, status: ReservationStatus,
                                           total: int, createdAt: int, expiresAt: int, confirmedAt: Option<int>,
                                           seats: set<Id>)

  /** `issued` is every UUID ever generated: a generated id is never generated again. */
  datatype Db = Db(events: map<Id, EventRow>, seats: Table, reservations: map<Id, ReservationRow>, issued: set<Id>)

  predicate KeyTaken(db: Db, key: string) {
    exists r :: r in db.reservations && db.reservations[r].key == key
  }

  function RowOf(b: Booking): ReservationRow {
    ReservationRow(b.eventId, b.userId, b.key, b.status, b.total, b.createdAt, b.expiresAt, None, Elements(b.seatIds))
  }

  const TEXT_WIDTH: nat := 255

  /** The widths of the user_id and idempotency_key columns. */
  predicate TextFits(b: Booking) { |b.userId| <= TEXT_WIDTH && |b.key| <= TEXT_WIDTH }

  /** INSERT the reservation and its seat rows: column widths, unique key, foreign keys, and primary key
      (reservation, seat). */
  function InsertReservation(db: Db, rid: Id, b: Booking): Result<Db> {
    if !TextFits(b) then Err(Infrastructure)
    else if KeyTaken(db, b.key) then Err(KeyAlreadyExists)
    else if b.eventId !in db.events then Err(Infrastructure)
    else if !Distinct(b.seatIds) || exists s :: s in b.seatIds && s !in db.seats then Err(Infrastructure)
    else Ok(db.(reservations := db.reservations[rid := RowOf(b)], issued := db.issued + {rid}))
  }

  /** UPDATE keyed on the id alone. */
  function UpdateReservation(db: Db, b: Booking): Result<Db> {
    if b.id !in db.reservations then Err(ReservationNotFound)
    else Ok(db.(reservations := db.reservations[
                  b.id := db.reservations[b.id].(status := b.status, confirmedAt := b.confirmedAt)]))
  }

  /** UNIQUE (event_id, seat_number), within the new rows and against the stored ones. */
  predicate NumbersUnique(seats: Table, rows: Table) {
    && (forall s, t :: s in rows && t in rows && s != t ==> !SameNumber(rows[s], rows[t]))
    && (forall s, t :: s in rows && t in seats ==> !SameNumber(rows[s], seats[t]))
  }

  predicate SameNumber(a: SeatRow, b: SeatRow) { a.eventId == b.eventId && a.number == b.number }

  const SEAT_NUMBER_WIDTH: nat := 50

  /** The foreign key to events, and the width of the seat_number column. */
  predicate RowAccepted(db: Db, row: SeatRow) { row.eventId in db.events && |row.number| <= SEAT_NUMBER_WIDTH }

  /** One multi-row INSERT statement: all rows or none. */
  function InsertSeats(db: Db, rows: Table): Result<Db> {
    if !(forall s :: s in rows ==> RowAccepted(db, rows[s])) || !NumbersUnique(db.seats, rows) then Err(Infrastructure)
    else Ok(db.(seats := db.seats + rows, issued := db.issued + rows.Keys))
  }

  /** The compare-and-set on version. */
  function UpdateEvent(db: Db, id: Id, row: EventRow): Result<Db> {
    if id !in db.events || db.events[id].version != row.version then Err(EventNotFound)
    else Ok(db.(events := db.events[id := row.(version := row.version + 1)]))
  }

  /** Reservations restrict the deletion; seats and, through them, reservation_seats cascade. */
  function DeleteEvent(db: Db, id: Id): Result<Db> {
    if id !in db.events then Err(EventNotFound)
    else if exists r :: r in db.reservations && db.reservations[r].eventId == id then Err(Infrastructure)
    else
      var kept := map s | s in db.seats && db.seats[s].eventId != id :: db.seats[s];
      Ok(db.(events := db.events - {id}, seats := kept,
             reservations := map r | r in db.reservations ::
                               db.reservations[r].(seats := db.reservations[r].seats - (db.seats.Keys - kept.Keys))))
  }

  datatype Commit =
    | Create(rid: Id, b: Booking)
    | Confirm(b: Booking)
    | Cancel(b: Booking)
    | AddEvent(id: Id, row: EventRow)
    | AddSeats(rows: Table)
    | ChangeEvent(id: Id, row: EventRow)
    | RemoveEvent(id: Id)

  function Execute(db: Db, k: Commit): Result<Db> {
    match k
    case Create(rid, b) =>
      var inserted := InsertReservation(db, rid, b);
      if inserted.Err? then inserted
      else
        var reserved := ReserveSeats(inserted.value.seats, b.seatIds, rid);
        if reserved.Err? then Err(reserved.error) else Ok(inserted.value.(seats := reserved.value))
    case Confirm(b) =>
      var confirmed := ConfirmSeats(db.seats, b.seatIds);
      if confirmed.Err? then Err(confirmed.error) else UpdateReservation(db.(seats := confirmed.value), b)
    case Cancel(b) => UpdateReservation(db.(seats := ReleaseSeats(db.seats, b.seatIds)), b)
    case AddEvent(id, row) => Ok(db.(events := db.events[id := row], issued := db.issued + {id}))
    case AddSeats(rows) => InsertSeats(db, rows)
    case ChangeEvent(id, row) => UpdateEvent(db, id, row)
    case RemoveEvent(id) => DeleteEvent(db, id)
  }

  /** A failed transaction is rolled back. */
  function Apply(db: Db, k: Commit): Db {
    var r := Execute(db, k);
    if r.Ok? then r.value else db
  }

  /** `SELECT COUNT(*) ... WHERE event_id = e AND status = 'available'` */
  function AvailableSeats(db: Db, e: Id): set<Id> {
    set s | s in db.seats && db.seats[s].eventId == e && db.seats[s].status == Available
  }

  function CountAvailable(db: Db, e: Id): nat {
    |AvailableSeats(db, e)|
  }

  /** The entity a read builds; the order in which the seat ids come back is the database's choice. */
  function Load(db: Db, r: Id, seatIds: seq<Id>): Booking
    requires r in db.reservations
  {
    var row := db.reservations[r];
    Booking(r, row.eventId, row.userId, seatIds, row.status, row.key, row.total, row.createdAt, row.expiresAt,
      row.confirmedAt)
  }

  predicate Expired(db: Db, cutoff: int, r: Id) {
    r in db.reservations && db.reservations[r].status == Pending && db.reservations[r].createdAt < cutoff
  }

  predicate SettledIn(db: Db, r: Id) { r in db.reservations && db.reservations[r].status != Pending }

  /** Expired reservations as loaded, each at most once. */
  ghost predicate RowsLoaded(db: Db, cutoff: int, rows: seq<Booking>) {
    && (forall i :: 0 <= i < |rows| ==>
          && Expired(db, cutoff, rows[i].id)
          && Lists(rows[i].seatIds, db.reservations[rows[i].id].seats)
          && rows[i] == Load(db, rows[i].id, rows[i].seatIds))
    && (forall i, j :: 0 <= i < j < |rows| ==> rows[i].id != rows[j].id)
  }

  /** The rows GetExpiredPending returns: every expired reservation, each once. */
  ghost predicate ExpiredRows(db: Db, cutoff: int, rows: seq<Booking>) {
    && RowsLoaded(db, cutoff, rows)
    && forall r :: Expired(db, cutoff, r) ==> exists i :: 0 <= i < |rows| && rows[i].id == r
  }

  function SeatsOf(db: Db, e: Id): Table {
    map s | s in db.seats && db.seats[s].eventId == e :: db.seats[s]
  }

  /** The pre-check loop over the requested ids: every seat known and available, and the sum of their prices. */
  function Tally(seats: Table, ids: seq<Id>): Result<int> {
    if |ids| == 0 then Ok(0)
    else
      var before := Tally(seats, ids[..|ids| - 1]);
      var id := ids[|ids| - 1];
      if before.Err? then before
      else if id !in seats then Err(SeatNotFound)
      else if seats[id].status != Available then Err(SeatAlreadyReserved)
      else Ok(before.value + seats[id].price)
  }
}
