/**
 Events, seats and reservations: their stored values, the rules that move them from one status
 to the next, and the mutable entities the services work on.  Times and durations are in milliseconds.
 */
module Domain {

  datatype Option<+T> = None | Some(value: T)

  datatype Error =
    | ReservationNotFound | ReservationNotPending | ReservationExpired
    | ReservationAlreadyCancelled | ReservationAlreadyConfirmed
    | EventIdRequired | UserIdRequired | SeatIdsRequired | KeyRequired | KeyAlreadyExists
    | SeatNotFound | SeatNotAvailable | SeatNotReserved | SeatAlreadyReserved
    | SeatNumberRequired | InvalidPrice
    | EventNotFound | EventNotOpen | EventNameRequired | InvalidTotalSeats | InvalidEventTime
    | LockBusy | LockNotAcquired | LockNotOwned | CacheMiss
    | ContextDone
    | Infrastructure

  datatype Result<+T> = Ok(value: T) | Err(error: Error)

  type Id = string

  const MINUTE: int := 60 * 1000
  const RESERVATION_EXPIRATION: int := 15 * MINUTE

  // ---------------------------------------------------------------- seats

  datatype SeatStatus = Available | Reserved | Confirmed

  datatype SeatRow = SeatRow(eventId: Id, number: string, status: SeatStatus, price: int,
                             reservedBy: Option<Id>, version: nat)
  {
    function Reserve(rid: Id): Result<SeatRow> {
      if status != Available then Err(SeatNotAvailable)
      else Ok(this.(status := Reserved, reservedBy := Some(rid)))
    }

    function Confirm(): Result<SeatRow> {
      if status != Reserved then Err(SeatNotReserved)
      else Ok(this.(status := SeatStatus.Confirmed))
    }

    function Release(): SeatRow {
      this.(status := Available, reservedBy := None)
    }

    function Validate(): Option<Error> {
      if eventId == "" then Some(EventIdRequired)
      else if number == "" then Some(SeatNumberRequired)
      else if price < 0 then Some(InvalidPrice)
      else None
    }
  }

  function NewSeatRow(eventId: Id, number: string, price: int): SeatRow {
    SeatRow(eventId, number, Available, price, None, 0)
  }

  /** The mutable seat entity. */
  class Seat {
    var id: Id
    var eventId: Id
    var number: string
    var status: SeatStatus
    var price: int
    var reservedBy: Option<Id>
    var version: nat

    function Row(): SeatRow
      reads `eventId, `number, `status, `price, `reservedBy, `version
    {
      SeatRow(eventId, number, status, price, reservedBy, version)
    }

    constructor (eventId: Id, number: string, price: int)
      ensures Row() == NewSeatRow(eventId, number, price) && id == ""
    {
      this.id, this.eventId, this.number, this.price := "", eventId, number, price;
      status, reservedBy, version := Available, None, 0;
    }

    method Reserve(rid: Id) returns (err: Option<Error>)
      modifies this`status, this`reservedBy
      ensures old(Row()).Reserve(rid) == if err.Some? then Err(err.value) else Ok(Row())
      ensures err == if old(status) == Available then None else Some(SeatNotAvailable)
      ensures err.None? ==> status == Reserved && reservedBy == Some(rid)
      ensures err.Some? ==> Row() == old(Row())
    {
      if status != Available { return Some(SeatNotAvailable); }
      status, reservedBy := Reserved, Some(rid);
      err := None;
    }

    method Confirm() returns (err: Option<Error>)
      modifies this`status
      ensures old(Row()).Confirm() == if err.Some? then Err(err.value) else Ok(Row())
      ensures err == if old(status) == Reserved then None else Some(SeatNotReserved)
      ensures err.None? ==> status == SeatStatus.Confirmed && reservedBy == old(reservedBy)
      ensures err.Some? ==> Row() == old(Row())
    {
      if status != Reserved { return Some(SeatNotReserved); }
      status := SeatStatus.Confirmed;
      err := None;
    }

    method Release()
      modifies this`status, this`reservedBy
      ensures Row() == old(Row()).Release()
      ensures status == Available && reservedBy == None && version == old(version)
    {
      status, reservedBy := Available, None;
    }
  }

  // ---------------------------------------------------------------- reservations

  datatype ReservationStatus = Pending | Confirmed | Cancelled

  /** The value of a reservation entity, as a service reads it from the database. */
  datatype Booking = Booking(id: Id, eventId: Id, userId: string, seatIds: seq<Id>, status: ReservationStatus,
                             key: string, total: int, createdAt: int, expiresAt: int, confirmedAt: Option<int>)
  {
    predicate IsExpired(now: int) { now > expiresAt }

    /** Two looks at the clock: `checkedAt` for the expiry check, then `now` for the recorded time. */
    function Confirm(checkedAt: int, now: int): Result<Booking> {
      if status != Pending then Err(ReservationNotPending)
      else if IsExpired(checkedAt) then Err(ReservationExpired)
      else Ok(this.(status := ReservationStatus.Confirmed, confirmedAt := Some(now)))
    }

    function Cancel(): Result<Booking> {
      if status == Cancelled then Err(ReservationAlreadyCancelled)
      else if status == ReservationStatus.Confirmed then Err(ReservationAlreadyConfirmed)
      else Ok(this.(status := Cancelled))
    }

    function Validate(): Option<Error> {
      if eventId == "" then Some(EventIdRequired)
      else if userId == "" then Some(UserIdRequired)
      else if |seatIds| == 0 then Some(SeatIdsRequired)
      else if key == "" then Some(KeyRequired)
      else None
    }
  }

  function NewBooking(eventId: Id, userId: string, key: string, seatIds: seq<Id>, total: int, now: int): Booking {
    Booking("", eventId, userId, seatIds, Pending, key, total, now, now + RESERVATION_EXPIRATION, None)
  }

  /** The mutable reservation entity. */
  class Reservation {
    var id: Id
    var eventId: Id
    var userId: string
    var seatIds: seq<Id>
    var status: ReservationStatus
    var key: string
    var total: int
    var createdAt: int
    var expiresAt: int
    var confirmedAt: Option<int>

    function Value(): Booking
      reads this
    {
      Booking(id, eventId, userId, seatIds, status, key, total, createdAt, expiresAt, confirmedAt)
    }

    constructor (b: Booking)
      ensures Value() == b
    {
      id, eventId, userId, seatIds, status := b.id, b.eventId, b.userId, b.seatIds, b.status;
      key, total, createdAt, expiresAt, confirmedAt := b.key, b.total, b.createdAt, b.expiresAt, b.confirmedAt;
    }

    method Confirm(checkedAt: int, now: int) returns (err: Option<Error>)
      modifies this`status, this`confirmedAt
      ensures old(Value()).Confirm(checkedAt, now) == if err.Some? then Err(err.value) else Ok(Value())
      ensures err == if old(status) != Pending then Some(ReservationNotPending)
                     else if old(expiresAt) < checkedAt then Some(ReservationExpired)
                     else None
      ensures err.Some? ==> Value() == old(Value())
      ensures err.None? ==> status == ReservationStatus.Confirmed && confirmedAt == Some(now)
    {
      if status != Pending { return Some(ReservationNotPending); }
      if checkedAt > expiresAt { return Some(ReservationExpired); }
      status, confirmedAt := ReservationStatus.Confirmed, Some(now);
      err := None;
    }

    method Cancel() returns (err: Option<Error>)
      modifies this`status
      ensures old(Value()).Cancel() == if err.Some? then Err(err.value) else Ok(Value())
      ensures err == if old(status) == Cancelled then Some(ReservationAlreadyCancelled)
                     else if old(status) == ReservationStatus.Confirmed then Some(ReservationAlreadyConfirmed)
                     else None
      ensures err.Some? ==> Value() == old(Value())
      ensures err.None? ==> status == Cancelled
    {
      if status == Cancelled { return Some(ReservationAlreadyCancelled); }
      if status == ReservationStatus.Confirmed { return Some(ReservationAlreadyConfirmed); }
      status := Cancelled;
      err := None;
    }
  }

  // ---------------------------------------------------------------- events

  datatype EventRow = EventRow(name: string, description: string, venue: string, startAt: int, endAt: int,
                               totalSeats: int, version: nat)
  {
    predicate IsBookingOpen(now: int) { now < startAt }

    function Validate(): Option<Error> {
      if name == "" then Some(EventNameRequired)
      else if totalSeats <= 0 then Some(InvalidTotalSeats)
      else if endAt < startAt then Some(InvalidEventTime)
      else None
    }
  }

  /** The mutable event entity. */
  class Event {
    const id: Id
    var name: string
    var description: string
    var venue: string
    var startAt: int
    var endAt: int
    var totalSeats: int
    var version: nat

    function Row(): EventRow
      reads this
    {
      EventRow(name, description, venue, startAt, endAt, totalSeats, version)
    }

    constructor (id: Id, row: EventRow)
      ensures this.id == id && Row() == row
    {
      this.id, name, description, venue := id, row.name, row.description, row.venue;
      startAt, endAt, totalSeats, version := row.startAt, row.endAt, row.totalSeats, row.version;
    }
  }
}
