# Event ticket reservation: a verified model

The service sells seats of events. A user holds seats by creating a reservation (pending), pays by confirming it,
or gives the seats back by cancelling it; a background worker cancels pending reservations that are too old.
The system's promise is that one seat is sold to one person, under any concurrency. Four mechanisms stand behind it:

* the bulk `UPDATE ... WHERE status = 'available'` with its row count, inside a transaction;
* a Redis lock on the requested seats, with a token and a ten-second lifetime;
* an idempotency key, unique in the database;
* a version counter on seats and events.

A Redis cache of the number of available seats, with a thirty-second lifetime, serves the counts.

This project models these parts and proves what they guarantee together, and where the guarantees end.

## How the model is built

The stored tables are a value, `Database.Db`, and every transaction is one atomic `Commit` with an outcome
(`Execute`) and a next state (`Apply`). PostgreSQL's Read Committed re-evaluates the `WHERE` of an `UPDATE` after
waiting for a row lock (section 13.2.1 of its manual), so a transaction's guards are judged against the state it commits on.
Three layers share that one definition:

* **Classes** in the source's own imperative form: entities (`Domain.Seat`, `Domain.Reservation`, `Domain.Event`),
  repositories over tables updated in place (`Postgres.Store`), Redis clients (`Redis`), the services and the worker,
  with their loops, partial effects and rollbacks. Each method is proved against the shared definitions.
* **A transition system** (`Protocol`): any number of clients, each a program counter with whatever it read before,
  over one database, one Redis and one clock. Between two steps of one client anything may happen: others move, time
  passes, locks expire, processes die, requests fail. Creating takes seven kinds of step: key check, lock attempt, event
  check, seat check, transaction, cache invalidation, unlock. Cancelling and each sweep item are a read and a commit;
  confirming has two looks at the clock in between; counting is a cache read, a database read and a cache write; an
  event update is a read and a write. Seats and events are added and events deleted at any moment.
* **Operations one at a time** (`Sequential`, `Sweep`), where success conditions and cache coherence are exact.

| file | content |
|---|---|
| `Sums` | finite sums and duplicate-free listings |
| `Domain`, `SeatTable`, `Database` | entities, bulk seat updates, tables and transactions |
| `Invariants`, `Ownership`, `History` | what each commit keeps: structure, holders, versions, money |
| `LockKey`, `Redis` | lock key, lock and cache commands and their clients |
| `Protocol`, `Safety`, `Locking`, `Finality`, `Staleness`, `EventUpdates`, `Deadlines` | the transition system and the theorems over all its runs |
| `SweepRuns`, `HoldTime` | the sweep among all other clients: its count, what it clears, how long a reservation stays pending |
| `Origins` | where commits come from: what their client had read, and who came in between |
| `PunctualRuns`, `Overlap`, `BreakingRuns` | runs with the lock on and everybody in time that show where the guarantees end |
| `Sequential`, `Sweep` | operations one at a time, and the expiry sweep |
| `Answers` | what each call answers and leaves, over the stored values alone, for the services and for the step-by-step clients |
| `Postgres`, `ReservationService`, `SeatService`, `EventService`, `Worker` | the classes |

## Fresh commit

Confirm, Cancel and the sweep read a reservation outside their transaction and then update it by id alone, and
neither `ConfirmSeats` nor `ReleaseSeats` looks at a seat's holder. So the code relies on something it does not check.
The hypothesis **fresh commit** (`Safety.FreshCommit`) names it: when such a transaction commits, the stored
reservation is still pending, as it was when read. Nothing is asked of a transaction that is rolled back, so two
clients racing to confirm one reservation, or a confirmation that loses to the sweep while its seats are free, are within
the hypothesis (`LateConfirmRolledBack`). Half of it the code guarantees by its check at the read: whatever settles a
reservation read it while it was stored as pending, so a commit that is not fresh lost a race against another client's
commit between that read and its own (`SettledAsRead`, `StaleMeansRaced`).

* It is not needed for: structure and prices (`RunSound`), idempotency (`OneReservationPerKey`,
  `ReplayReturnsTheSame`), `NothingBookedIsDeleted`, `NeverPendingAgain`, `EverySeatAccounted`, `MutualExclusion`,
  `UnlockOwnOnly`, `PreCheckAuthoritative`, `OverlapExact`, `ServedCountBounded`, `NoLostUpdate`, `ConfirmedInTime`,
  `StaleMeansRaced`, `BookedFrom`, `SweepClears` and the hold-time bounds.
* It is enough for `NoDoubleBookingEver`, `BalancedEver`, `FinalForever` and `FreshSweepCount`, and none of these survives
  without it. Each has its exact condition in all runs, or its failing run:
  * the **owner check**, which the two `UPDATE` statements on seats leave out: seats and reservations agree through a run
    exactly when every commit would have passed it (`AgreementExact`), and then money balances too (`BalancedEver`);
  * the **status check**, which the `UPDATE` on reservations leaves out: settled reservations keep their status through a
    run exactly when every commit would have passed it (`FinalityExact`). The owner check is no substitute: a stale
    Cancel of a confirmed reservation passes it (`StaleCancelTakesBack`), and in `SeatConfirmedTwice` two clients have
    been told that one seat is theirs while seats and reservations agree;
  * one seat is sold once exactly when nothing is booked or confirmed that another active reservation lists
    (`NoDoubleBookingExact`); `ForeignReleaseSellsTwice` and `UnownedConfirmBreaks` say what follows, and
    `StaleCancelSellsTwice` is a run, with the lock on and everybody in time, in which a seat is sold twice and the
    accounts do not balance;
  * versions count history exactly in precisely the fresh runs (`VersionHistoryExact`), and a sweep counts exactly as
    long as its own commits are fresh (`SweepCount`).

The same run-level theorems need no lock at all: under fresh commits safety rests on the guarded update, its row count
and the rollback. What the lock adds is `PreCheckAuthoritative`.

## Where code and documentation differ

* The service's own README (lines 141 and 338) shows one lock per seat (`lock:seat-A1`). The code locks the whole sorted
  list under one key (`internal/application/reservation_service.go:172-177`), so two lists that overlap without being
  equal do not exclude each other. The model follows the code; `OverlapExact` gives the exact consequence.
* A version mismatch on an event update is reported as event not found
  (`internal/infrastructure/postgres/event_repository.go:151-153`).
* A reservation's age counts from when it is built, before its transaction. `HoldTimeBetweenSweeps` therefore bounds how
  long it can stay pending with the commit delay in it, and `HoldTimeExact` shows that figure to be the best possible:
  the expiry time alone stands in it exactly when commits come within it. Under the lock, with clients in time, they
  come within ten seconds (`PunctualCommits`, `DeployedHoldTime`).
* Confirming looks at the clock twice, so the recorded time can lie after the deadline by the time between the two looks
  (`ConfirmedInTime`).
* The sweep and the creation of seats do not invalidate the cached count. `UninvalidatedCancel` says exactly when that
  matters; `ServedCountBounded` covers it within the thirty seconds.

## Model

| member | source | states |
|---|---|---|
| `Safety.NoDoubleBookingEver` | internal/application/reservation_service.go:104-157 | in every state of every interleaving in which whatever settling transaction commits is fresh, with or without locks and with arbitrarily stale reads: no seat is in two pending or confirmed reservations; every pending or confirmed reservation holds all its seats in the matching status, and every seat that is not available names the reservation that lists it; a version is odd exactly while the seat is reserved |
| `Origins.StaleMeansRaced` | internal/application/reservation_service.go:190-254 | the half of fresh commit that the code does guarantee, in every run: a settling commit that is not fresh had read its reservation while it was stored as pending, and between that read and it another client's commit settled the reservation |
| `Origins.SettledAsRead` | internal/domain/reservation/entity.go:59-84 | in every run a client past the status check of a Confirm or Cancel, or with an item left in its sweep, read that reservation at an earlier step of its own at which the stored status was pending |
| `Origins.BookedFrom` | internal/application/reservation_service.go:94-157 | in every run a stored reservation was committed by a client that at an earlier step of its own found every requested seat stored for that event and available and summed up their prices, and before that found the event stored and not yet begun; its terms are what that client asked for |
| `Safety.AgreementExact` | internal/infrastructure/postgres/seat_repository.go:169-200 | for every run: seats and reservations agree in all states if and only if every commit would have passed the owner check that ConfirmSeats and ReleaseSeats do not make |
| `Safety.VersionHistoryExact` | internal/infrastructure/postgres/seat_repository.go:149-200 | for every run: every seat version is the exact history count in all states if and only if the run is fresh |
| `BreakingRuns.StaleCancelSellsTwice` | internal/application/reservation_service.go:222-254 | the freshness hypothesis cannot be dropped: a run, with the lock on and every client in time, in which a stale cancellation leads to one seat in two pending reservations, with two totals owed for the price of one |
| `BreakingRuns.SeatConfirmedTwice` | internal/application/reservation_service.go:190-254 | nor would an owner check replace it: a run of the same kind in which two clients have been told that the same seat is confirmed for them, while seats and reservations agree |
| `Finality.FinalityExact` | internal/infrastructure/postgres/reservation_repository.go:110-118 | for every run: confirmed stays confirmed and cancelled stays cancelled between any two states if and only if every commit meets the status check that the update of a reservation does not make |
| `Finality.NoDoubleBookingExact` | internal/infrastructure/postgres/seat_repository.go:149-187 | for every run: one seat is in one active reservation in all states if and only if no committed Create or Confirm finds one of its seats listed by another active reservation |
| `Safety.BalancedEver` | internal/application/reservation_service.go:113-131 | in every state of every run whose commits pass the owner check, so of every fresh run, the totals of an event's active reservations add up to the prices of its reserved and confirmed seats |
| `Safety.EverySeatAccounted` | internal/infrastructure/postgres/seat_repository.go:149-206 | in every state of every run the available count together with the event's reserved and confirmed seats is as many seats as were ever created for it |
| `Safety.FinalForever` | internal/domain/reservation/entity.go:59-84 | in fresh runs, attempts that are rolled back included, a confirmed or cancelled reservation keeps its whole row and a confirmed seat its own, holder included, for ever, also when events are deleted |
| `Safety.NeverPendingAgain` | internal/domain/reservation/entity.go:59-84 | in every run, fresh or stale, a reservation once settled never becomes pending again |
| `Safety.NothingBookedIsDeleted` | db/migrations/000001_create_initial_tables.up.sql:33-49 | no run, fresh or stale, deletes a reservation, changes its terms, or deletes a seat that a reservation lists |
| `Safety.OneReservationPerKey` | internal/infrastructure/postgres/reservation_repository.go:41-47 | in every run at most one reservation exists per key, and once it exists the key keeps naming it |
| `Safety.ReplayReturnsTheSame` | internal/application/reservation_service.go:50-60 | every key check that follows the commit and gets an answer returns that reservation with its terms of the first commit and the status and confirmation time stored at that moment, and changes nothing shared, also after cancellation |
| `Safety.RunSound` | db/migrations/000001_create_initial_tables.up.sql:16-49 | every reachable state keeps the foreign keys, unique keys and prices of all reservations, and everything clients remember stays usable, with no freshness assumed |
| `Locking.MutualExclusion` | internal/infrastructure/redis/distributed_lock.go:48-67 | in every run two clients whose deadlines have not passed never hold locks with the same key, nor on the same seats in any order |
| `Locking.PreCheckAuthoritative` | internal/application/reservation_service.go:62-157 | when requests are duplicate-free and pairwise equal or disjoint and clients stay within their lock's lifetime, a Create that passed the seat check never fails at reserving, however stale other commits are |
| `Overlap.OverlapExact` | internal/application/reservation_service.go:172-177 | that restriction is exact: any two complete requests, under different keys, for plain seat ids of one open event can lead to a failure at reserving after a passed seat check, with both locks held in time, if and only if their seats overlap without being equal |
| `Staleness.ServedCountBounded` | internal/application/seat_service.go:89-116 | every count any client is given, from the cache or not, was the number of seats stored as available at a database read no longer ago than 30 seconds plus the time that reader took to write the cache or to answer |
| `Staleness.BoundedStaleness` | internal/infrastructure/redis/seat_cache.go:34-54 | a live cached count was the true count at a database read no longer ago than 30 seconds plus the time that reader took to write it |
| `Staleness.StoredSince` | internal/application/reservation_service.go:165-251 | in every run, after a booking or cancellation whose invalidation Redis did not fail, any cached count of that event was stored after it; one stored before never survives |
| `Sequential.CountsAreExact` | internal/application/seat_service.go:89-116 | over any sequence of non-overlapping bookings, confirmations, cancellations, counts and waits, every count served is the number of seats stored as available at that moment |
| `Sequential.BookingSucceedsExactly` | internal/application/reservation_service.go:94-157 | a request with an unused key is booked if and only if its fields are present and fit their columns, the event is open, and its seats are duplicate-free, of that event and available; the stored row then reads back the same seats and the sum of their prices, and otherwise nothing changes |
| `Answers.BookingAnswers` | internal/application/reservation_service.go:94-157 | which error a request with an unused key gets, check by check in the order in which they refuse, each over the tables found at that step, down to the key taken meanwhile and the seats taken meanwhile; and every table row after a success |
| `Answers.BookingStepsAnswer` | internal/application/reservation_service.go:94-157 | the step-by-step client among others gets the same answers and leaves the same rows |
| `Answers.LockStepsAnswer` | internal/application/reservation_service.go:62-84 | the first of three attempts that finds the key without a live entry takes it for ten seconds; three that find it taken are answered as being processed and leave the locks as found |
| `Answers.CancelSucceedsExactly` | internal/domain/reservation/entity.go:74-84 | when seats and reservations agree, cancelling succeeds if and only if the stored status is pending; then the reservation is cancelled, exactly the seats it held are available without a holder, and all else is as it was; a stored confirmed or cancelled reservation is refused with its own error and nothing changes |
| `Answers.CancelAnswers` | internal/application/reservation_service.go:222-254 | with others committing between read and transaction, and without any agreement: the answer by the stored status, every row afterwards, and every column of what is returned |
| `Answers.ConfirmAnswers` | internal/application/reservation_service.go:190-220 | likewise for confirming: not pending, then expired at the first look at the clock, then some seat not reserved, else confirmed at the second look |
| `Answers.ConfirmStepsAnswer` | internal/application/reservation_service.go:190-220 | the step-by-step Confirm among others gets those answers and leaves those rows |
| `Answers.CancelStepsAnswer` | internal/application/reservation_service.go:222-246 | and so does the step-by-step Cancel |
| `Sequential.ConfirmSucceedsExactly` | internal/application/reservation_service.go:190-220 | when seats and reservations agree, confirming succeeds if and only if the reservation is pending and not expired: the row count is always full |
| `Sweep.SweepExact` | internal/application/reservation_service.go:266-313 | for every pattern of item failures: the count is the number of reservations moved from pending to cancelled, exactly their seats become available, all else is unchanged, and without failures nothing older than the cutoff stays pending |
| `SweepRuns.WorkerCount` | internal/worker/expired_reservation_cleaner.go:52-88 | all sweeps of a worker's life together, item by item among all other clients and in every run: what they report is the number of reservations they moved from pending to cancelled, none counted twice, plus the number of their stale commits |
| `SweepRuns.SweepCount` | internal/application/reservation_service.go:272-312 | item by item, among all other clients and in every run: a sweep's count is the number of reservations it moved from pending to cancelled plus the number of its stale commits |
| `SweepRuns.FreshSweepCount` | internal/application/reservation_service.go:272-312 | so in fresh runs the count is exactly the number of reservations moved |
| `SweepRuns.SweepClears` | internal/application/reservation_service.go:266-312 | when a sweep without failures returns, nothing that was expired when it began is still pending, whatever others did meanwhile, fresh or stale |
| `SweepRuns.HoldTimeBetweenSweeps` | internal/worker/expired_reservation_cleaner.go:48-63 | in every run, with sweeps that begin at most one interval apart, take at most some duration and meet no failure: nothing stays pending longer than interval, duration and the longer of expiry time and commit delay together |
| `SweepRuns.DeployedHoldTime` | cmd/api/main.go:156-160 | with the deployed one and fifteen minutes, the lock on and clients in time, nothing stays pending longer than sixteen minutes plus the duration of a sweep; no commit delay is assumed |
| `SweepRuns.PunctualCommits` | internal/application/reservation_service.go:67-153 | with the lock on and clients in time a reservation is committed within ten seconds of being built |
| `HoldTime.HoldTimeExact` | internal/worker/expired_reservation_cleaner.go:48-63 | and that figure is exact: for every setting a number bounds the pending time in all runs on that schedule if and only if it is at least that sum; so the expiry time alone stands in it exactly when commits come within the expiry time |
| `EventUpdates.NoLostUpdate` | internal/infrastructure/postgres/event_repository.go:124-157 | every committed event update replaces the very row its client had read, with no other committed update of that event in between, stores valid columns that this client asked for, one version on, and touches no other event |
| `SeatTable.BulkRefinesFold` | internal/infrastructure/postgres/seat_repository.go:149-187 | for every id list, duplicates and unknown ids included, the bulk update with row count succeeds exactly when applying the seat entity's operation to each id in turn does, with the same rows but for the version tick |
| `LockKey.KeyCanonical` | internal/application/reservation_service.go:172-177 | for non-empty ids without commas two lists have the same lock key if and only if they are equal as multisets |
| `SeatServices.BulkGoesThrough` | internal/application/seat_service.go:58-75 | all batches of a bulk creation go in if and only if the event exists and every number fits its column and is free in the event: the new numbers never clash with one another |
| `Deadlines.ConfirmedInTime` | internal/domain/reservation/entity.go:49-71 | in every state of every run, fresh or stale, a confirmed reservation was seen unexpired, within fifteen minutes of its creation, by the client that confirmed it, and carries that client's second look at the clock: at most the deadline plus the time between the two looks |
| `Domain.Seat.Reserve` | internal/domain/seat/entity.go:48-58 | takes an available seat for the reservation, refuses any other and then changes nothing |
| `Domain.Seat.Confirm` | internal/domain/seat/entity.go:61-68 | confirms a reserved seat, refuses any other and then changes nothing |
| `Domain.Reservation.Confirm` | internal/domain/reservation/entity.go:59-71 | refuses unless pending, then unless not expired at the first look at the clock; else confirmed with the second; a refusal changes nothing |
| `Domain.Reservation.Cancel` | internal/domain/reservation/entity.go:74-84 | a pending reservation becomes cancelled; a cancelled and a confirmed one are refused with their own errors, changing nothing |
| `SeatTable.FullCount` | internal/infrastructure/postgres/seat_repository.go:162-165 | the number of rows changed equals the number of ids exactly for duplicate-free lists of stored seats in the guarded status |
| `SeatTable.ReserveEffect` | internal/infrastructure/postgres/seat_repository.go:149-167 | reserving succeeds exactly on duplicate-free lists of available seats, and changes those rows and no others |
| `SeatTable.ConfirmEffect` | internal/infrastructure/postgres/seat_repository.go:169-187 | the same for confirming reserved seats |
| `SeatTable.FoldEffect` | internal/domain/seat/entity.go:48-68 | what the per-seat operations in turn accept and leave behind |
| `SeatTable.BulkOrderIndependent` | internal/infrastructure/postgres/seat_repository.go:149-200 | permuting the ids changes neither the outcome nor the tables of any of the three updates |
| `Postgres.Store.ReserveSeats` | internal/infrastructure/postgres/seat_repository.go:149-167 | the update in place; a short row count leaves its partial effect for the rollback and reports already reserved |
| `Postgres.Store.ConfirmSeats` | internal/infrastructure/postgres/seat_repository.go:169-187 | the update in place; a short row count leaves its partial effect for the rollback and reports not reserved |
| `Postgres.Store.ReleaseSeats` | internal/infrastructure/postgres/seat_repository.go:189-200 | frees every listed seat, whoever holds it |
| `Postgres.Store.CreateReservation` | internal/infrastructure/postgres/reservation_repository.go:36-56 | the insert and the loop over seat ids succeed together exactly when the widths, keys and foreign keys allow, and then store the set of listed seats |
| `Postgres.Store.UpdateReservation` | internal/infrastructure/postgres/reservation_repository.go:105-120 | changes status and confirmation time of the row with that id, whatever its status; not found when there is none |
| `Postgres.Store.GetReservation` | internal/infrastructure/postgres/reservation_repository.go:58-72 | the stored row with its seat ids, each once, in some order; not found when there is none |
| `Postgres.Store.GetReservationByKey` | internal/infrastructure/postgres/reservation_repository.go:74-87 | the reservation stored under the key, or not found exactly when the key is unused |
| `Postgres.Store.GetExpiredPending` | internal/infrastructure/postgres/reservation_repository.go:122-137 | every pending reservation created before the cutoff, each exactly once, and no other |
| `Postgres.Store.GetSeatsByEvent` | internal/infrastructure/postgres/seat_repository.go:123-134 | every seat of the event with its row, each once, ordered by seat number, and no other |
| `Postgres.Store.UpdateEvent` | internal/infrastructure/postgres/event_repository.go:124-157 | stores the event and ticks its version exactly when the stored version is the one it carries; otherwise not found |
| `Postgres.Store.DeleteEvent` | internal/infrastructure/postgres/event_repository.go:160-176 | refused while a reservation names the event; otherwise its seats go with it |
| `Postgres.Store.Rollback` | internal/infrastructure/postgres/transaction.go:22-24 | restores the tables saved at the start of the transaction |
| `Invariants.CommitWf` | db/migrations/000001_create_initial_tables.up.sql:16-49 | every commit, fresh or stale, keeps foreign keys, unique keys and prices |
| `Invariants.CommitEvolves` | internal/infrastructure/postgres/reservation_repository.go:105-120 | no commit changes a reservation's terms or a seat's event, number or price, or brings back a used id |
| `Invariants.RemovalKeepsReservations` | db/migrations/000001_create_initial_tables.up.sql:18-48 | deleting an event takes no seat away from any reservation, past or present |
| `Ownership.OwnerGuardExact` | internal/infrastructure/postgres/seat_repository.go:169-200 | one commit keeps seats and reservations in agreement if and only if it passes the missing owner check |
| `Ownership.UnownedConfirmBreaks` | internal/infrastructure/postgres/seat_repository.go:177-185 | confirming over a seat held by somebody else always breaks agreement and sells that seat twice |
| `Ownership.ForeignReleaseBreaks` | internal/infrastructure/postgres/seat_repository.go:197-199 | releasing a seat held by somebody else always breaks agreement |
| `Ownership.ForeignReleaseSellsTwice` | internal/infrastructure/postgres/seat_repository.go:157-199 | and whatever reservation then succeeds in booking that seat, it is in two active reservations |
| `Ownership.FreshIsGuarded` | internal/application/reservation_service.go:190-254 | when seats and reservations agree, a fresh Confirm or Cancel finds all its seats reserved by itself |
| `Ownership.LateConfirmRolledBack` | internal/application/reservation_service.go:195-207 | a Confirm that finds its reservation settled is rolled back, unless every one of its seats is by then on hold for somebody else; after another Confirm of the same reservation it always is |
| `Ownership.FreshTouchesOwnOnly` | internal/application/reservation_service.go:190-254 | a fresh Confirm or Cancel always succeeds and changes its own status and the seats it holds, nothing else |
| `Finality.StaleCancelTakesBack` | internal/application/reservation_service.go:222-254 | a stale Cancel, or sweep item, of a confirmed reservation passes the owner check and keeps agreement, yet cancels it and frees all its seats |
| `Finality.StatusGuardExact` | internal/infrastructure/postgres/reservation_repository.go:110-110 | one commit leaves every settled status alone if and only if it meets the missing status check |
| `Finality.SoleGuardExact` | internal/infrastructure/postgres/seat_repository.go:157-177 | one commit keeps every seat in at most one active reservation if and only if it books or confirms no seat listed by another |
| `Ownership.ConsistentMeansNoDoubleBooking` | internal/infrastructure/postgres/seat_repository.go:157-165 | agreement implies that no seat is sold twice |
| `History.VersionsExact` | internal/infrastructure/postgres/seat_repository.go:157-197 | one commit keeps versions exact if and only if it was rolled back or found its reservation still pending |
| `History.OddMeansReserved` | internal/infrastructure/postgres/seat_repository.go:157-197 | with exact versions a seat's version is odd exactly while it is reserved |
| `History.MoneyConserved` | internal/application/reservation_service.go:113-131 | per event, active reservations are owed exactly the prices of the seats that are not available |
| `Sequential.CountRises` | internal/infrastructure/postgres/seat_repository.go:189-206 | cancelling a pending reservation raises the event's number of available seats by exactly its seats |
| `Sequential.CountFalls` | internal/infrastructure/postgres/seat_repository.go:149-206 | a booking lowers the event's available count by exactly the number of requested seats |
| `History.CountIsSeats` | internal/infrastructure/postgres/seat_repository.go:202-206 | the count the database returns is the number of the event's seats whose stored status is available |
| `Safety.StepDb` | internal/application/reservation_service.go:42-254 | a step moves the database by its own transaction, all or nothing, and by nothing else |
| `Safety.StepSound` | internal/application/reservation_service.go:42-313 | every step of every client keeps the tables sound and what all clients remember usable |
| `Safety.TallySum` | internal/application/reservation_service.go:113-128 | a passed seat check saw every requested seat available, and for lists without duplicates its total is the sum of their prices |
| `Safety.ClientOkKept` | internal/application/reservation_service.go:104-157 | a draft or a loaded reservation stays meaningful however long it is kept |
| `Locking.RunLocksOk` | internal/infrastructure/redis/distributed_lock.go:48-108 | in every run each holder's entry is in Redis with its own token until its deadline |
| `Locking.StaysAvailable` | internal/infrastructure/postgres/seat_repository.go:149-200 | only a Create on the seat itself makes an available seat unavailable: no stale Confirm or Cancel does |
| `Locking.UnlockOwnOnly` | internal/infrastructure/redis/distributed_lock.go:91-108 | in every run giving a lock back removes the client's own entry and no other, and after the deadline nothing at all, whoever has taken the key since |
| `Redis.HeldUntilExpiry` | internal/infrastructure/redis/distributed_lock.go:48-128 | through any commands of others a lock stays with its holder, token and deadline unchanged, until it expires; without a lifetime, for ever |
| `Staleness.CachedCountTrue` | internal/application/seat_service.go:102-113 | every cached count, expired or not, was stored by a client that had read it from the database, in this run |
| `EventUpdates.VersionCountsUpdates` | internal/infrastructure/postgres/event_repository.go:124-157 | between any two states of a run an event's version grows by the number of its committed updates, and an event with none is unchanged |
| `Redis.DistributedLock.Release` | internal/infrastructure/redis/distributed_lock.go:91-108 | removes the entry exactly when it is live and carries this client's token, else reports not owned; afterwards the client owns nothing; a failed call changes nothing |
| `Redis.DistributedLock.Extend` | internal/infrastructure/redis/distributed_lock.go:111-128 | for every lifetime: an entry that is live and carries this client's token, and no other, gets the new deadline that far from now, and only then is the new lifetime remembered; a lifetime that is not positive gives the lock up |
| `Redis.LockManager.AcquireLock` | internal/infrastructure/redis/distributed_lock.go:48-67 | for every lifetime: takes the key exactly when it has no live entry and the lifetime is not negative, and the caller then owns it; an error leaves Redis as it was |
| `Redis.LockManager.AcquireLockWithRetry` | internal/infrastructure/redis/distributed_lock.go:70-88 | at most maxRetries attempts, each judged by the lock table as others left it at that moment: the first attempt that finds the key without a live entry takes it, a failing attempt or an ended wait stops with its error, and only when every attempt found the key taken is the answer not acquired; exactly one of a lock the caller owns or an error with no entry of its own left; with no attempts neither |
| `Redis.SeatCache.GetAvailableCount` | internal/infrastructure/redis/seat_cache.go:34-44 | the stored count while it lives, else a miss; a Redis failure is another error |
| `Redis.SeatCache.SetAvailableCount` | internal/infrastructure/redis/seat_cache.go:47-54 | stores the count for the given lifetime, without end if that is not positive; a failure changes nothing |
| `Redis.SeatCache.Invalidate` | internal/infrastructure/redis/seat_cache.go:57-64 | removes the event's count and no other; a failure changes nothing |
| `LockKey.BuildSeatLockKey` | internal/application/reservation_service.go:172-177 | sorts a copy in place and yields the key of the list |
| `LockKey.SortStrings` | internal/application/reservation_service.go:175-175 | the array ends up sorted in place |
| `LockKey.SortSorted` | internal/application/reservation_service.go:173-175 | the sorted list is in order and a permutation of the given one |
| `LockKey.SortedUnique` | internal/application/reservation_service.go:175-175 | a multiset of strings has one sorted arrangement, so any correct sort yields this key |
| `LockKey.JoinInjective` | internal/application/reservation_service.go:176-176 | joining lists of non-empty ids without commas loses nothing |
| `LockKey.SameSeatsSameKey` | internal/application/reservation_service.go:172-177 | lists equal up to order share the key, whatever the ids contain |
| `LockKey.CommaCollides` | internal/application/reservation_service.go:176-176 | with a comma inside an id two different lists share a key |
| `ReservationServices.ReservationService.CreateReservation` | internal/application/reservation_service.go:42-169 | with other clients committing between its reads and its transaction, any failure at any step, and its two looks at the clock apart: a used key returns its reservation, column by column, and changes nothing; three attempts that find the lock key taken are answered as being processed, with tables and counts as found; with a lock manager nothing is booked unless one of the three attempts found the key free and took it, and if giving it back fails its entry is still there; otherwise the request gets exactly the first failing check's error or the booking, over the tables found at each step; on an error the tables are as others left them, and no lock entry of its own is left unless giving it back fails |
| `ReservationServices.ReservationService.LockSeats` | internal/application/reservation_service.go:62-84 | three attempts at the key of the requested seats, for ten seconds: success leaves an entry with the token of an attempt that found the key free; three busy attempts are answered as being processed |
| `ReservationServices.ReservationService.BookUnderLock` | internal/application/reservation_service.go:62-169 | nothing is booked unless one of those attempts found the key free; if giving the lock back fails its entry is still there with the token of that attempt, and otherwise no entry of its own is left |
| `ReservationServices.ReservationService.CheckSeats` | internal/application/reservation_service.go:104-128 | the map and the loop find the first unknown or unavailable seat, or the total |
| `ReservationServices.ReservationService.CreateInTransaction` | internal/application/reservation_service.go:138-157 | insert and reserve together or neither |
| `ReservationServices.ReservationService.ConfirmReservation` | internal/application/reservation_service.go:190-220 | with others committing between its read and its transaction: all or nothing under any failure, and without failures the error by stored status, deadline and seats, or every row and returned column of a confirmation |
| `ReservationServices.ReservationService.CancelReservation` | internal/application/reservation_service.go:222-254 | likewise for cancelling: a stored confirmed or cancelled reservation is refused with its own error, tables and cache unchanged; a pending one is cancelled and exactly its seats become available without a holder; the cached count is dropped after a success |
| `ReservationServices.ReservationService.CancelInTransaction` | internal/application/reservation_service.go:230-243 | release and update together or neither |
| `ReservationServices.ReservationService.CancelExpired` | internal/application/reservation_service.go:280-309 | one sweep item is undone wherever it fails |
| `ReservationServices.ReservationService.CancelExpiredReservations` | internal/application/reservation_service.go:266-313 | the loop yields the tables and the count of the specified sweep, for some order of exactly the expired rows; a failed read does nothing |
| `Sequential.OpCoherent` | internal/application/reservation_service.go:165-251 | each operation that does not overlap another keeps every live cached count true |
| `Sequential.ConfirmKeepsCounts` | internal/application/reservation_service.go:213-219 | confirming changes no available seat, so it needs no invalidation |
| `Sequential.UninvalidatedCancel` | internal/application/reservation_service.go:303-309 | a sweep item, which does not invalidate, keeps the cache truthful if and only if the event has no live cached count |
| `Sweep.SweepReservations` | internal/application/reservation_service.go:266-313 | without any agreement between seats and reservations, the sweep cancels exactly the reservations whose item went through, and counts them |
| `Sweep.SweepSeats` | internal/application/reservation_service.go:291-295 | with agreement it releases exactly the seats those reservations hold |
| `Sweep.NothingExpiredLeft` | internal/infrastructure/postgres/reservation_repository.go:124-125 | a sweep without failures leaves no pending reservation older than the cutoff |
| `Sweep.SweepOrConfirm` | internal/domain/reservation/entity.go:30-51 | waiting at least 15 minutes a sweep never picks what Confirm would still accept; waiting exactly 15, the pending reservations split exactly between the two |
| `Sweep.ShortSweepPicksLive` | internal/infrastructure/postgres/reservation_repository.go:124-125 | with any shorter wait a reservation can be swept and confirmable at once |
| `Worker.ExpiredReservationCleaner.Start` | internal/worker/expired_reservation_cleaner.go:42-64 | one sweep per tick, in order and from the tables the other clients left, up to the first stop signal and none after it |
| `Worker.TickExact` | internal/worker/expired_reservation_cleaner.go:73-88 | where seats and reservations agree one tick cancels only expired reservations, as many as it reports, frees exactly their seats, changes nothing else and keeps agreement; a tick that cannot read does nothing |
| `Worker.TickCount` | internal/worker/expired_reservation_cleaner.go:73-88 | whatever the state of the seats, a tick reports exactly the reservations it moves and makes none pending again |
| `SeatServices.SeatService.CreateBulkSeats` | internal/application/seat_service.go:58-75 | without failures it goes through exactly when the event exists, the fields are valid and the numbers are free; then seat i is stored under its own id as prefix, dash and the numeral of i + 1, available, at the given price, without a holder, and is returned so; every earlier seat keeps its row, no other seat appears, and an error leaves exactly a whole number of batches of these rows |
| `SeatServices.SeatService.CreateBulk` | internal/infrastructure/postgres/seat_repository.go:49-68 | batches of at most 1000 in order; at a failure exactly the batches before it are stored and have their ids written back |
| `SeatServices.SeatService.CreateBulkBatch` | internal/infrastructure/postgres/seat_repository.go:71-109 | the statement inserts, through its placeholders and arguments, exactly the given seats, and the ids are written back in order |
| `SeatServices.BuildInsert` | internal/infrastructure/postgres/seat_repository.go:78-86 | the placeholder groups count $1 to $7n in order, at most 7000, and each group's arguments are that seat's columns |
| `SeatServices.PlaceholderBinding` | internal/infrastructure/postgres/seat_repository.go:81-86 | each placeholder occurs in one place only, bound to the column that place belongs to |
| `SeatServices.AllBind` | internal/infrastructure/postgres/seat_repository.go:77-90 | the statement as built, read through its placeholders, yields the rows of the seats it was built from |
| `SeatServices.BatchesAreOneInsert` | internal/infrastructure/postgres/seat_repository.go:54-67 | inserting in batches succeeds exactly when one statement with all the rows would, with the same tables |
| `SeatServices.SeatNumberInjective` | internal/application/seat_service.go:64-64 | a seat number determines its prefix and index, whatever dashes and digits the prefix contains |
| `SeatServices.DecimalReads` | internal/application/seat_service.go:64-64 | the numeral in a seat number reads back as its index and has no leading zero |
| `SeatServices.SeatService.CountAvailableSeats` | internal/application/seat_service.go:89-116 | the live cached count, else the number of the event's seats stored as available, which is then cached for 30 seconds; a failing cache is passed over and only a failing database read is an error |
| `EventServices.EventService.UpdateEvent` | internal/application/event_service.go:66-84 | an invalid name, number of seats or period is refused with its own error; between its read and its write others may change the table: the update goes in exactly when the version is still the one read, with the caller's columns, and else leaves what others stored |

## Left out

- HTTP handlers, request validation, error rendering, configuration, logging, metrics, dashboards and migrations tooling: no property of the protocol depends on them.
- PostgreSQL and Redis internals: a transaction is one atomic commit, a Redis command or Lua script one atomic step. A deadlock or serialization abort is a rollback.
- Network errors with an unknown outcome: a failed step took no effect, except that a failed cache invalidation or unlock leaves the entry until it expires.
- SQL text, drivers, and a malformed or differently spelled UUID: ids are strings compared as they are, generated ids are new.
- Two-statement reads of a reservation and its seat ids: modelled as one read, since a stored reservation's seats never change (`Safety.NothingBookedIsDeleted`).
- The widths of INTEGER columns and of the text columns of events, the precision of timestamps, time zones, and the columns reserved_at and updated_at. The widths of seat_number, user_id and idempotency_key are modelled.
- Lifetimes below one millisecond: lifetimes are whole milliseconds. A zero or negative lifetime is what go-redis v9 and Redis make of it: an entry without end, a refused SET NX, or with PEXPIRE a deleted entry.
- Which reservation rows or seat ids come back first: any order is allowed.
- A negative count in a bulk seat creation, which makes the original panic before anything is stored: counts are natural numbers here.
- The library's sorting algorithm: an insertion sort stands for it; `LockKey.SortedUnique` shows that any correct sort yields the same keys. Strings are compared by character, as Go compares bytes of ASCII ids.
- The single-seat creation, listings with pagination, reads by user, and copying between rows and entities: single-branch code.
- Stop of the worker and the channel it waits on: only the signals the loop receives are modelled, as a finite list that ends with one that stops it.
- Postgres.Store.GetSeatsByEvent: orders by character; the collation of a database may order seat numbers otherwise. The caller puts the rows in a map.
- ReservationServices.ReservationService.CreateReservation: other clients change the tables between its steps, but the lock table only while it waits for its lock; both change at any time in `Protocol`.
- A read of the database and the look at the clock beside it (the event check, the drafting of a reservation, the cutoff of a sweep) are one step.
- Redis.LockManager.AcquireLockWithRetry: what other clients do during a wait is any change of the lock table that does not write one of this caller's tokens.
- SweepRuns.HoldTimeBetweenSweeps: the schedule of two successive sweeps, as the ticker sets it, is a hypothesis.
- Worker.WorkerExact: a tick's items are one step here; item by item among other clients they are in `SweepRuns.SweepCount` and `SweepRuns.WorkerCount`.
- Sequential.CountsAreExact: only for operations that do not overlap, with successful invalidation; overlapping ones are bounded by `Staleness.ServedCountBounded`.
- SeatServices.SeatService.CreateBulk: the created_at and updated_at arguments are placeholders without a value.
