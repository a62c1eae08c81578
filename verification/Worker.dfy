/**
 The cleaner: a loop that sweeps once per tick until it is told to stop, while other clients go on booking,
 confirming and cancelling.
 */
module Worker {
  import opened Domain
  import opened Database
  import opened Ownership
  import opened Sweep
  import opened ReservationServices

  /** What the select statement receives next.  A tick carries its time, the tables as the other clients have left
      them by then, and what goes wrong in its sweep. */
  datatype Signal = ContextDone | StopRequested | Tick(now: int, before: Db, readFails: bool, faults: seq<TxFault>)

  ghost predicate AllTicks(ts: seq<Signal>) { forall i :: 0 <= i < |ts| ==> ts[i].Tick? }

  /** The sweep of tick `t` leaves the tables `after` and reports `count` cancelled reservations. */
  ghost predicate TickDone(t: Signal, expireAfter: int, after: Db, count: nat)
    requires t.Tick?
  {
    if t.readFails then after == t.before && count == 0
    else exists rows :: ExpiredRows(t.before, t.now - expireAfter, rows) && |rows| <= |t.faults|
                        && SweepRows(t.before, rows, t.faults) == Progress(after, count)
  }

  ghost predicate TicksDone(ts: seq<Signal>, expireAfter: int, afters: seq<Db>, counts: seq<nat>) {
    && AllTicks(ts) && |afters| == |counts| == |ts|
    && forall i :: 0 <= i < |ts| ==> TickDone(ts[i], expireAfter, afters[i], counts[i])
  }

  class ExpiredReservationCleaner {
    const service: ReservationService
    const expireAfter: int
    var done: bool

    constructor (service: ReservationService, expireAfter: int)
      ensures this.service == service && this.expireAfter == expireAfter && !done
    {
      this.service, this.expireAfter, done := service, expireAfter, false;
    }

    /** Every tick before the first stop signal is swept, in order and from the tables it finds; nothing after it. */
    method Start(signals: seq<Signal>) returns (counts: seq<nat>, ghost afters: seq<Db>)
      requires |signals| > 0 && !signals[|signals| - 1].Tick?
      requires forall i :: 0 <= i < |signals| && signals[i].Tick? ==>
                |signals[i].faults| >= |signals[i].before.reservations|
      modifies this`done, service.store
      ensures done && |counts| < |signals| && !signals[|counts|].Tick?
      ensures TicksDone(signals[..|counts|], expireAfter, afters, counts)
      ensures service.store.Tables() == if |counts| == 0 then old(service.store.Tables()) else afters[|counts| - 1]
    {
      hide TickDone;
      counts, afters := [], [];
      while signals[|counts|].Tick?
        invariant |counts| < |signals| && TicksDone(signals[..|counts|], expireAfter, afters, counts)
        invariant service.store.Tables() == if |counts| == 0 then old(service.store.Tables()) else afters[|counts| - 1]
        decreases |signals| - |counts|
      {
        var tick := signals[|counts|];
        service.store.Become(tick.before);
        var count := Cleanup(tick);
        TicksSnoc(signals, expireAfter, afters, counts, service.store.Tables(), count);
        counts, afters := counts + [count], afters + [service.store.Tables()];
      }
      done := true;
    }

    method Cleanup(tick: Signal) returns (count: nat)
      requires tick.Tick? && service.store.Tables() == tick.before && |tick.faults| >= |tick.before.reservations|
      modifies service.store
      ensures TickDone(tick, expireAfter, service.store.Tables(), count)
    {
      hide ExpiredRows, SweepRows;
      var err: Option<Error>;
      count, err := service.CancelExpiredReservations(expireAfter, tick.now, tick.readFails, tick.faults);
    }
  }

  lemma TicksSnoc(signals: seq<Signal>, expireAfter: int, afters: seq<Db>, counts: seq<nat>, after: Db, count: nat)
    requires |counts| < |signals| && signals[|counts|].Tick?
    requires TicksDone(signals[..|counts|], expireAfter, afters, counts)
    requires TickDone(signals[|counts|], expireAfter, after, count)
    ensures TicksDone(signals[..|counts| + 1], expireAfter, afters + [after], counts + [count])
  {
    hide TickDone;
    var n := |counts|;
    assert signals[..n + 1] == signals[..n] + [signals[n]];
  }

  // ---------------------------------------------------------------- what the ticks add up to

  /** What the other clients may do between two ticks: anything but make a settled reservation pending again or
      take it away, which no commit does. */
  ghost predicate SettledStay(after: Db, before: Db) {
    forall r :: SettledIn(after, r) ==> SettledIn(before, r)
  }

  /** A tick reports exactly the reservations it moves from pending to cancelled, whatever else is going on. */
  lemma TickCount(t: Signal, expireAfter: int, after: Db, count: nat)
    requires t.Tick? && TickDone(t, expireAfter, after, count)
    ensures count == |Moved(t.before, after)| && SettledStay(t.before, after)
  {
    hide SweepRows, Load;
    if t.readFails {
      assert Moved(t.before, after) == {};
    } else {
      var rows :| ExpiredRows(t.before, t.now - expireAfter, rows) && |rows| <= |t.faults|
        && SweepRows(t.before, rows, t.faults) == Progress(after, count);
      SweepReservations(t.before, t.now - expireAfter, rows, t.faults);
      DonePending(t.before, t.now - expireAfter, rows, t.faults);
      assert Done(rows, t.faults) == Moved(t.before, after);
    }
  }

  lemma DonePending(db: Db, cutoff: int, rows: seq<Booking>, faults: seq<TxFault>)
    requires |faults| >= |rows| && RowsLoaded(db, cutoff, rows)
    ensures forall r :: r in Done(rows, faults) ==> Expired(db, cutoff, r)
  {
  }

  function Total(counts: seq<nat>): nat {
    if |counts| == 0 then 0 else Total(counts[..|counts| - 1]) + counts[|counts| - 1]
  }

  /** The reservations the ticks moved from pending to cancelled. */
  ghost function MovedByAll(ts: seq<Signal>, afters: seq<Db>): set<Id>
    requires AllTicks(ts) && |afters| == |ts|
  {
    if |ts| == 0 then {}
    else MovedByAll(ts[..|ts| - 1], afters[..|ts| - 1]) + Moved(ts[|ts| - 1].before, afters[|ts| - 1])
  }

  /** Over all the ticks of a worker's life, with other clients doing anything in between, the reported counts add up
      to the number of reservations the worker moved from pending to cancelled: no reservation is counted twice. */
  lemma {:induction false} WorkerExact(ts: seq<Signal>, expireAfter: int, afters: seq<Db>, counts: seq<nat>)
    requires TicksDone(ts, expireAfter, afters, counts)
    requires forall i :: 0 <= i < |ts| - 1 ==> SettledStay(afters[i], ts[i + 1].before)
    ensures Total(counts) == |MovedByAll(ts, afters)|
    ensures |ts| > 0 ==> forall r :: r in MovedByAll(ts, afters) ==> SettledIn(afters[|ts| - 1], r)
    ensures forall i, j :: 0 <= i < j < |ts| ==> Moved(ts[i].before, afters[i]) !! Moved(ts[j].before, afters[j])
    decreases |ts|
  {
    hide TickDone;
    if |ts| > 0 {
      var n := |ts| - 1;
      var last := Moved(ts[n].before, afters[n]);
      WorkerExact(ts[..n], expireAfter, afters[..n], counts[..n]);
      TickCount(ts[n], expireAfter, afters[n], counts[n]);
      assert MovedByAll(ts[..n], afters[..n]) !! last by {
        if n > 0 { assert SettledStay(afters[n - 1], ts[n].before); }
      }
      forall i, j | 0 <= i < j < |ts| ensures Moved(ts[i].before, afters[i]) !! Moved(ts[j].before, afters[j]) {
        if j == n {
          PartOfAll(ts[..n], afters[..n], i);
        } else {
          assert Moved(ts[..n][i].before, afters[..n][i]) !! Moved(ts[..n][j].before, afters[..n][j]);
        }
      }
    }
  }

  lemma {:induction false} PartOfAll(ts: seq<Signal>, afters: seq<Db>, i: nat)
    requires AllTicks(ts) && |afters| == |ts| && i < |ts|
    ensures Moved(ts[i].before, afters[i]) <= MovedByAll(ts, afters)
    decreases |ts|
  {
    if i < |ts| - 1 { PartOfAll(ts[..|ts| - 1], afters[..|ts| - 1], i); }
  }

  // ---------------------------------------------------------------- the seats, tick by tick

  lemma ReleasedConsistent(db: Db, gone: set<Id>, next: Db)
    requires Consistent(db) && next.seats == ReleaseHeld(db.seats, gone)
              && next.reservations == CancelAll(db.reservations, gone)
    ensures Consistent(next)
  {
    forall r | r in next.reservations ensures HoldsItsSeats(next, r) { assert HoldsItsSeats(db, r); }
    forall s | s in next.seats ensures NamesItsHolder(next, s) { assert NamesItsHolder(db, s); }
  }

  /** What one tick does where seats and reservations agree: some expired reservations are cancelled, exactly their
      seats become available, all else is unchanged, and without failures nothing expired is left. */
  lemma {:induction false} TickExact(t: Signal, expireAfter: int, after: Db, count: nat)
    requires t.Tick? && Consistent(t.before) && TickDone(t, expireAfter, after, count)
    ensures var moved := Moved(t.before, after);
            && after == t.before.(seats := ReleaseHeld(t.before.seats, moved),
                                  reservations := CancelAll(t.before.reservations, moved))
            && count == |moved| && Consistent(after)
            && forall r :: r in moved ==> Expired(t.before, t.now - expireAfter, r)
    ensures !t.readFails && (forall i :: 0 <= i < |t.faults| ==> t.faults[i] == NoFault) ==>
              var cutoff := t.now - expireAfter;
              forall r :: !Expired(after, cutoff, r)
  {
    hide Consistent, ExpiredRows, SweepRows;
    if t.readFails {
      assert Moved(t.before, after) == {};
      assert ReleaseHeld(t.before.seats, {}) == t.before.seats;
      assert CancelAll(t.before.reservations, {}) == t.before.reservations;
    } else {
      var rows :| ExpiredRows(t.before, t.now - expireAfter, rows) && |rows| <= |t.faults|
        && SweepRows(t.before, rows, t.faults) == Progress(after, count);
      SweepExact(t.before, t.now - expireAfter, rows, t.faults);
      ReleasedConsistent(t.before, Moved(t.before, after), after);
    }
  }
}
