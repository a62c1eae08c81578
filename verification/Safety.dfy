/**
 Whole-run theorems.  Structure and idempotency hold in every run.  Agreement between seats and
 reservations, and exact versions, hold in a run exactly when every commit in it met its guard.
 */
module Safety {
  import opened Sums
  import opened Domain
  import opened SeatTable
  import opened Database
  import opened Invariants
  import opened Ownership
  import opened History
  import opened Protocol

  // ---------------------------------------------------------------- one step

  /** The database moves by the step's commit and by nothing else. */
  lemma StepDb(w: World, a: Action)
    requires Enabled(w, a)
    ensures CommitOf(w, a).None? ==> Step(w, a).sh.db == w.sh.db
    ensures CommitOf(w, a).Some? ==> Step(w, a).sh.db == Apply(w.sh.db, CommitOf(w, a).value)
  {
    hide Execute, Tally, RedisLockKey, Possible, Agrees, Load, LockLive, CountAvailable;
  }

  lemma CommitAgrees(w: World, a: Action)
    requires Sound(w) && Enabled(w, a) && CommitOf(w, a).Some?
    ensures Agrees(w.sh.db, CommitOf(w, a).value)
  {
    if a.Move? {
      assert ClientOk(w.sh.db, w.clients[a.c]);
    }
  }

  lemma PricesSnoc(seats: Table, init: seq<Id>, last: Id)
    requires last !in init && last in seats
    ensures Sum(Prices(seats, Elements(init + [last]))) == Sum(Prices(seats, Elements(init))) + seats[last].price
  {
    assert Elements(init + [last]) == Elements(init) + {last};
    assert Prices(seats, Elements(init + [last])) == Prices(seats, Elements(init))[last := seats[last].price];
    SumInsert(Prices(seats, Elements(init)), last, seats[last].price);
  }

  lemma {:induction false} TallySum(seats: Table, ids: seq<Id>)
    requires Tally(seats, ids).Ok?
    ensures forall s :: s in ids ==> s in seats && seats[s].status == Available
    ensures Distinct(ids) ==> Tally(seats, ids).value == Sum(Prices(seats, Elements(ids)))
  {
    if |ids| == 0 {
      assert Prices(seats, Elements(ids)) == map[];
    } else {
      var init, last := ids[..|ids| - 1], ids[|ids| - 1];
      TallySum(seats, init);
      assert ids == init + [last];
      if Distinct(ids) { PricesSnoc(seats, init, last); }
    }
  }

  lemma TallyAgrees(db: Db, b: Booking)
    requires Linked(db) && b.Validate().None? && b.status == Pending
              && b.expiresAt == b.createdAt + RESERVATION_EXPIRATION
    requires Tally(SeatsOf(db, b.eventId), b.seatIds) == Ok(b.total)
    ensures CreateAgrees(db, b) && Elements(b.seatIds) <= db.issued
  {
    TallySum(SeatsOf(db, b.eventId), b.seatIds);
    SamePrices(SeatsOf(db, b.eventId), db.seats, Elements(b.seatIds));
  }

  lemma CreateAgreesKept(db: Db, next: Db, b: Booking)
    requires CreateAgrees(db, b) && Elements(b.seatIds) <= db.issued && Evolves(db, next)
    ensures CreateAgrees(next, b) && Elements(b.seatIds) <= next.issued
  {
    assert forall s :: s in b.seatIds <==> s in Elements(b.seatIds);
    if Elements(b.seatIds) <= next.seats.Keys {
      SamePrices(db.seats, next.seats, Elements(b.seatIds));
    }
  }

  /** However stale a client's memory gets, it stays usable: ids and terms it read never change meaning. */
  lemma ClientOkKept(db: Db, next: Db, pc: Client)
    requires ClientOk(db, pc) && Evolves(db, next)
    ensures ClientOk(next, pc)
  {
    if pc.CreateTx? { CreateAgreesKept(db, next, pc.b); }
  }

  lemma CreateMoved(sh: Shared, pc: Client, ch: Choice)
    requires Linked(sh.db) && Creating(pc) && Possible(sh, pc, ch)
    ensures ClientOk(sh.db, CreateStep(sh, pc, ch).pc)
  {
    hide Execute, RedisLockKey, Tally, Linked, CreateAgrees;
    if pc.SeatCheck? && ch.Go? {
      var total := Tally(SeatsOf(sh.db, pc.req.eventId), pc.req.seatIds);
      if total.Ok? {
        var b := NewBooking(pc.req.eventId, pc.req.userId, pc.req.key, pc.req.seatIds, total.value, sh.now);
        if b.Validate().None? { TallyAgrees(sh.db, b); }
      }
    }
  }

  lemma SettleMoved(sh: Shared, pc: Client, ch: Choice)
    requires ClientOk(sh.db, pc) && !Creating(pc) && !Reading(pc) && Possible(sh, pc, ch)
    ensures ClientOk(sh.db, SettleStep(sh, pc, ch).pc)
  {
    hide Execute, CreateAgrees;
  }

  lemma MovedClientOk(sh: Shared, pc: Client, ch: Choice)
    requires Linked(sh.db) && ClientOk(sh.db, pc) && Possible(sh, pc, ch)
    ensures ClientOk(sh.db, ClientStep(sh, pc, ch).pc)
  {
    hide Execute, CreateAgrees, Possible, Linked, CreateStep, SettleStep;
    if Creating(pc) {
      CreateMoved(sh, pc, ch);
    } else if !Reading(pc) {
      SettleMoved(sh, pc, ch);
    }
  }

  lemma OthersStay(w: World, a: Action, c: nat)
    requires c in Step(w, a).clients && !(a.Move? && a.c == c) && !(a.Begin? && a.c == c)
    ensures c in w.clients && Step(w, a).clients[c] == w.clients[c]
  {
    hide ClientStep, Apply;
  }

  /** Every reachable state is sound, fresh or not. */
  lemma {:induction false} StepSound(w: World, a: Action)
    requires Sound(w) && Enabled(w, a)
    ensures Sound(Step(w, a)) && Evolves(w.sh.db, Step(w, a).sh.db)
  {
    hide Step, CommitOf, Wf, ClientOk, Evolves, Possible, Agrees;
    StepDb(w, a);
    if CommitOf(w, a).Some? {
      CommitAgrees(w, a);
      LinkedPart(w.sh.db);
      CommitWf(w.sh.db, CommitOf(w, a).value);
      CommitEvolves(w.sh.db, CommitOf(w, a).value);
    } else {
      EvolvesReflexive(w.sh.db);
    }
    forall c | c in Step(w, a).clients ensures ClientOk(Step(w, a).sh.db, Step(w, a).clients[c]) {
      StepClientOk(w, a, c);
    }
  }

  lemma LinkedPart(db: Db)
    requires Wf(db)
    ensures Linked(db)
  {
  }

  lemma EvolvesReflexive(db: Db)
    ensures Evolves(db, db)
  {
  }

  lemma StepClientOk(w: World, a: Action, c: nat)
    requires Sound(w) && Enabled(w, a) && c in Step(w, a).clients && Evolves(w.sh.db, Step(w, a).sh.db)
    ensures ClientOk(Step(w, a).sh.db, Step(w, a).clients[c])
  {
    hide ClientStep, Apply, Possible, Wf, Evolves, ClientOk;
    if a.Move? && a.c == c {
      LinkedPart(w.sh.db);
      MovedClientOk(w.sh, w.clients[c], a.ch);
      ClientOkKept(w.sh.db, Step(w, a).sh.db, Step(w, a).clients[c]);
    } else if a.Begin? && a.c == c {
      StartingOk(Step(w, a).sh.db, a.start);
    } else {
      OthersStay(w, a, c);
      ClientOkKept(w.sh.db, Step(w, a).sh.db, w.clients[c]);
    }
  }

  lemma StartingOk(db: Db, pc: Client)
    requires Starting(pc)
    ensures ClientOk(db, pc)
  {
  }

  lemma InitialSound(w: World)
    requires Initial(w)
    ensures Sound(w) && Consistent(w.sh.db) && Versions(w.sh.db)
  {
  }

  lemma {:induction false} RunSound(tr: seq<World>, acts: seq<Action>, i: nat)
    requires Run(tr, acts) && i < |tr|
    ensures Sound(tr[i])
  {
    hide Step, Enabled, Sound, Initial, Evolves;
    if i == 0 {
      InitialSound(tr[0]);
    } else {
      RunSound(tr, acts, i - 1);
      StepSound(tr[i - 1], acts[i - 1]);
    }
  }

  // ---------------------------------------------------------------- guards over runs

  predicate StepGuarded(w: World, a: Action) {
    CommitOf(w, a).Some? ==> OwnerGuard(w.sh.db, CommitOf(w, a).value)
  }

  /** Named hypothesis: when a Confirm, Cancel or sweep transaction commits, the stored reservation is still
      pending.  Nothing is asked of a transaction that is rolled back. */
  predicate FreshCommit(w: World, a: Action) {
    CommitOf(w, a).Some? && Execute(w.sh.db, CommitOf(w, a).value).Ok? ==> Fresh(w.sh.db, CommitOf(w, a).value)
  }

  ghost predicate FreshRun(tr: seq<World>, acts: seq<Action>) {
    Run(tr, acts) && forall i :: 0 <= i < |acts| ==> FreshCommit(tr[i], acts[i])
  }

  lemma StepExact(w: World, a: Action)
    requires Sound(w) && Enabled(w, a)
    ensures Consistent(w.sh.db) ==> (Consistent(Step(w, a).sh.db) <==> StepGuarded(w, a))
    ensures Versions(w.sh.db) ==> (Versions(Step(w, a).sh.db) <==> FreshCommit(w, a))
  {
    StepDb(w, a);
    if CommitOf(w, a).Some? {
      CommitAgrees(w, a);
      if Consistent(w.sh.db) { OwnerGuardExact(w.sh.db, CommitOf(w, a).value); }
      if Versions(w.sh.db) { VersionsExact(w.sh.db, CommitOf(w, a).value); }
    }
  }

  lemma {:induction false} GuardedPrefix(tr: seq<World>, acts: seq<Action>, n: nat)
    requires Run(tr, acts) && n < |tr|
    requires forall i :: 0 <= i < n ==> StepGuarded(tr[i], acts[i])
    ensures Consistent(tr[n].sh.db)
  {
    hide Step, Enabled, Sound, StepGuarded, FreshCommit, Versions;
    if n > 0 {
      GuardedPrefix(tr, acts, n - 1);
      RunSound(tr, acts, n - 1);
      StepExact(tr[n - 1], acts[n - 1]);
    }
  }

  /** Seats and reservations agree in every state of a run exactly when every commit of it passed the owner check. */
  lemma AgreementExact(tr: seq<World>, acts: seq<Action>)
    requires Run(tr, acts)
    ensures (forall i :: 0 <= i < |tr| ==> Consistent(tr[i].sh.db)) <==>
            (forall i :: 0 <= i < |acts| ==> StepGuarded(tr[i], acts[i]))
  {
    hide Step, Enabled, Sound, StepGuarded, Consistent, Versions, FreshCommit, Initial;
    if forall i :: 0 <= i < |acts| ==> StepGuarded(tr[i], acts[i]) {
      forall n | 0 <= n < |tr| ensures Consistent(tr[n].sh.db) { GuardedPrefix(tr, acts, n); }
    }
    if forall i :: 0 <= i < |tr| ==> Consistent(tr[i].sh.db) {
      forall i | 0 <= i < |acts| ensures StepGuarded(tr[i], acts[i]) {
        RunSound(tr, acts, i);
        assert Consistent(tr[i].sh.db) && Consistent(tr[i + 1].sh.db);
        StepExact(tr[i], acts[i]);
      }
    }
  }

  lemma {:induction false} VersionsPrefix(tr: seq<World>, acts: seq<Action>, n: nat)
    requires Run(tr, acts) && n < |tr|
    requires forall i :: 0 <= i < n ==> FreshCommit(tr[i], acts[i])
    ensures Versions(tr[n].sh.db)
  {
    hide Step, Enabled, Sound, StepGuarded, FreshCommit, Consistent;
    if n > 0 {
      VersionsPrefix(tr, acts, n - 1);
      RunSound(tr, acts, n - 1);
      StepExact(tr[n - 1], acts[n - 1]);
    }
  }

  /** Versions count history exactly in every state of a run exactly when the run is fresh. */
  lemma VersionHistoryExact(tr: seq<World>, acts: seq<Action>)
    requires Run(tr, acts)
    ensures (forall i :: 0 <= i < |tr| ==> Versions(tr[i].sh.db)) <==> FreshRun(tr, acts)
  {
    hide Step, Enabled, Sound, StepGuarded, Consistent, Versions, FreshCommit, Initial;
    if FreshRun(tr, acts) {
      forall n | 0 <= n < |tr| ensures Versions(tr[n].sh.db) { VersionsPrefix(tr, acts, n); }
    }
    if forall i :: 0 <= i < |tr| ==> Versions(tr[i].sh.db) {
      forall i | 0 <= i < |acts| ensures FreshCommit(tr[i], acts[i]) {
        RunSound(tr, acts, i);
        assert Versions(tr[i].sh.db) && Versions(tr[i + 1].sh.db);
        StepExact(tr[i], acts[i]);
      }
    }
  }

  // ---------------------------------------------------------------- fresh runs

  lemma {:induction false} FreshPrefix(tr: seq<World>, acts: seq<Action>, n: nat)
    requires FreshRun(tr, acts) && n < |tr|
    ensures Sound(tr[n]) && Consistent(tr[n].sh.db) && Versions(tr[n].sh.db)
  {
    hide Step, Enabled, Sound, FreshCommit, StepGuarded, Initial;
    RunSound(tr, acts, n);
    if n > 0 {
      FreshPrefix(tr, acts, n - 1);
      var w, a := tr[n - 1], acts[n - 1];
      assert FreshCommit(w, a);
      FreshStepGuarded(w, a);
      StepExact(w, a);
    } else {
      InitialSound(tr[0]);
    }
  }

  lemma FreshStepGuarded(w: World, a: Action)
    requires Sound(w) && Consistent(w.sh.db) && Enabled(w, a) && FreshCommit(w, a)
    ensures StepGuarded(w, a)
  {
    hide Step, Enabled, Wf, ClientOk, OwnerGuard, Execute, Fresh, CommitOf, Agrees;
    if CommitOf(w, a).Some? {
      CommitAgrees(w, a);
      LinkedPart(w.sh.db);
      if Execute(w.sh.db, CommitOf(w, a).value).Ok? {
        FreshIsGuarded(w.sh.db, CommitOf(w, a).value);
      } else {
        RolledBackIsGuarded(w.sh.db, CommitOf(w, a).value);
      }
    }
  }

  /** Of the settling transactions only Confirm can be rolled back, by its row count. */
  lemma RolledBackIsGuarded(db: Db, k: Commit)
    requires Agrees(db, k) && Execute(db, k).Err?
    ensures OwnerGuard(db, k)
  {
  }

  /** Fresh runs are guarded: every commit passes the owner check that nobody makes. */
  lemma FreshRunGuarded(tr: seq<World>, acts: seq<Action>, i: nat)
    requires FreshRun(tr, acts) && i < |acts|
    ensures StepGuarded(tr[i], acts[i])
  {
    hide Step, Enabled, Sound, FreshCommit, StepGuarded, Initial, Consistent, Versions;
    FreshPrefix(tr, acts, i);
    assert FreshCommit(tr[i], acts[i]);
    FreshStepGuarded(tr[i], acts[i]);
  }

  /** One seat is sold to one person, in every state of every interleaving whose settling commits are fresh. */
  lemma NoDoubleBookingEver(tr: seq<World>, acts: seq<Action>, n: nat)
    requires FreshRun(tr, acts) && n < |tr|
    ensures NoDoubleBooking(tr[n].sh.db) && Consistent(tr[n].sh.db)
    ensures forall s :: s in tr[n].sh.db.seats ==>
              && NamesItsHolder(tr[n].sh.db, s)
              && (tr[n].sh.db.seats[s].version % 2 == 1 <==> tr[n].sh.db.seats[s].status == Reserved)
  {
    FreshPrefix(tr, acts, n);
    ConsistentMeansNoDoubleBooking(tr[n].sh.db);
    forall s | s in tr[n].sh.db.seats
      ensures NamesItsHolder(tr[n].sh.db, s)
      ensures (tr[n].sh.db.seats[s].version % 2 == 1 <==> tr[n].sh.db.seats[s].status == Reserved)
    {
      OddMeansReserved(tr[n].sh.db, s);
    }
  }

  /** Money and seats balance in every state of a run whose commits pass the owner check, so of every fresh run. */
  lemma BalancedEver(tr: seq<World>, acts: seq<Action>, n: nat, e: Id)
    requires Run(tr, acts) && n < |tr| && forall i :: 0 <= i < |acts| ==> StepGuarded(tr[i], acts[i])
    ensures Sum(Totals(tr[n].sh.db, ActiveOf(tr[n].sh.db, e))) ==
            Sum(Prices(tr[n].sh.db.seats, SeatsWith(tr[n].sh.db, e, Reserved)))
            + Sum(Prices(tr[n].sh.db.seats, SeatsWith(tr[n].sh.db, e, SeatStatus.Confirmed)))
  {
    hide Step, Enabled, Initial, StepGuarded;
    RunSound(tr, acts, n);
    GuardedPrefix(tr, acts, n);
    MoneyConserved(tr[n].sh.db, e);
  }

  // ---------------------------------------------------------------- every seat is accounted for

  ghost function EventSeats(seats: Table, e: Id): set<Id> {
    set s | s in seats && seats[s].eventId == e
  }

  /** How many seats of event `e` a step creates. */
  ghost function SeatsAdded(w: World, a: Action, e: Id): nat {
    var k := CommitOf(w, a);
    if k.Some? && k.value.AddSeats? && Execute(w.sh.db, k.value).Ok? then |EventSeats(k.value.rows, e)| else 0
  }

  ghost function SeatsCreated(tr: seq<World>, acts: seq<Action>, e: Id, n: nat): nat
    requires |tr| == |acts| + 1 && n < |tr|
  {
    if n == 0 then 0 else SeatsCreated(tr, acts, e, n - 1) + SeatsAdded(tr[n - 1], acts[n - 1], e)
  }

  lemma CommitSeats(db: Db, k: Commit, e: Id)
    requires Linked(db) && Agrees(db, k) && e in db.events && e in Apply(db, k).events
    ensures EventSeats(Apply(db, k).seats, e) ==
            EventSeats(db.seats, e) + if k.AddSeats? && Execute(db, k).Ok? then EventSeats(k.rows, e) else {}
    ensures k.AddSeats? ==> EventSeats(db.seats, e) !! EventSeats(k.rows, e)
  {
    hide Sum, KeyTaken, NumbersUnique;
    if k.Confirm? || k.Cancel? { StatusTables(db, k); }
  }

  lemma StepSeats(w: World, a: Action, e: Id)
    requires Sound(w) && Enabled(w, a)
    requires e in w.sh.db.events && e in Step(w, a).sh.db.events
    ensures |EventSeats(Step(w, a).sh.db.seats, e)| == |EventSeats(w.sh.db.seats, e)| + SeatsAdded(w, a, e)
  {
    hide Step, Enabled, Agrees, Execute, Wf;
    StepDb(w, a);
    LinkedPart(w.sh.db);
    if CommitOf(w, a).Some? {
      CommitAgrees(w, a);
      CommitSeats(w.sh.db, CommitOf(w, a).value, e);
    }
  }

  /** Before its id is issued an event has no seats. */
  lemma {:induction false} NoSeatsYet(tr: seq<World>, acts: seq<Action>, e: Id, n: nat)
    requires Run(tr, acts) && n < |tr| && e !in tr[n].sh.db.issued
    ensures SeatsCreated(tr, acts, e, n) == 0
  {
    hide Step, Enabled, Sound;
    if n > 0 {
      RunSound(tr, acts, n - 1);
      StepSound(tr[n - 1], acts[n - 1]);
      NoSeatsYet(tr, acts, e, n - 1);
      NoSeatsAdded(tr[n - 1], acts[n - 1], e);
    }
  }

  lemma NoSeatsAdded(w: World, a: Action, e: Id)
    requires Sound(w) && e !in w.sh.db.issued
    ensures SeatsAdded(w, a, e) == 0
  {
    hide CommitOf, ClientOk;
    var k := CommitOf(w, a);
    if k.Some? && k.value.AddSeats? && Execute(w.sh.db, k.value).Ok? {
      assert EventSeats(k.value.rows, e) == {};
    }
  }

  /** In every state of every run, an event's available, reserved and confirmed seats are together exactly the
      seats ever created for it. */
  lemma EverySeatAccounted(tr: seq<World>, acts: seq<Action>, e: Id, n: nat)
    requires Run(tr, acts) && n < |tr| && e in tr[n].sh.db.events
    ensures |SeatsWith(tr[n].sh.db, e, Available)| + |SeatsWith(tr[n].sh.db, e, Reserved)|
            + |SeatsWith(tr[n].sh.db, e, SeatStatus.Confirmed)| == SeatsCreated(tr, acts, e, n)
    ensures CountAvailable(tr[n].sh.db, e) ==
              SeatsCreated(tr, acts, e, n) - |SeatsWith(tr[n].sh.db, e, Reserved)|
              - |SeatsWith(tr[n].sh.db, e, SeatStatus.Confirmed)|
  {
    hide Run, Step, Enabled, Wf, ClientOk, SeatsAdded, CountAvailable;
    CountIsSeats(tr[n].sh.db, e);
    SeatsConserved(tr[n].sh.db, e);
    SeatsOfRun(tr, acts, e, n);
  }

  lemma {:induction false} SeatsOfRun(tr: seq<World>, acts: seq<Action>, e: Id, n: nat)
    requires Run(tr, acts) && n < |tr| && e in tr[n].sh.db.events
    ensures |EventSeats(tr[n].sh.db.seats, e)| == SeatsCreated(tr, acts, e, n)
  {
    hide Step, Enabled, Sound, SeatsAdded;
    RunSound(tr, acts, n);
    if n > 0 {
      RunSound(tr, acts, n - 1);
      StepSound(tr[n - 1], acts[n - 1]);
      if e in tr[n - 1].sh.db.events {
        SeatsOfRun(tr, acts, e, n - 1);
        StepSeats(tr[n - 1], acts[n - 1], e);
      } else {
        NoSeatsYet(tr, acts, e, n - 1);
        NoSeatsAdded(tr[n - 1], acts[n - 1], e);
        NoSeatsOfNewEvent(tr[n - 1], acts[n - 1], e);
      }
    }
  }

  lemma NoSeatsOfNewEvent(w: World, a: Action, e: Id)
    requires Sound(w) && Enabled(w, a) && e !in w.sh.db.events && e in Step(w, a).sh.db.events
    ensures EventSeats(Step(w, a).sh.db.seats, e) == {}
  {
    hide Step, Enabled, Agrees;
    StepDb(w, a);
    if CommitOf(w, a).Some? {
      CommitAgrees(w, a);
      NewEventCommit(w.sh.db, CommitOf(w, a).value, e);
    }
  }

  lemma NewEventCommit(db: Db, k: Commit, e: Id)
    requires Linked(db) && e !in db.events && e in Apply(db, k).events
    ensures k.AddEvent? && EventSeats(Apply(db, k).seats, e) == {}
  {
  }

  /** A settled reservation, and a sold seat, are left alone by every fresh step. */
  lemma StepFinal(w: World, a: Action)
    requires Sound(w) && Consistent(w.sh.db) && Enabled(w, a) && FreshCommit(w, a)
    ensures forall r :: r in w.sh.db.reservations && w.sh.db.reservations[r].status != Pending ==>
              r in Step(w, a).sh.db.reservations && Step(w, a).sh.db.reservations[r] == w.sh.db.reservations[r]
    ensures forall s :: s in w.sh.db.seats && w.sh.db.seats[s].status == SeatStatus.Confirmed ==>
              s in Step(w, a).sh.db.seats && Step(w, a).sh.db.seats[s] == w.sh.db.seats[s]
  {
    hide Step, Enabled, Wf, ClientOk, Execute, Fresh, CommitOf, Agrees;
    StepDb(w, a);
    if CommitOf(w, a).Some? && Execute(w.sh.db, CommitOf(w, a).value).Ok? {
      CommitAgrees(w, a);
      LinkedPart(w.sh.db);
      CommitFinal(w.sh.db, CommitOf(w, a).value);
    }
  }

  lemma CommitFinal(db: Db, k: Commit)
    requires Linked(db) && Consistent(db) && Agrees(db, k) && Fresh(db, k)
    ensures forall r :: r in db.reservations && db.reservations[r].status != Pending ==>
              r in Apply(db, k).reservations && Apply(db, k).reservations[r] == db.reservations[r]
    ensures forall s :: s in db.seats && db.seats[s].status == SeatStatus.Confirmed ==>
              s in Apply(db, k).seats && Apply(db, k).seats[s] == db.seats[s]
  {
    hide Execute, CreateAgrees, Lists;
    if k.Create? {
      if Execute(db, k).Ok? { CreatedTables(db, k.rid, k.b); }
    } else if k.Confirm? || k.Cancel? {
      FreshTouchesOwnOnly(db, k);
      assert HoldsItsSeats(db, k.b.id);
      forall s | s in db.seats && db.seats[s].status == SeatStatus.Confirmed
        ensures db.seats[s].reservedBy != Some(k.b.id)
      {
        assert NamesItsHolder(db, s);
      }
    } else {
      CatalogueTables(db, k);
      forall s | s in db.seats && db.seats[s].status == SeatStatus.Confirmed ensures s in Apply(db, k).seats {
        assert NamesItsHolder(db, s);
      }
    }
  }

  /** Cancelled and confirmed are final, and a sold seat keeps its holder for ever, through event deletions too. */
  lemma {:induction false} FinalForever(tr: seq<World>, acts: seq<Action>, i: nat, j: nat)
    requires FreshRun(tr, acts) && i <= j < |tr|
    ensures forall r :: r in tr[i].sh.db.reservations && tr[i].sh.db.reservations[r].status != Pending ==>
              r in tr[j].sh.db.reservations && tr[j].sh.db.reservations[r] == tr[i].sh.db.reservations[r]
    ensures forall s :: s in tr[i].sh.db.seats && tr[i].sh.db.seats[s].status == SeatStatus.Confirmed ==>
              s in tr[j].sh.db.seats && tr[j].sh.db.seats[s] == tr[i].sh.db.seats[s]
  {
    hide Step, Enabled, Sound, Consistent, Versions, Initial, FreshCommit;
    if i < j {
      FinalForever(tr, acts, i, j - 1);
      FreshPrefix(tr, acts, j - 1);
      assert FreshCommit(tr[j - 1], acts[j - 1]);
      StepFinal(tr[j - 1], acts[j - 1]);
    }
  }

  lemma {:induction false} TermsKept(tr: seq<World>, acts: seq<Action>, i: nat, j: nat)
    requires Run(tr, acts) && i <= j < |tr|
    ensures forall r :: r in tr[i].sh.db.reservations ==>
              r in tr[j].sh.db.reservations && SameTerms(tr[i].sh.db.reservations[r], tr[j].sh.db.reservations[r])
  {
    hide Step, Enabled, Initial, Sound;
    if i < j {
      TermsKept(tr, acts, i, j - 1);
      RunSound(tr, acts, j - 1);
      StepSound(tr[j - 1], acts[j - 1]);
    }
  }

  /** No run, fresh or stale, ever deletes a reservation, changes its terms, or deletes a seat it lists. */
  lemma NothingBookedIsDeleted(tr: seq<World>, acts: seq<Action>, i: nat, j: nat)
    requires Run(tr, acts) && i <= j < |tr|
    ensures forall r :: r in tr[i].sh.db.reservations ==>
              && r in tr[j].sh.db.reservations && SameTerms(tr[i].sh.db.reservations[r], tr[j].sh.db.reservations[r])
              && tr[i].sh.db.reservations[r].seats <= tr[j].sh.db.seats.Keys
  {
    hide Run, ClientOk;
    TermsKept(tr, acts, i, j);
    RunSound(tr, acts, j);
    ReservedSeatsStored(tr[j].sh.db);
  }

  lemma StepSettled(w: World, a: Action)
    requires Sound(w) && Enabled(w, a)
    ensures forall r :: SettledIn(w.sh.db, r) ==> SettledIn(Step(w, a).sh.db, r)
  {
    hide Step, Enabled, Wf, ClientOk, CommitOf;
    StepDb(w, a);
    if CommitOf(w, a).Some? {
      CommitAgrees(w, a);
      LinkedPart(w.sh.db);
      CommitSettled(w.sh.db, CommitOf(w, a).value);
    }
  }

  lemma CommitSettled(db: Db, k: Commit)
    requires Linked(db) && Agrees(db, k)
    ensures forall r :: SettledIn(db, r) ==> SettledIn(Apply(db, k), r)
  {
    hide CreateAgrees, NumbersUnique, KeyTaken;
    if Catalogue(k) { CatalogueTables(db, k); }
  }

  /** In every run, fresh or stale, a reservation that is no longer pending never becomes pending again. */
  lemma {:induction false} NeverPendingAgain(tr: seq<World>, acts: seq<Action>, i: nat, j: nat)
    requires Run(tr, acts) && i <= j < |tr|
    ensures forall r :: SettledIn(tr[i].sh.db, r) ==> SettledIn(tr[j].sh.db, r)
  {
    hide Step, Enabled, Initial, Sound, SettledIn;
    if i < j {
      NeverPendingAgain(tr, acts, i, j - 1);
      RunSound(tr, acts, j - 1);
      StepSettled(tr[j - 1], acts[j - 1]);
    }
  }

  // ---------------------------------------------------------------- idempotency

  /** The reservations stored under a key. */
  ghost function WithKey(db: Db, key: string): set<Id> {
    set r | r in db.reservations && db.reservations[r].key == key
  }

  /** Whatever the interleaving, a key names at most one reservation and keeps naming it. */
  lemma OneReservationPerKey(tr: seq<World>, acts: seq<Action>, i: nat, j: nat, key: string)
    requires Run(tr, acts) && i <= j < |tr|
    ensures |WithKey(tr[i].sh.db, key)| <= 1
    ensures WithKey(tr[i].sh.db, key) != {} ==> WithKey(tr[j].sh.db, key) == WithKey(tr[i].sh.db, key)
  {
    RunSound(tr, acts, i);
    RunSound(tr, acts, j);
    NothingBookedIsDeleted(tr, acts, i, j);
    if WithKey(tr[i].sh.db, key) != {} {
      var r :| r in WithKey(tr[i].sh.db, key);
      assert WithKey(tr[i].sh.db, key) == {r};
      assert WithKey(tr[j].sh.db, key) == {r};
    }
  }

  /** Once a reservation with the key is committed, every later key check that gets an answer returns it with the
      columns stored at that moment and changes nothing else, also after the reservation was cancelled. */
  lemma ReplayReturnsTheSame(tr: seq<World>, acts: seq<Action>, i: nat, j: nat, r: Id)
    requires Run(tr, acts) && i <= j < |acts|
    requires r in tr[i].sh.db.reservations
    requires acts[j].Move? && !acts[j].ch.Fault? && acts[j].c in tr[j].clients
    requires tr[j].clients[acts[j].c].KeyCheck? && tr[j].clients[acts[j].c].req.key == tr[i].sh.db.reservations[r].key
    ensures r in tr[j].sh.db.reservations
    ensures var out, first, row := tr[j + 1].clients[acts[j].c], tr[i].sh.db.reservations[r],
              tr[j].sh.db.reservations[r];
            && out.Returned? && out.out.Booked? && Lists(out.out.b.seatIds, first.seats)
            && out.out.b == Booking(r, first.eventId, first.userId, out.out.b.seatIds, row.status, first.key,
                first.total,
                                    first.createdAt, first.expiresAt, row.confirmedAt)
            && tr[j + 1].sh == tr[j].sh
  {
    NothingBookedIsDeleted(tr, acts, i, j);
    RunSound(tr, acts, j);
    assert Enabled(tr[j], acts[j]) && tr[j + 1] == Step(tr[j], acts[j]);
    assert tr[j].sh.db.reservations[r].key == tr[i].sh.db.reservations[r].key;
  }
}
