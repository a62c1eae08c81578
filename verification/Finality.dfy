/**
 Exactly when settled stays settled, and exactly when one seat is sold once.  Both come down to a condition that the
 SQL leaves out: the update of a reservation does not look at its status, and the updates of its seats not at their
 holder.
 */
module Finality {
  import opened Domain
  import opened Database
  import opened Invariants
  import opened Ownership
  import opened Protocol
  import Safety
  import Sums

  // ---------------------------------------------------------------- finality

  /** What `WHERE status = 'pending'` would ask of a commit, give or take settling the same way twice. */
  predicate StatusGuard(db: Db, k: Commit) {
    (k.Confirm? || k.Cancel?) && Execute(db, k).Ok? && SettledIn(db, k.b.id) ==>
      db.reservations[k.b.id].status == k.b.status
  }

  predicate KeptIn(db: Db, next: Db, r: Id) {
    SettledIn(db, r) ==> r in next.reservations && next.reservations[r].status == db.reservations[r].status
  }

  ghost predicate StatusesKept(db: Db, next: Db) {
    forall r :: KeptIn(db, next, r)
  }

  /** One commit leaves every settled reservation's status alone exactly when it meets the guard. */
  lemma StatusGuardExact(db: Db, k: Commit)
    requires Linked(db) && Agrees(db, k)
    ensures StatusesKept(db, Apply(db, k)) <==> StatusGuard(db, k)
  {
    hide NumbersUnique, KeyTaken;
    var next := Apply(db, k);
    if Execute(db, k).Ok? {
      if Catalogue(k) {
        CatalogueTables(db, k);
      } else if k.Create? {
        CreatedTables(db, k.rid, k.b);
      } else {
        if k.Confirm? { ConfirmedTables(db, k.b); } else { CancelledTables(db, k.b); }
        assert next.reservations == Restated(db, k.b);
        assert KeptIn(db, next, k.b.id) <==> StatusGuard(db, k);
      }
    }
  }

  predicate StepStatusGuard(w: World, a: Action) {
    CommitOf(w, a).Some? ==> StatusGuard(w.sh.db, CommitOf(w, a).value)
  }

  lemma StepStatuses(w: World, a: Action)
    requires Sound(w) && Enabled(w, a)
    ensures StatusesKept(w.sh.db, Step(w, a).sh.db) <==> StepStatusGuard(w, a)
  {
    hide Step, Enabled, Agrees, Wf, ClientOk, CommitOf, StatusGuard;
    Safety.StepDb(w, a);
    if CommitOf(w, a).Some? {
      Safety.CommitAgrees(w, a);
      Safety.LinkedPart(w.sh.db);
      StatusGuardExact(w.sh.db, CommitOf(w, a).value);
    }
  }

  lemma {:induction false} KeptAlong(tr: seq<World>, acts: seq<Action>, i: nat, j: nat)
    requires Run(tr, acts) && i <= j < |tr| && forall k :: 0 <= k < |acts| ==> StepStatusGuard(tr[k], acts[k])
    ensures StatusesKept(tr[i].sh.db, tr[j].sh.db)
  {
    hide Step, Enabled, Initial, Sound, StepStatusGuard;
    if i < j {
      KeptAlong(tr, acts, i, j - 1);
      Safety.RunSound(tr, acts, j - 1);
      StepStatuses(tr[j - 1], acts[j - 1]);
      forall r ensures KeptIn(tr[i].sh.db, tr[j].sh.db, r) {
        assert KeptIn(tr[i].sh.db, tr[j - 1].sh.db, r) && KeptIn(tr[j - 1].sh.db, tr[j].sh.db, r);
      }
    }
  }

  /** In every run: confirmed stays confirmed and cancelled stays cancelled, between any two states, exactly when every
      commit of the run meets the status guard. */
  lemma FinalityExact(tr: seq<World>, acts: seq<Action>)
    requires Run(tr, acts)
    ensures (forall i, j :: 0 <= i <= j < |tr| ==> StatusesKept(tr[i].sh.db, tr[j].sh.db)) <==>
            (forall k :: 0 <= k < |acts| ==> StepStatusGuard(tr[k], acts[k]))
  {
    hide Step, Enabled, Initial, Sound, StepStatusGuard, StatusesKept;
    if forall k :: 0 <= k < |acts| ==> StepStatusGuard(tr[k], acts[k]) {
      forall i, j | 0 <= i <= j < |tr| ensures StatusesKept(tr[i].sh.db, tr[j].sh.db) { KeptAlong(tr, acts, i, j); }
    }
    if forall i, j :: 0 <= i <= j < |tr| ==> StatusesKept(tr[i].sh.db, tr[j].sh.db) {
      forall k | 0 <= k < |acts| ensures StepStatusGuard(tr[k], acts[k]) {
        Safety.RunSound(tr, acts, k);
        assert StatusesKept(tr[k].sh.db, tr[k + 1].sh.db);
        StepStatuses(tr[k], acts[k]);
      }
    }
  }

  /** The owner check would not help: a stale Cancel, or sweep item, of a confirmed reservation passes it, keeps seats
      and reservations in agreement, and yet takes back what was confirmed and frees every seat of it. */
  lemma StaleCancelTakesBack(db: Db, b: Booking)
    requires Linked(db) && Consistent(db) && SnapshotAgrees(db, b) && b.status == Cancelled
    requires db.reservations[b.id].status == ReservationStatus.Confirmed
    ensures OwnerGuard(db, Cancel(b)) && !StatusGuard(db, Cancel(b)) && Execute(db, Cancel(b)).Ok?
    ensures var next := Apply(db, Cancel(b));
            && Consistent(next) && next.reservations[b.id].status == Cancelled
            && forall s :: s in b.seatIds ==> s in next.seats && next.seats[s].status == Available
  {
    ListedSeatsStored(db, b);
    ListedSeats(db, b);
    assert HoldsItsSeats(db, b.id);
    CancelledTables(db, b);
    CancelConsistent(db, b);
  }

  // ---------------------------------------------------------------- one seat, one reservation

  /** Another active reservation lists seat `s`. */
  ghost predicate ListedElsewhere(db: Db, id: Id, s: Id) {
    exists r :: r in db.reservations && r != id && Active(db.reservations[r].status) && s in db.reservations[r].seats
  }

  /** No seat that the commit books or confirms is listed by another active reservation. */
  ghost predicate SoleGuard(db: Db, k: Commit) {
    (k.Create? || k.Confirm?) && Execute(db, k).Ok? ==>
      forall s :: s in k.b.seatIds ==> !ListedElsewhere(db, if k.Create? then k.rid else k.b.id, s)
  }

  /** One reservation becomes active; the others stay as they are. */
  lemma ActiveAdded(db: Db, next: Db, id: Id, ids: seq<Id>)
    requires NoDoubleBooking(db) && id in next.reservations && Active(next.reservations[id].status)
    requires forall r :: r != id ==> (r in next.reservations <==> r in db.reservations)
    requires forall r :: r != id && r in db.reservations ==> next.reservations[r] == db.reservations[r]
    requires forall s :: s in ids <==> s in next.reservations[id].seats
    ensures NoDoubleBooking(next) <==> forall s :: s in ids ==> !ListedElsewhere(db, id, s)
  {
    if NoDoubleBooking(next) {
      assert forall s :: s in ids ==> s in next.reservations[id].seats;
    }
    if forall s :: s in ids ==> !ListedElsewhere(db, id, s) {
      forall q, r, s |
        && q in next.reservations && Active(next.reservations[q].status) && s in next.reservations[q].seats
        && r in next.reservations && Active(next.reservations[r].status) && s in next.reservations[r].seats
        ensures q == r
      {
        if q == id || r == id { assert s in ids ==> !ListedElsewhere(db, id, s); }
      }
    }
  }

  lemma FewerActive(db: Db, next: Db)
    requires NoDoubleBooking(db)
    requires forall r :: r in next.reservations && Active(next.reservations[r].status) ==>
               r in db.reservations && next.reservations[r] == db.reservations[r]
    ensures NoDoubleBooking(next)
  {
  }

  /** One commit keeps every seat in at most one active reservation exactly when it meets the guard. */
  lemma SoleGuardExact(db: Db, k: Commit)
    requires Linked(db) && NoDoubleBooking(db) && Agrees(db, k)
    ensures NoDoubleBooking(Apply(db, k)) <==> SoleGuard(db, k)
  {
    hide NumbersUnique, KeyTaken, NoDoubleBooking, ListedElsewhere;
    if Execute(db, k).Ok? {
      if Catalogue(k) {
        CatalogueTables(db, k);
        FewerActive(db, Apply(db, k));
      } else if k.Create? {
        CreatedTables(db, k.rid, k.b);
        assert forall s :: s in k.b.seatIds <==> s in Sums.Elements(k.b.seatIds);
        ActiveAdded(db, Apply(db, k), k.rid, k.b.seatIds);
      } else if k.Confirm? {
        ConfirmedTables(db, k.b);
        ListedSeats(db, k.b);
        ActiveAdded(db, Apply(db, k), k.b.id, k.b.seatIds);
      } else {
        CancelledTables(db, k.b);
        FewerActive(db, Apply(db, k));
      }
    }
  }

  ghost predicate StepSoleGuard(w: World, a: Action) {
    CommitOf(w, a).Some? ==> SoleGuard(w.sh.db, CommitOf(w, a).value)
  }

  lemma StepSole(w: World, a: Action)
    requires Sound(w) && Enabled(w, a) && NoDoubleBooking(w.sh.db)
    ensures NoDoubleBooking(Step(w, a).sh.db) <==> StepSoleGuard(w, a)
  {
    hide Step, Enabled, Agrees, Wf, ClientOk, CommitOf, SoleGuard, NoDoubleBooking;
    Safety.StepDb(w, a);
    if CommitOf(w, a).Some? {
      Safety.CommitAgrees(w, a);
      Safety.LinkedPart(w.sh.db);
      SoleGuardExact(w.sh.db, CommitOf(w, a).value);
    }
  }

  lemma {:induction false} SolePrefix(tr: seq<World>, acts: seq<Action>, n: nat)
    requires Run(tr, acts) && n < |tr| && forall k :: 0 <= k < n ==> StepSoleGuard(tr[k], acts[k])
    ensures NoDoubleBooking(tr[n].sh.db)
  {
    hide Step, Enabled, Sound, StepSoleGuard;
    if n > 0 {
      SolePrefix(tr, acts, n - 1);
      Safety.RunSound(tr, acts, n - 1);
      StepSole(tr[n - 1], acts[n - 1]);
    }
  }

  /** In every run: one seat is sold once in every state exactly when no committed Create or Confirm finds one of its
      seats listed by another active reservation. */
  lemma NoDoubleBookingExact(tr: seq<World>, acts: seq<Action>)
    requires Run(tr, acts)
    ensures (forall i :: 0 <= i < |tr| ==> NoDoubleBooking(tr[i].sh.db)) <==>
            (forall k :: 0 <= k < |acts| ==> StepSoleGuard(tr[k], acts[k]))
  {
    hide Step, Enabled, Initial, Sound, StepSoleGuard, NoDoubleBooking;
    if forall k :: 0 <= k < |acts| ==> StepSoleGuard(tr[k], acts[k]) {
      forall n | 0 <= n < |tr| ensures NoDoubleBooking(tr[n].sh.db) { SolePrefix(tr, acts, n); }
    }
    if forall i :: 0 <= i < |tr| ==> NoDoubleBooking(tr[i].sh.db) {
      forall k | 0 <= k < |acts| ensures StepSoleGuard(tr[k], acts[k]) {
        Safety.RunSound(tr, acts, k);
        assert NoDoubleBooking(tr[k].sh.db) && NoDoubleBooking(tr[k + 1].sh.db);
        StepSole(tr[k], acts[k]);
      }
    }
  }
}
