/**
 Confirmations and the fifteen minutes, over all runs.  A client reads the reservation, looks at the clock to see
 that it has not expired, looks again for the time to record, and commits; time may pass between any two.
 */
module Deadlines {
  import opened Domain
  import opened Database
  import opened Invariants
  import opened Protocol
  import Safety

  /** At step `j` client `c` found reservation `r` unexpired, and at step `k` it took the time it records. */
  ghost predicate CheckedAndStamped(tr: seq<World>, acts: seq<Action>, j: nat, k: nat, c: nat, r: Id, deadline: int)
    requires |tr| == |acts| + 1
  {
    && j < k < |acts| && Moves(acts[j], c) && Moves(acts[k], c) && c in tr[j].clients && c in tr[k].clients
    && tr[j].clients[c].ConfirmCheck? && tr[j].clients[c].b.id == r && tr[j].sh.now <= deadline
    && tr[k].clients[c].ConfirmStamp? && tr[k].clients[c].b.id == r
  }

  function Deadline(row: ReservationRow): int { row.createdAt + 15 * MINUTE }

  // ---------------------------------------------------------------- the deadline a client remembers

  predicate Confirming(pc: Client) { pc.ConfirmCheck? || pc.ConfirmStamp? || pc.ConfirmTx? }

  ghost predicate KnowsDeadline(db: Db, pc: Client) {
    Confirming(pc) ==> pc.b.id in db.reservations && pc.b.expiresAt == Deadline(db.reservations[pc.b.id])
  }

  lemma OnlySettlingConfirms(sh: Shared, pc: Client, ch: Choice)
    ensures Creating(pc) ==> !Confirming(CreateStep(sh, pc, ch).pc)
    ensures Reading(pc) ==> !Confirming(ReadStep(sh, pc, ch).pc)
  {
    hide Execute, Tally, RedisLockKey, CountAvailable, Load;
  }

  /** One step of a client on its way to confirming. */
  lemma ConfirmingStep(sh: Shared, pc: Client, ch: Choice)
    requires Linked(sh.db) && Possible(sh, pc, ch) && Confirming(ClientStep(sh, pc, ch).pc)
    ensures var next := ClientStep(sh, pc, ch).pc;
            || (pc.ConfirmRead? && next.ConfirmCheck? && KnowsDeadline(sh.db, next))
            || (pc.ConfirmCheck? && next == ConfirmStamp(pc.b) && sh.now <= pc.b.expiresAt)
            || (pc.ConfirmStamp?
                && next == ConfirmTx(pc.b.(status := ReservationStatus.Confirmed, confirmedAt := Some(sh.now))))
  {
    hide Execute, CreateStep, ReadStep;
    OnlySettlingConfirms(sh, pc, ch);
    if pc.ConfirmRead? && pc.id in sh.db.reservations {
      assert RowLinked(sh.db, sh.db.reservations[pc.id]);
    }
  }

  lemma DeadlineKept(db: Db, next: Db, pc: Client)
    requires KnowsDeadline(db, pc) && Evolves(db, next)
    ensures KnowsDeadline(next, pc)
  {
  }

  /** What a client on its way to confirming has done so far. */
  ghost predicate Prepared(tr: seq<World>, acts: seq<Action>, n: nat, c: nat)
    requires |tr| == |acts| + 1 && n < |tr| && c in tr[n].clients
  {
    var pc := tr[n].clients[c];
    && KnowsDeadline(tr[n].sh.db, pc)
    && (pc.ConfirmStamp? ==> exists j: nat :: j < n && CheckedInTime(tr, acts, j, c, pc.b))
    && (pc.ConfirmTx? ==> exists j: nat, k: nat ::
          k < n && CheckedAndStamped(tr, acts, j, k, c, pc.b.id, pc.b.expiresAt)
            && pc.b.confirmedAt == Some(tr[k].sh.now))
  }

  ghost predicate CheckedInTime(tr: seq<World>, acts: seq<Action>, j: nat, c: nat, b: Booking)
    requires |tr| == |acts| + 1
  {
    j < |acts| && Moves(acts[j], c) && c in tr[j].clients && tr[j].clients[c] == ConfirmCheck(b)
      && tr[j].sh.now <= b.expiresAt
  }

  lemma {:induction false} RunPrepared(tr: seq<World>, acts: seq<Action>, n: nat, c: nat)
    requires Run(tr, acts) && n < |tr| && c in tr[n].clients
    ensures Prepared(tr, acts, n, c)
  {
    hide ClientStep, Possible, Apply, Agrees, Wf, Evolves, ClientOk, KnowsDeadline, CheckedInTime, CheckedAndStamped;
    if n > 0 {
      var w, a := tr[n - 1], acts[n - 1];
      assert tr[n] == Step(w, a) && Enabled(w, a);
      Safety.RunSound(tr, acts, n - 1);
      Safety.StepSound(w, a);
      if Moves(a, c) {
        RunPrepared(tr, acts, n - 1, c);
        MovedPrepared(tr, acts, n - 1, c);
      } else if a.Begin? && a.c == c {
        NotConfirming(tr[n].sh.db, tr[n].clients[c]);
      } else {
        Safety.OthersStay(w, a, c);
        RunPrepared(tr, acts, n - 1, c);
        DeadlineKept(w.sh.db, tr[n].sh.db, w.clients[c]);
      }
    }
  }

  lemma NotConfirming(db: Db, pc: Client)
    requires Starting(pc)
    ensures KnowsDeadline(db, pc)
  {
  }

  lemma MovedPrepared(tr: seq<World>, acts: seq<Action>, n: nat, c: nat)
    requires |tr| == |acts| + 1 && n < |acts| && Moves(acts[n], c) && c in tr[n].clients && Prepared(tr, acts, n, c)
    requires Sound(tr[n]) && Enabled(tr[n], acts[n]) && tr[n + 1] == Step(tr[n], acts[n])
    requires Evolves(tr[n].sh.db, tr[n + 1].sh.db)
    ensures c in tr[n + 1].clients && Prepared(tr, acts, n + 1, c)
  {
    hide ClientStep, Possible, Apply, Agrees, Wf, Evolves, ClientOk;
    var sh, pc, next := tr[n].sh, tr[n].clients[c], tr[n + 1].clients[c];
    assert next == ClientStep(sh, pc, acts[n].ch).pc;
    Safety.LinkedPart(sh.db);
    if Confirming(next) {
      ConfirmingStep(sh, pc, acts[n].ch);
      assert KnowsDeadline(sh.db, next);
      if pc.ConfirmCheck? {
        assert CheckedInTime(tr, acts, n, c, pc.b);
      } else if pc.ConfirmStamp? {
        var j: nat :| j < n && CheckedInTime(tr, acts, j, c, pc.b);
        assert CheckedAndStamped(tr, acts, j, n, c, next.b.id, next.b.expiresAt);
      }
      DeadlineKept(sh.db, tr[n + 1].sh.db, next);
    }
  }

  // ---------------------------------------------------------------- what is recorded

  /** Where the recorded confirmation comes from. */
  ghost predicate Recorded(tr: seq<World>, acts: seq<Action>, n: nat, r: Id, row: ReservationRow)
    requires |tr| == |acts| + 1
  {
    row.status == ReservationStatus.Confirmed ==>
      exists j: nat, k: nat, c: nat :: k < n
        && CheckedAndStamped(tr, acts, j, k, c, r, Deadline(row)) && row.confirmedAt == Some(tr[k].sh.now)
  }

  /** A commit leaves a reservation confirmed only if it was, with the same time, or is being confirmed. */
  lemma ConfirmedFrom(db: Db, k: Commit, r: Id)
    requires Linked(db) && Agrees(db, k) && r in Apply(db, k).reservations
    requires Apply(db, k).reservations[r].status == ReservationStatus.Confirmed
    ensures || (r in db.reservations && Apply(db, k).reservations[r] == db.reservations[r])
            || (k.Confirm? && k.b.id == r && r in db.reservations
                && Apply(db, k).reservations[r] == Restated(db, k.b)[r])
  {
    hide NumbersUnique, KeyTaken;
    if Catalogue(k) {
      CatalogueTables(db, k);
    } else if k.Create? {
      if Execute(db, k).Ok? { CreatedTables(db, k.rid, k.b); }
    } else if k.Cancel? {
      CancelledTables(db, k.b);
    } else if SeatTable.ConfirmSeats(db.seats, k.b.seatIds).Ok? {
      ConfirmedTables(db, k.b);
    }
  }

  lemma ConfirmIsMove(w: World, a: Action)
    requires Enabled(w, a) && CommitOf(w, a).Some? && CommitOf(w, a).value.Confirm?
    ensures a.Move? && a.c in w.clients && w.clients[a.c] == ConfirmTx(CommitOf(w, a).value.b)
  {
    hide Agrees, Possible;
  }

  lemma {:induction false} RunRecorded(tr: seq<World>, acts: seq<Action>, n: nat, r: Id)
    requires Run(tr, acts) && n < |tr| && r in tr[n].sh.db.reservations
    ensures Recorded(tr, acts, n, r, tr[n].sh.db.reservations[r])
  {
    hide Step, Enabled, Agrees, Apply, Wf, ClientOk, CheckedAndStamped, CheckedInTime, CommitOf;
    if n > 0 && tr[n].sh.db.reservations[r].status == ReservationStatus.Confirmed {
      var w, a := tr[n - 1], acts[n - 1];
      assert tr[n] == Step(w, a) && Enabled(w, a);
      Safety.StepDb(w, a);
      if CommitOf(w, a).Some? {
        Safety.RunSound(tr, acts, n - 1);
        Safety.CommitAgrees(w, a);
        Safety.LinkedPart(w.sh.db);
        ConfirmedFrom(w.sh.db, CommitOf(w, a).value, r);
        if tr[n].sh.db.reservations[r] != w.sh.db.reservations[r] {
          ConfirmIsMove(w, a);
          RunPrepared(tr, acts, n - 1, a.c);
          var b := CommitOf(w, a).value.b;
          assert b.expiresAt == Deadline(tr[n].sh.db.reservations[r])
            && tr[n].sh.db.reservations[r].confirmedAt == b.confirmedAt;
          var j: nat, k: nat :| k < n - 1
            && CheckedAndStamped(tr, acts, j, k, a.c, r, b.expiresAt) && b.confirmedAt == Some(tr[k].sh.now);
        } else {
          RunRecorded(tr, acts, n - 1, r);
        }
      } else {
        RunRecorded(tr, acts, n - 1, r);
      }
    }
  }

  /** In every state of every run, fresh or stale: a confirmed reservation was seen unexpired by the client that
      confirmed it, within fifteen minutes of its creation, and carries the time of that client's second look at the
      clock.  So the recorded time exceeds the deadline by no more than the time between the two looks. */
  lemma ConfirmedInTime(tr: seq<World>, acts: seq<Action>, n: nat, r: Id)
    requires Run(tr, acts) && n < |tr| && r in tr[n].sh.db.reservations
    requires tr[n].sh.db.reservations[r].status == ReservationStatus.Confirmed
    ensures var row := tr[n].sh.db.reservations[r];
            exists j: nat, k: nat, c: nat :: k < n
              && CheckedAndStamped(tr, acts, j, k, c, r, Deadline(row)) && row.confirmedAt == Some(tr[k].sh.now)
              && row.confirmedAt.value <= Deadline(row) + (tr[k].sh.now - tr[j].sh.now)
  {
    hide Step, Enabled, Initial;
    RunRecorded(tr, acts, n, r);
    var row := tr[n].sh.db.reservations[r];
    var j: nat, k: nat, c: nat :| k < n
      && CheckedAndStamped(tr, acts, j, k, c, r, Deadline(row)) && row.confirmedAt == Some(tr[k].sh.now);
    assert row.confirmedAt.value <= Deadline(row) + (tr[k].sh.now - tr[j].sh.now);
  }
}
