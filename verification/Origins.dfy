/**
 Where a run's commits come from.  Every settling commit goes back to a read at which the reservation was pending, and
 every reservation to an event found open and seats found available, each by the client that commits.
 */
module Origins {
  import opened Sums
  import opened Domain
  import opened Database
  import opened Invariants
  import opened Protocol
  import Safety

  // ---------------------------------------------------------------- settling: what was read

  predicate StatusIs(db: Db, r: Id, st: ReservationStatus) {
    r in db.reservations && db.reservations[r].status == st
  }

  ghost predicate SameStatus(db: Db, next: Db, r: Id) {
    forall st :: StatusIs(db, r, st) ==> StatusIs(next, r, st)
  }

  /** At step `j` client `c` read reservation `r` with status `st`, and none of its own steps since changed that. */
  ghost predicate ReadAs(tr: seq<World>, acts: seq<Action>, j: nat, n: nat, c: nat, r: Id, st: ReservationStatus)
    requires |tr| == |acts| + 1 && n < |tr|
  {
    && j < n && Moves(acts[j], c) && c in tr[j].clients && Reads(tr[j].clients[c]) && StatusIs(tr[j].sh.db, r, st)
    && forall k :: j <= k < n && Moves(acts[k], c) ==> SameStatus(tr[k].sh.db, tr[k + 1].sh.db, r)
  }

  predicate Reads(pc: Client) { pc.ConfirmRead? || pc.CancelCheck? || pc.SweepCheck? }

  /** Client `c` stands in state `n` on such a read. */
  ghost predicate StandsOn(tr: seq<World>, acts: seq<Action>, n: nat, c: nat, r: Id, st: ReservationStatus)
    requires |tr| == |acts| + 1 && n < |tr|
  {
    exists j: nat :: ReadAs(tr, acts, j, n, c, r, st)
  }

  /** Past its status check, with a reservation it is about to settle. */
  predicate Settling(pc: Client, r: Id) {
    || ((pc.ConfirmStamp? || pc.ConfirmTx? || pc.CancelTx?) && pc.b.id == r)
    || (pc.SweepTx? && exists m :: 0 <= m < |pc.todo| && pc.todo[m].id == r)
  }

  predicate DistinctIds(todo: seq<Booking>) {
    forall l, m :: 0 <= l < m < |todo| ==> todo[l].id != todo[m].id
  }

  ghost predicate Remembers(tr: seq<World>, acts: seq<Action>, n: nat, c: nat)
    requires |tr| == |acts| + 1 && n < |tr| && c in tr[n].clients
  {
    var pc := tr[n].clients[c];
    && (pc.ConfirmCheck? ==> StandsOn(tr, acts, n, c, pc.b.id, pc.b.status))
    && (pc.SweepTx? ==> DistinctIds(pc.todo))
    && forall r :: Settling(pc, r) ==> StandsOn(tr, acts, n, c, r, Pending)
  }

  lemma StillStands(tr: seq<World>, acts: seq<Action>, n: nat, c: nat, r: Id, st: ReservationStatus)
    requires |tr| == |acts| + 1 && n < |acts| && StandsOn(tr, acts, n, c, r, st)
    requires Moves(acts[n], c) ==> SameStatus(tr[n].sh.db, tr[n + 1].sh.db, r)
    ensures StandsOn(tr, acts, n + 1, c, r, st)
  {
    hide SameStatus, StatusIs;
    var j: nat :| ReadAs(tr, acts, j, n, c, r, st);
    assert ReadAs(tr, acts, j, n + 1, c, r, st);
  }

  lemma JustRead(tr: seq<World>, acts: seq<Action>, n: nat, c: nat, r: Id, st: ReservationStatus)
    requires |tr| == |acts| + 1 && n < |acts| && Moves(acts[n], c) && c in tr[n].clients && Reads(tr[n].clients[c])
    requires StatusIs(tr[n].sh.db, r, st) && tr[n + 1].sh.db == tr[n].sh.db
    ensures StandsOn(tr, acts, n + 1, c, r, st)
  {
    assert ReadAs(tr, acts, n, n + 1, c, r, st);
  }

  lemma OthersUntouched(db: Db, b: Booking, r: Id)
    requires r != b.id
    ensures Execute(db, Cancel(b)).Ok? ==> SameStatus(db, Execute(db, Cancel(b)).value, r)
  {
  }

  lemma RestOf(todo: seq<Booking>)
    requires |todo| > 0 && DistinctIds(todo)
    ensures DistinctIds(todo[1..])
    ensures forall m :: 0 <= m < |todo| - 1 ==> todo[1..][m] == todo[m + 1] && todo[m + 1].id != todo[0].id
  {
  }

  /** One item of a sweep leaves the status of every other item alone. */
  lemma ItemStep(sh: Shared, pc: Client, ch: Choice)
    requires pc.SweepTx? && DistinctIds(pc.todo)
    ensures var e := SettleStep(sh, pc, ch);
            && (e.pc.SweepTx? ==> DistinctIds(e.pc.todo)) && !e.pc.ConfirmCheck?
            && forall r :: Settling(e.pc, r) ==> Settling(pc, r) && SameStatus(sh.db, e.sh.db, r)
  {
    if |pc.todo| > 0 {
      RestOf(pc.todo);
      var b := pc.todo[0];
      forall r | r != b.id ensures b.Cancel().Ok? && Execute(sh.db, Cancel(b.Cancel().value)).Ok? ==>
                                     SameStatus(sh.db, Execute(sh.db, Cancel(b.Cancel().value)).value, r)
      {
        if b.Cancel().Ok? { OthersUntouched(sh.db, b.Cancel().value, r); }
      }
      hide SameStatus, Execute;
      var e := SettleStep(sh, pc, ch);
      forall r | Settling(e.pc, r) ensures Settling(pc, r) && SameStatus(sh.db, e.sh.db, r) {
        var m :| 0 <= m < |e.pc.todo| && e.pc.todo[m].id == r;
        assert pc.todo[m + 1].id == r;
        if e.sh.db == sh.db { Unmoved(sh.db, r); }
      }
    }
  }

  lemma Unmoved(db: Db, r: Id)
    ensures SameStatus(db, db, r)
  {
  }

  /** What the moving client's own step does to what it is about to settle. */
  lemma OwnStep(sh: Shared, pc: Client, ch: Choice)
    requires Possible(sh, pc, ch) && (pc.SweepTx? ==> DistinctIds(pc.todo))
    ensures var e := ClientStep(sh, pc, ch);
            && (e.pc.ConfirmCheck? ==>
                  pc.ConfirmRead? && e.sh.db == sh.db && StatusIs(sh.db, e.pc.b.id, e.pc.b.status))
            && (e.pc.SweepTx? ==> DistinctIds(e.pc.todo))
            && forall r :: Settling(e.pc, r) ==>
                 || (Reads(pc) && e.sh.db == sh.db && StatusIs(sh.db, r, Pending))
                 || (pc.ConfirmCheck? && e.sh.db == sh.db && pc.b.id == r && pc.b.status == Pending)
                 || (Settling(pc, r) && SameStatus(sh.db, e.sh.db, r))
  {
    hide CreateStep, ReadStep, Lists, Execute;
    if Creating(pc) || Reading(pc) {
      NotSettling(sh, pc, ch);
    } else if pc.SweepTx? {
      ItemStep(sh, pc, ch);
    }
  }

  lemma NotSettling(sh: Shared, pc: Client, ch: Choice)
    requires Creating(pc) || Reading(pc)
    ensures forall r :: !Settling(ClientStep(sh, pc, ch).pc, r)
    ensures !ClientStep(sh, pc, ch).pc.ConfirmCheck? && !ClientStep(sh, pc, ch).pc.SweepTx?
  {
    hide Execute, Tally, RedisLockKey, CountAvailable, Load;
  }

  lemma MovedRemembers(tr: seq<World>, acts: seq<Action>, n: nat, c: nat)
    requires |tr| == |acts| + 1 && n < |acts| && Moves(acts[n], c) && c in tr[n].clients && Remembers(tr, acts, n, c)
    requires Enabled(tr[n], acts[n]) && tr[n + 1] == Step(tr[n], acts[n])
    ensures c in tr[n + 1].clients && Remembers(tr, acts, n + 1, c)
  {
    hide ClientStep, Possible, StandsOn, SameStatus, StatusIs, Settling;
    var sh, pc := tr[n].sh, tr[n].clients[c];
    var e := ClientStep(sh, pc, acts[n].ch);
    assert tr[n + 1].clients[c] == e.pc && tr[n + 1].sh == e.sh;
    OwnStep(sh, pc, acts[n].ch);
    if e.pc.ConfirmCheck? { JustRead(tr, acts, n, c, e.pc.b.id, e.pc.b.status); }
    forall r | Settling(e.pc, r) ensures StandsOn(tr, acts, n + 1, c, r, Pending) {
      if Reads(pc) && e.sh.db == sh.db && StatusIs(sh.db, r, Pending) {
        JustRead(tr, acts, n, c, r, Pending);
      } else {
        if e.sh.db == sh.db { Unmoved(sh.db, r); }
        StillStands(tr, acts, n, c, r, Pending);
      }
    }
  }

  lemma {:induction false} RunRemembers(tr: seq<World>, acts: seq<Action>, n: nat, c: nat)
    requires Run(tr, acts) && n < |tr| && c in tr[n].clients
    ensures Remembers(tr, acts, n, c)
  {
    hide ClientStep, Possible, Apply, Agrees, StandsOn, Settling;
    if n > 0 {
      var w, a := tr[n - 1], acts[n - 1];
      assert tr[n] == Step(w, a) && Enabled(w, a);
      if Moves(a, c) {
        RunRemembers(tr, acts, n - 1, c);
        MovedRemembers(tr, acts, n - 1, c);
      } else if a.Begin? && a.c == c {
        StartsFresh(tr[n].clients[c]);
      } else {
        Safety.OthersStay(w, a, c);
        RunRemembers(tr, acts, n - 1, c);
        KeepsRemembering(tr, acts, n - 1, c);
      }
    }
  }

  lemma StartsFresh(pc: Client)
    requires Starting(pc)
    ensures forall r :: !Settling(pc, r)
  {
  }

  lemma KeepsRemembering(tr: seq<World>, acts: seq<Action>, n: nat, c: nat)
    requires |tr| == |acts| + 1 && n < |acts| && c in tr[n].clients && Remembers(tr, acts, n, c) && !Moves(acts[n], c)
    requires c in tr[n + 1].clients && tr[n + 1].clients[c] == tr[n].clients[c]
    ensures Remembers(tr, acts, n + 1, c)
  {
    hide StandsOn, Settling;
    var pc := tr[n].clients[c];
    if pc.ConfirmCheck? { StillStands(tr, acts, n, c, pc.b.id, pc.b.status); }
    forall r | Settling(pc, r) ensures StandsOn(tr, acts, n + 1, c, r, Pending) {
      StillStands(tr, acts, n, c, r, Pending);
    }
  }

  /** In every run: a client past its status check, or with an item left in its sweep, read that reservation at an
      earlier step of its own, at which the stored status was pending. */
  lemma SettledAsRead(tr: seq<World>, acts: seq<Action>, n: nat, c: nat, r: Id)
    requires Run(tr, acts) && n < |tr| && c in tr[n].clients && Settling(tr[n].clients[c], r)
    ensures exists j: nat ::
              && j < n && ReadAs(tr, acts, j, n, c, r, Pending)
              && r in tr[j].sh.db.reservations && tr[j].sh.db.reservations[r].status == Pending
  {
    hide Step, Enabled, Initial, SameStatus;
    RunRemembers(tr, acts, n, c);
    var j: nat :| ReadAs(tr, acts, j, n, c, r, Pending);
  }

  // ---------------------------------------------------------------- settling: stale means raced

  /** At step `k` another client than `c` settled `r`, which was pending until then. */
  ghost predicate SettledByOther(tr: seq<World>, acts: seq<Action>, k: nat, c: nat, r: Id)
    requires |tr| == |acts| + 1
  {
    && k < |acts| && acts[k].Move? && acts[k].c != c
    && StatusIs(tr[k].sh.db, r, Pending) && SettledIn(tr[k + 1].sh.db, r)
    && CommitOf(tr[k], acts[k]).Some? && Settles(CommitOf(tr[k], acts[k]).value, r)
  }

  predicate Settles(k: Commit, r: Id) { (k.Confirm? || k.Cancel?) && k.b.id == r }

  lemma {:induction false} WhenSettled(tr: seq<World>, acts: seq<Action>, j: nat, n: nat, r: Id) returns (k: nat)
    requires |tr| == |acts| + 1 && j <= n < |tr| && StatusIs(tr[j].sh.db, r, Pending)
              && !StatusIs(tr[n].sh.db, r, Pending)
    ensures j <= k < n && StatusIs(tr[k].sh.db, r, Pending) && !StatusIs(tr[k + 1].sh.db, r, Pending)
    decreases n
  {
    if StatusIs(tr[n - 1].sh.db, r, Pending) { k := n - 1; } else { k := WhenSettled(tr, acts, j, n - 1, r); }
  }

  lemma SettlingCommit(db: Db, k: Commit, r: Id)
    requires Linked(db) && Agrees(db, k) && StatusIs(db, r, Pending) && !StatusIs(Apply(db, k), r, Pending)
    ensures Settles(k, r) && SettledIn(Apply(db, k), r)
  {
    hide CreateAgrees, NumbersUnique, KeyTaken;
    if Catalogue(k) { CatalogueTables(db, k); }
    if k.Create? && Execute(db, k).Ok? { CreatedTables(db, k.rid, k.b); }
  }

  lemma SettlingStep(w: World, a: Action, r: Id)
    requires Sound(w) && Enabled(w, a) && StatusIs(w.sh.db, r, Pending) && !StatusIs(Step(w, a).sh.db, r, Pending)
    ensures a.Move? && CommitOf(w, a).Some? && Settles(CommitOf(w, a).value, r) && SettledIn(Step(w, a).sh.db, r)
  {
    hide Step, Agrees, Wf, ClientOk, Possible;
    Safety.StepDb(w, a);
    Safety.CommitAgrees(w, a);
    Safety.LinkedPart(w.sh.db);
    hide CommitOf;
    SettlingCommit(w.sh.db, CommitOf(w, a).value, r);
    AdminSettlesNothing(w, a, r);
  }

  lemma AdminSettlesNothing(w: World, a: Action, r: Id)
    requires Enabled(w, a) && CommitOf(w, a).Some? && Settles(CommitOf(w, a).value, r)
    ensures a.Move? && a.c in w.clients && Settling(w.clients[a.c], r)
  {
    hide Agrees, Possible;
    if a.Move? && w.clients[a.c].SweepTx? { assert w.clients[a.c].todo[0].id == r; }
  }

  /** The half of fresh commit that the code guarantees, in every run: a settling commit that is not fresh read its
      reservation while it was pending, and between that read and the commit another client settled it. */
  lemma StaleMeansRaced(tr: seq<World>, acts: seq<Action>, n: nat)
    requires Run(tr, acts) && n < |acts| && !Safety.FreshCommit(tr[n], acts[n])
    ensures acts[n].Move? && acts[n].c in tr[n].clients
    ensures var c, r := acts[n].c, CommitOf(tr[n], acts[n]).value.b.id;
            exists j: nat, k: nat ::
              j <= k < n && ReadAs(tr, acts, j, n, c, r, Pending) && SettledByOther(tr, acts, k, c, r)
  {
    hide Step, Initial, Apply, Execute, Sound, StandsOn, Settling, SameStatus, ReadAs, CommitOf, Enabled;
    var commit := CommitOf(tr[n], acts[n]).value;
    var r := commit.b.id;
    assert Settles(commit, r) && !StatusIs(tr[n].sh.db, r, Pending);
    assert Enabled(tr[n], acts[n]);
    AdminSettlesNothing(tr[n], acts[n], r);
    var c := acts[n].c;
    SettledAsRead(tr, acts, n, c, r);
    var j: nat :| j < n && ReadAs(tr, acts, j, n, c, r, Pending)
                  && r in tr[j].sh.db.reservations && tr[j].sh.db.reservations[r].status == Pending;
    var k := WhenSettled(tr, acts, j, n, r);
    assert Enabled(tr[k], acts[k]) && tr[k + 1] == Step(tr[k], acts[k]);
    Safety.RunSound(tr, acts, k);
    SettlingStep(tr[k], acts[k], r);
    NotByItself(tr, acts, j, n, c, r, k);
    assert SettledByOther(tr, acts, k, c, r);
  }

  lemma NotByItself(tr: seq<World>, acts: seq<Action>, j: nat, n: nat, c: nat, r: Id, k: nat)
    requires |tr| == |acts| + 1 && n < |tr| && ReadAs(tr, acts, j, n, c, r, Pending) && j <= k < n
    requires StatusIs(tr[k].sh.db, r, Pending) && !StatusIs(tr[k + 1].sh.db, r, Pending)
    ensures !Moves(acts[k], c)
  {
    hide StatusIs;
  }

  // ---------------------------------------------------------------- booking: what was found

  /** At step `i` client `c` found the event of its request stored and not yet begun. */
  ghost predicate OpenAt(tr: seq<World>, acts: seq<Action>, i: nat, c: nat, req: Request)
    requires |tr| == |acts| + 1
  {
    && i < |acts| && Moves(acts[i], c) && c in tr[i].clients && tr[i].clients[c].EventCheck?
        && tr[i].clients[c].req == req
    && req.eventId in tr[i].sh.db.events && tr[i].sh.db.events[req.eventId].startAt > tr[i].sh.now
  }

  /** At step `i` client `c` found every requested seat available in that event, and drafted `b` from what it found. */
  ghost predicate FreeAt(tr: seq<World>, acts: seq<Action>, i: nat, c: nat, req: Request, b: Booking)
    requires |tr| == |acts| + 1
  {
    && i < |acts| && Moves(acts[i], c) && c in tr[i].clients && tr[i].clients[c].SeatCheck?
        && tr[i].clients[c].req == req
    && (forall s :: s in req.seatIds ==>
          && s in tr[i].sh.db.seats && tr[i].sh.db.seats[s].eventId == req.eventId
          && tr[i].sh.db.seats[s].status == Available)
    && b == Booking("", req.eventId, req.userId, req.seatIds, Pending, req.key, b.total, tr[i].sh.now,
                    tr[i].sh.now + 15 * MINUTE, None)
    && (Distinct(req.seatIds) ==> b.total == Sum(Prices(tr[i].sh.db.seats, Elements(req.seatIds))))
  }

  ghost predicate Prepared(tr: seq<World>, acts: seq<Action>, n: nat, c: nat)
    requires |tr| == |acts| + 1 && n < |tr| && c in tr[n].clients
  {
    var pc := tr[n].clients[c];
    && (pc.SeatCheck? ==> exists i: nat :: i < n && OpenAt(tr, acts, i, c, pc.req))
    && (pc.CreateTx? ==> exists i: nat, j: nat ::
          i < j < n && OpenAt(tr, acts, i, c, pc.req) && FreeAt(tr, acts, j, c, pc.req, pc.b))
  }

  /** How a client comes to its seat check and to its transaction. */
  lemma CreatingStep(sh: Shared, pc: Client, ch: Choice)
    ensures var next := ClientStep(sh, pc, ch).pc;
            && (next.SeatCheck? ==>
                  && pc.EventCheck? && pc.req == next.req && pc.req.eventId in sh.db.events
                  && sh.db.events[pc.req.eventId].startAt > sh.now)
            && (next.CreateTx? ==>
                  && pc.SeatCheck? && pc.req == next.req
                  && Tally(SeatsOf(sh.db, pc.req.eventId), pc.req.seatIds).Ok?
                  && next.b == Booking("", pc.req.eventId, pc.req.userId, pc.req.seatIds, Pending, pc.req.key,
                                       Tally(SeatsOf(sh.db, pc.req.eventId), pc.req.seatIds).value, sh.now,
                                       sh.now + 15 * MINUTE, None))
  {
    hide Execute, Tally, RedisLockKey, CountAvailable, Load;
  }

  lemma Passed(db: Db, e: Id, ids: seq<Id>)
    requires Tally(SeatsOf(db, e), ids).Ok?
    ensures forall s :: s in ids ==> s in db.seats && db.seats[s].eventId == e && db.seats[s].status == Available
    ensures Distinct(ids) ==> Tally(SeatsOf(db, e), ids).value == Sum(Prices(db.seats, Elements(ids)))
  {
    Safety.TallySum(SeatsOf(db, e), ids);
    SamePrices(SeatsOf(db, e), db.seats, Elements(ids));
  }

  lemma MovedPrepared(tr: seq<World>, acts: seq<Action>, n: nat, c: nat)
    requires |tr| == |acts| + 1 && n < |acts| && Moves(acts[n], c) && c in tr[n].clients && Prepared(tr, acts, n, c)
    requires tr[n + 1] == Step(tr[n], acts[n])
    ensures c in tr[n + 1].clients && Prepared(tr, acts, n + 1, c)
  {
    hide ClientStep, Tally;
    var sh, pc := tr[n].sh, tr[n].clients[c];
    var next := ClientStep(sh, pc, acts[n].ch).pc;
    CreatingStep(sh, pc, acts[n].ch);
    if next.SeatCheck? {
      assert OpenAt(tr, acts, n, c, next.req);
    } else if next.CreateTx? {
      Passed(sh.db, pc.req.eventId, pc.req.seatIds);
      assert FreeAt(tr, acts, n, c, next.req, next.b);
    }
  }

  lemma {:induction false} RunPrepared(tr: seq<World>, acts: seq<Action>, n: nat, c: nat)
    requires Run(tr, acts) && n < |tr| && c in tr[n].clients
    ensures Prepared(tr, acts, n, c)
  {
    hide ClientStep, Possible, Apply, Agrees, OpenAt, FreeAt;
    if n > 0 {
      var w, a := tr[n - 1], acts[n - 1];
      assert tr[n] == Step(w, a) && Enabled(w, a);
      if Moves(a, c) {
        RunPrepared(tr, acts, n - 1, c);
        MovedPrepared(tr, acts, n - 1, c);
      } else if !(a.Begin? && a.c == c) {
        Safety.OthersStay(w, a, c);
        RunPrepared(tr, acts, n - 1, c);
      }
    }
  }

  /** At step `i` client `c` committed draft `b` of request `req` as reservation `r`. */
  ghost predicate CommittedAt(tr: seq<World>, acts: seq<Action>, i: nat, c: nat, req: Request, b: Booking, r: Id)
    requires |tr| == |acts| + 1
  {
    && i < |acts| && Moves(acts[i], c) && c in tr[i].clients && tr[i].clients[c].CreateTx?
    && tr[i].clients[c].req == req && tr[i].clients[c].b == b
    && r !in tr[i].sh.db.reservations && r in tr[i + 1].sh.db.reservations
  }

  /** Where a stored reservation comes from: its client, its request, its draft, and the three steps. */
  datatype Origin = Origin(c: nat, req: Request, b: Booking, found: nat, checked: nat, committed: nat)

  ghost predicate ComesFrom(tr: seq<World>, acts: seq<Action>, n: nat, r: Id, row: ReservationRow, o: Origin)
    requires |tr| == |acts| + 1
  {
    && o.found < o.checked < o.committed < n
    && OpenAt(tr, acts, o.found, o.c, o.req) && FreeAt(tr, acts, o.checked, o.c, o.req, o.b)
    && CommittedAt(tr, acts, o.committed, o.c, o.req, o.b, r)
    && row.eventId == o.req.eventId && row.userId == o.req.userId && row.key == o.req.key
    && row.seats == Elements(o.req.seatIds) && row.total == o.b.total && row.createdAt == o.b.createdAt
  }

  lemma NewFromCreate(db: Db, k: Commit, r: Id)
    requires r in Apply(db, k).reservations && r !in db.reservations
    ensures k.Create? && k.rid == r && Apply(db, k).reservations[r] == RowOf(k.b)
  {
    hide NumbersUnique, KeyTaken;
  }

  lemma CreateIsMove(w: World, a: Action)
    requires Enabled(w, a) && CommitOf(w, a).Some? && CommitOf(w, a).value.Create?
    ensures a.Move? && a.c in w.clients && w.clients[a.c].CreateTx? && w.clients[a.c].b == CommitOf(w, a).value.b
  {
    hide Agrees, Possible;
  }

  /** In every run: a stored reservation was committed by a client that at an earlier step of its own found all its
      seats available and priced them, and before that found its event open; it is what that client asked for. */
  lemma {:induction false} BookedFrom(tr: seq<World>, acts: seq<Action>, n: nat, r: Id)
    requires Run(tr, acts) && n < |tr| && r in tr[n].sh.db.reservations
    ensures exists o :: ComesFrom(tr, acts, n, r, tr[n].sh.db.reservations[r], o)
    decreases n
  {
    hide Step, Enabled, Apply, Agrees, CommitOf, OpenAt, FreeAt, Sound;
    if n > 0 {
      var w, a := tr[n - 1], acts[n - 1];
      assert tr[n] == Step(w, a) && Enabled(w, a);
      Safety.StepDb(w, a);
      if r in w.sh.db.reservations {
        BookedFrom(tr, acts, n - 1, r);
        Safety.TermsKept(tr, acts, n - 1, n);
        var o :| ComesFrom(tr, acts, n - 1, r, w.sh.db.reservations[r], o);
        assert ComesFrom(tr, acts, n, r, tr[n].sh.db.reservations[r], o);
      } else {
        var k := CommitOf(w, a).value;
        NewFromCreate(w.sh.db, k, r);
        CreateIsMove(w, a);
        RunPrepared(tr, acts, n - 1, a.c);
        var req := w.clients[a.c].req;
        var i: nat, j: nat :| i < j < n - 1 && OpenAt(tr, acts, i, a.c, req) && FreeAt(tr, acts, j, a.c, req, k.b);
        DraftOf(tr, acts, j, a.c, req, k.b);
        assert CommittedAt(tr, acts, n - 1, a.c, req, k.b, r);
        assert ComesFrom(tr, acts, n, r, tr[n].sh.db.reservations[r], Origin(a.c, req, k.b, i, j, n - 1));
      }
    }
  }

  lemma DraftOf(tr: seq<World>, acts: seq<Action>, j: nat, c: nat, req: Request, b: Booking)
    requires |tr| == |acts| + 1 && FreeAt(tr, acts, j, c, req, b)
    ensures b.eventId == req.eventId && b.userId == req.userId && b.key == req.key && b.seatIds == req.seatIds
  {
  }
}
