/**
 The sweep in the middle of everything else: one transaction per item, other clients moving between any two.
 What its count means, what it clears, and how long a reservation can stay pending.
 */
module SweepRuns {
  import opened Domain
  import opened Database
  import opened Invariants
  import opened Protocol
  import opened Sweep
  import opened Locking
  import Safety

  /** Client `c` started a sweep at step `i`, and in state `n` is still in it or has just finished it. */
  ghost predicate Sweeping(tr: seq<World>, acts: seq<Action>, c: nat, expireAfter: int, i: nat, n: nat) {
    && |tr| == |acts| + 1 && i < n < |tr|
    && c in tr[i].clients && tr[i].clients[c] == SweepCheck(expireAfter)
    && acts[i].Move? && acts[i].c == c && acts[i].ch.Rows?
    && forall k :: i < k <= n ==> c in tr[k].clients && InSweep(tr[k].clients[c])
  }

  predicate InSweep(pc: Client) { pc.SweepTx? || (pc.Returned? && pc.out.Swept?) }

  function CountOf(pc: Client): nat
    requires InSweep(pc)
  {
    if pc.SweepTx? then pc.count else pc.out.count
  }

  /** The reservations that client `c` moved from pending to cancelled between states `i` and `n`. */
  ghost function MovedBy(tr: seq<World>, acts: seq<Action>, c: nat, i: nat, n: nat): set<Id>
    requires |tr| == |acts| + 1 && i <= n < |tr|
    decreases n
  {
    if i == n then {}
    else MovedBy(tr, acts, c, i, n - 1) + if Moves(acts[n - 1], c) then Moved(tr[n - 1].sh.db, tr[n].sh.db) else {}
  }

  /** How many transactions of client `c` between these states committed on a reservation no longer pending. */
  ghost function StaleBy(tr: seq<World>, acts: seq<Action>, c: nat, i: nat, n: nat): nat
    requires |tr| == |acts| + 1 && i <= n < |tr|
    decreases n
  {
    if i == n then 0
    else StaleBy(tr, acts, c, i, n - 1)
         + if Moves(acts[n - 1], c) && !Safety.FreshCommit(tr[n - 1], acts[n - 1]) then 1 else 0
  }

  lemma CancelMoves(db: Db, b: Booking)
    requires SnapshotAgrees(db, b) && b.status == Cancelled
    ensures Execute(db, Cancel(b)).Ok?
    ensures Moved(db, Apply(db, Cancel(b))) == if db.reservations[b.id].status == Pending then {b.id} else {}
    ensures SettledIn(Apply(db, Cancel(b)), b.id)
  {
    CancelledTables(db, b);
  }

  /** One step of a sweeping client. */
  lemma ItemStep(w: World, a: Action, c: nat)
    requires Sound(w) && Enabled(w, a) && Moves(a, c) && c in w.clients && w.clients[c].SweepTx?
    ensures var pc, next := w.clients[c], Step(w, a);
            if CommitOf(w, a).Some? then
              && |pc.todo| > 0 && CommitOf(w, a) == Some(Cancel(pc.todo[0].(status := Cancelled)))
              && next.clients[c] == SweepTx(pc.todo[1..], pc.count + 1)
              && Moved(w.sh.db, next.sh.db) == (if Safety.FreshCommit(w, a) then {pc.todo[0].id} else {})
              && SettledIn(next.sh.db, pc.todo[0].id)
            else
              && next.sh.db == w.sh.db && Safety.FreshCommit(w, a)
              && InSweep(next.clients[c]) && CountOf(next.clients[c]) == pc.count
  {
    hide Execute, Possible, CreateStep, ReadStep, Wf;
    var pc := w.clients[c];
    assert ClientOk(w.sh.db, pc);
    if CommitOf(w, a).Some? {
      CancelMoves(w.sh.db, pc.todo[0].(status := Cancelled));
    }
  }

  /** The count a sweep carries is the number of reservations it moved from pending to cancelled plus the number of its
      stale commits: it is exact, item by item and whatever other clients do, precisely as long as its commits are
      fresh. */
  lemma {:induction false} SweepCount(tr: seq<World>, acts: seq<Action>, c: nat, expireAfter: int, i: nat, n: nat)
    requires Run(tr, acts) && Sweeping(tr, acts, c, expireAfter, i, n)
    ensures CountOf(tr[n].clients[c]) == |MovedBy(tr, acts, c, i, n)| + StaleBy(tr, acts, c, i, n)
    ensures forall r :: r in MovedBy(tr, acts, c, i, n) ==> SettledIn(tr[n].sh.db, r)
    decreases n
  {
    hide Step, Enabled, Sound, Initial, SettledIn, Safety.FreshCommit;
    var w, a := tr[n - 1], acts[n - 1];
    assert tr[n] == Step(w, a) && Enabled(w, a);
    Safety.RunSound(tr, acts, n - 1);
    if n - 1 == i {
      SweepStarts(w, a, c);
      assert MovedBy(tr, acts, c, i, i) == {} && StaleBy(tr, acts, c, i, i) == 0;
      NothingMoves(w.sh.db);
    } else {
      SweepCount(tr, acts, c, expireAfter, i, n - 1);
      Safety.StepSettled(w, a);
      SweepGoesOn(w, a, c);
      if Moves(a, c) {
        ItemStep(w, a, c);
        NothingMoves(w.sh.db);
        if CommitOf(w, a).Some? { NotMovedYet(w, tr[n], w.clients[c].todo[0].id, MovedBy(tr, acts, c, i, n - 1)); }
      }
    }
  }

  lemma NothingMoves(db: Db)
    ensures Moved(db, db) == {}
  {
  }

  lemma NotMovedYet(w: World, next: World, r: Id, moved: set<Id>)
    requires forall q :: q in moved ==> SettledIn(w.sh.db, q)
    ensures r in Moved(w.sh.db, next.sh.db) ==> r !in moved
  {
  }

  lemma SweepStarts(w: World, a: Action, c: nat)
    requires Sound(w) && Enabled(w, a) && Moves(a, c) && a.ch.Rows? && c in w.clients && w.clients[c].SweepCheck?
    ensures Step(w, a).clients[c] == SweepTx(a.ch.rows, 0) && Step(w, a).sh == w.sh && Safety.FreshCommit(w, a)
    ensures ExpiredRows(w.sh.db, w.sh.now - w.clients[c].expireAfter, a.ch.rows)
  {
    hide ExpiredRows, Execute, CreateStep, ReadStep, Wf, ClientOk, Load;
  }

  /** A step of anybody else leaves the sweeping client where it is, and a finished sweep makes no more steps. */
  lemma SweepGoesOn(w: World, a: Action, c: nat)
    requires Enabled(w, a) && c in w.clients && InSweep(w.clients[c]) && c in Step(w, a).clients
    ensures if Moves(a, c) then w.clients[c].SweepTx? else Step(w, a).clients[c] == w.clients[c]
  {
    hide ClientStep, Apply;
  }

  /** In a fresh run the count is exact. */
  lemma FreshSweepCount(tr: seq<World>, acts: seq<Action>, c: nat, expireAfter: int, i: nat, n: nat)
    requires Safety.FreshRun(tr, acts) && Sweeping(tr, acts, c, expireAfter, i, n)
    ensures CountOf(tr[n].clients[c]) == |MovedBy(tr, acts, c, i, n)|
  {
    hide Step, Enabled, Initial, Safety.FreshCommit;
    SweepCount(tr, acts, c, expireAfter, i, n);
    NoneStale(tr, acts, c, i, n);
  }

  lemma {:induction false} NoneStale(tr: seq<World>, acts: seq<Action>, c: nat, i: nat, n: nat)
    requires |tr| == |acts| + 1 && i <= n < |tr| && forall k :: 0 <= k < |acts| ==> Safety.FreshCommit(tr[k], acts[k])
    ensures StaleBy(tr, acts, c, i, n) == 0
    decreases n
  {
    hide Safety.FreshCommit;
    if i < n { NoneStale(tr, acts, c, i, n - 1); }
  }

  // ---------------------------------------------------------------- the sweeps of a worker's life

  /** A sweep by client `c`, from step `i` to state `n`. */
  datatype Span = Span(c: nat, expireAfter: int, i: nat, n: nat)

  /** Sweeps in one run, one after the other or overlapping, each by a client of its own. */
  ghost predicate Spans(tr: seq<World>, acts: seq<Action>, ss: seq<Span>) {
    && |tr| == |acts| + 1
    && (forall m :: 0 <= m < |ss| ==> Sweeping(tr, acts, ss[m].c, ss[m].expireAfter, ss[m].i, ss[m].n))
    && (forall l, m :: 0 <= l < m < |ss| ==> ss[l].c != ss[m].c)
  }

  ghost function Reported(tr: seq<World>, acts: seq<Action>, ss: seq<Span>): nat
    requires Spans(tr, acts, ss)
  {
    if |ss| == 0 then 0
    else Reported(tr, acts, ss[..|ss| - 1]) + CountOf(tr[ss[|ss| - 1].n].clients[ss[|ss| - 1].c])
  }

  ghost function MovedByAll(tr: seq<World>, acts: seq<Action>, ss: seq<Span>): set<Id>
    requires Spans(tr, acts, ss)
  {
    if |ss| == 0 then {}
    else
      var s := ss[|ss| - 1];
      MovedByAll(tr, acts, ss[..|ss| - 1]) + MovedBy(tr, acts, s.c, s.i, s.n)
  }

  ghost function StaleByAll(tr: seq<World>, acts: seq<Action>, ss: seq<Span>): nat
    requires Spans(tr, acts, ss)
  {
    if |ss| == 0 then 0
    else
      var s := ss[|ss| - 1];
      StaleByAll(tr, acts, ss[..|ss| - 1]) + StaleBy(tr, acts, s.c, s.i, s.n)
  }

  /** At step `k` client `c` moved `r` from pending to cancelled. */
  ghost predicate MovedAt(tr: seq<World>, acts: seq<Action>, c: nat, k: nat, r: Id)
    requires |tr| == |acts| + 1
  {
    k < |acts| && Moves(acts[k], c) && r in Moved(tr[k].sh.db, tr[k + 1].sh.db)
  }

  lemma {:induction false} MovedSomewhere(tr: seq<World>, acts: seq<Action>, c: nat, i: nat, n: nat, r: Id)
    requires |tr| == |acts| + 1 && i <= n < |tr| && r in MovedBy(tr, acts, c, i, n)
    ensures exists k: nat :: MovedAt(tr, acts, c, k, r)
    decreases n
  {
    if r in MovedBy(tr, acts, c, i, n - 1) {
      MovedSomewhere(tr, acts, c, i, n - 1, r);
    } else {
      assert MovedAt(tr, acts, c, n - 1, r);
    }
  }

  /** No two clients move the same reservation. */
  lemma MovedOnce(tr: seq<World>, acts: seq<Action>, c: nat, k: nat, d: nat, l: nat, r: Id)
    requires Run(tr, acts) && MovedAt(tr, acts, c, k, r) && MovedAt(tr, acts, d, l, r)
    ensures c == d
  {
    hide Step, Enabled, Initial;
    assert SettledIn(tr[k + 1].sh.db, r) && SettledIn(tr[l + 1].sh.db, r);
    assert !SettledIn(tr[k].sh.db, r) && !SettledIn(tr[l].sh.db, r);
    if k < l { Safety.NeverPendingAgain(tr, acts, k + 1, l); }
    if l < k { Safety.NeverPendingAgain(tr, acts, l + 1, k); }
  }

  lemma MovedApart(tr: seq<World>, acts: seq<Action>, s: Span, t: Span)
    requires Run(tr, acts) && s.c != t.c && s.i <= s.n < |tr| && t.i <= t.n < |tr|
    ensures MovedBy(tr, acts, s.c, s.i, s.n) !! MovedBy(tr, acts, t.c, t.i, t.n)
  {
    hide Step, Enabled, Initial, MovedAt, MovedBy;
    forall r | r in MovedBy(tr, acts, s.c, s.i, s.n) ensures r !in MovedBy(tr, acts, t.c, t.i, t.n) {
      if r in MovedBy(tr, acts, t.c, t.i, t.n) {
        MovedSomewhere(tr, acts, s.c, s.i, s.n, r);
        MovedSomewhere(tr, acts, t.c, t.i, t.n, r);
        var k: nat :| MovedAt(tr, acts, s.c, k, r);
        var l: nat :| MovedAt(tr, acts, t.c, l, r);
        MovedOnce(tr, acts, s.c, k, t.c, l, r);
        assert false;
      }
    }
  }

  /** All sweeps of a worker's life together, item by item among everybody else, in every run: what they report is the
      number of reservations they moved from pending to cancelled, none counted twice, plus the number of their stale
      commits. */
  lemma {:induction false} WorkerCount(tr: seq<World>, acts: seq<Action>, ss: seq<Span>)
    requires Run(tr, acts) && Spans(tr, acts, ss)
    ensures Reported(tr, acts, ss) == |MovedByAll(tr, acts, ss)| + StaleByAll(tr, acts, ss)
    ensures forall t: Span :: t.i <= t.n < |tr| && (forall m :: 0 <= m < |ss| ==> ss[m].c != t.c) ==>
              MovedByAll(tr, acts, ss) !! MovedBy(tr, acts, t.c, t.i, t.n)
    decreases |ss|
  {
    hide Run, Sweeping;
    if |ss| > 0 {
      var rest, s := ss[..|ss| - 1], ss[|ss| - 1];
      InBounds(tr, acts, s);
      WorkerCount(tr, acts, rest);
      SweepCount(tr, acts, s.c, s.expireAfter, s.i, s.n);
      forall t: Span | t.i <= t.n < |tr| && forall m :: 0 <= m < |ss| ==> ss[m].c != t.c
        ensures MovedByAll(tr, acts, ss) !! MovedBy(tr, acts, t.c, t.i, t.n)
      {
        assert forall m :: 0 <= m < |rest| ==> rest[m].c == ss[m].c;
        assert ss[|ss| - 1].c != t.c;
        MovedApart(tr, acts, s, t);
      }
    }
  }

  lemma InBounds(tr: seq<World>, acts: seq<Action>, s: Span)
    requires Sweeping(tr, acts, s.c, s.expireAfter, s.i, s.n)
    ensures s.i < s.n < |tr| && s.c in tr[s.n].clients && InSweep(tr[s.n].clients[s.c])
  {
  }

  // ---------------------------------------------------------------- what a sweep without failures clears

  ghost predicate NoFailures(tr: seq<World>, acts: seq<Action>, c: nat, i: nat, n: nat)
    requires |tr| == |acts| + 1
  {
    forall k :: i < k < n && k < |acts| && Moves(acts[k], c) ==> !acts[k].ch.Fault?
  }

  /** Every reservation expired when the sweep began is settled, or still on the sweep's list. */
  ghost predicate Listed(db: Db, cutoff: int, now: Db, pc: Client) {
    && (forall r :: Expired(db, cutoff, r) ==>
          SettledIn(now, r) || (pc.SweepTx? && exists k :: 0 <= k < |pc.todo| && pc.todo[k].id == r))
    && (pc.SweepTx? ==> forall k :: 0 <= k < |pc.todo| ==> pc.todo[k].status == Pending)
  }

  lemma ListedAtFirst(db: Db, cutoff: int, rows: seq<Booking>)
    requires ExpiredRows(db, cutoff, rows)
    ensures Listed(db, cutoff, db, SweepTx(rows, 0))
  {
  }

  lemma ListedKept(db: Db, cutoff: int, now: Db, next: Db, pc: Client)
    requires Listed(db, cutoff, now, pc) && forall r :: SettledIn(now, r) ==> SettledIn(next, r)
    ensures Listed(db, cutoff, next, pc)
  {
    hide SettledIn;
  }

  lemma ListedItem(db: Db, cutoff: int, w: World, a: Action, c: nat)
    requires Sound(w) && Enabled(w, a) && Moves(a, c) && c in w.clients && w.clients[c].SweepTx? && !a.ch.Fault?
    requires Listed(db, cutoff, w.sh.db, w.clients[c])
    requires forall r :: SettledIn(w.sh.db, r) ==> SettledIn(Step(w, a).sh.db, r)
    ensures Listed(db, cutoff, Step(w, a).sh.db, Step(w, a).clients[c])
  {
    hide Step, Enabled, Sound, SettledIn, Listed, Safety.FreshCommit, CommitOf;
    var pc := w.clients[c];
    ItemStep(w, a, c);
    if |pc.todo| > 0 {
      FirstPending(db, cutoff, w.sh.db, pc);
      ItemCommits(w, a, c);
      RestListed(db, cutoff, w.sh.db, Step(w, a).sh.db, pc.todo, pc.count);
    } else {
      LastStep(w, a, c);
      NoneLeft(db, cutoff, w.sh.db, pc, Step(w, a).clients[c]);
    }
  }

  lemma FirstPending(db: Db, cutoff: int, now: Db, pc: Client)
    requires Listed(db, cutoff, now, pc) && pc.SweepTx? && |pc.todo| > 0
    ensures pc.todo[0].status == Pending
  {
  }

  lemma NoneLeft(db: Db, cutoff: int, now: Db, pc: Client, next: Client)
    requires Listed(db, cutoff, now, pc) && pc.SweepTx? && |pc.todo| == 0 && next.Returned?
    ensures Listed(db, cutoff, now, next)
  {
    hide SettledIn;
  }

  lemma ItemCommits(w: World, a: Action, c: nat)
    requires Moves(a, c) && c in w.clients && w.clients[c].SweepTx? && !a.ch.Fault?
    requires |w.clients[c].todo| > 0 && w.clients[c].todo[0].status == Pending
    ensures CommitOf(w, a).Some?
  {
  }

  lemma LastStep(w: World, a: Action, c: nat)
    requires Moves(a, c) && c in w.clients && w.clients[c].SweepTx? && |w.clients[c].todo| == 0
    ensures CommitOf(w, a).None? && Step(w, a).sh == w.sh && c in Step(w, a).clients && Step(w, a).clients[c].Returned?
  {
    hide Execute;
  }

  lemma RestListed(db: Db, cutoff: int, now: Db, next: Db, todo: seq<Booking>, count: nat)
    requires |todo| > 0 && Listed(db, cutoff, now, SweepTx(todo, count)) && SettledIn(next, todo[0].id)
    requires forall r :: SettledIn(now, r) ==> SettledIn(next, r)
    ensures Listed(db, cutoff, next, SweepTx(todo[1..], count + 1))
  {
    hide SettledIn;
    var rest := todo[1..];
    forall r | Expired(db, cutoff, r) && !SettledIn(next, r) ensures exists k :: 0 <= k < |rest| && rest[k].id == r {
      var k :| 0 <= k < |todo| && todo[k].id == r;
      assert rest[k - 1].id == r;
    }
  }

  lemma {:induction false} SweepLists(tr: seq<World>, acts: seq<Action>, c: nat, expireAfter: int, i: nat, n: nat)
    requires Run(tr, acts) && Sweeping(tr, acts, c, expireAfter, i, n) && NoFailures(tr, acts, c, i, n)
    ensures Listed(tr[i].sh.db, tr[i].sh.now - expireAfter, tr[n].sh.db, tr[n].clients[c])
    decreases n
  {
    hide Step, Enabled, Sound, Initial, SettledIn, Listed;
    var w, a := tr[n - 1], acts[n - 1];
    assert tr[n] == Step(w, a) && Enabled(w, a);
    Safety.RunSound(tr, acts, n - 1);
    if n - 1 == i {
      SweepStarts(w, a, c);
      ListedAtFirst(w.sh.db, w.sh.now - expireAfter, a.ch.rows);
    } else {
      SweepLists(tr, acts, c, expireAfter, i, n - 1);
      Safety.StepSettled(w, a);
      SweepGoesOn(w, a, c);
      if Moves(a, c) {
        ListedItem(tr[i].sh.db, tr[i].sh.now - expireAfter, w, a, c);
      } else {
        ListedKept(tr[i].sh.db, tr[i].sh.now - expireAfter, w.sh.db, tr[n].sh.db, w.clients[c]);
      }
    }
  }

  /** Whatever others do meanwhile, fresh or stale: when a sweep without failures returns, nothing that was expired when
      it began is still pending. */
  lemma SweepClears(tr: seq<World>, acts: seq<Action>, c: nat, expireAfter: int, i: nat, n: nat, r: Id)
    requires Run(tr, acts) && Sweeping(tr, acts, c, expireAfter, i, n) && NoFailures(tr, acts, c, i, n)
    requires tr[n].clients[c].Returned? && Expired(tr[i].sh.db, tr[i].sh.now - expireAfter, r)
    ensures SettledIn(tr[n].sh.db, r)
  {
    hide Run, SettledIn, Expired;
    SweepLists(tr, acts, c, expireAfter, i, n);
  }

  // ---------------------------------------------------------------- how long a reservation can stay pending

  /** Every Create commits at most `delay` after the reservation was built. */
  ghost predicate CommitsWithin(tr: seq<World>, acts: seq<Action>, delay: int)
    requires |tr| == |acts| + 1
  {
    forall k :: 0 <= k < |acts| ==> CommitWithin(tr[k], acts[k], delay)
  }

  predicate CommitWithin(w: World, a: Action, delay: int) {
    CommitOf(w, a).Some? && CommitOf(w, a).value.Create? && Execute(w.sh.db, CommitOf(w, a).value).Ok? ==>
      CommitOf(w, a).value.b.createdAt >= w.sh.now - delay
  }

  lemma {:induction false} ClockForward(tr: seq<World>, acts: seq<Action>, i: nat, n: nat)
    requires Run(tr, acts) && i <= n < |tr|
    ensures tr[i].sh.now <= tr[n].sh.now
    decreases n
  {
    hide Enabled, Initial;
    if i < n {
      ClockForward(tr, acts, i, n - 1);
      StepClock(tr[n - 1], acts[n - 1]);
    }
  }

  lemma StepClock(w: World, a: Action)
    requires Enabled(w, a)
    ensures Step(w, a).sh.now >= w.sh.now
  {
    hide Execute, Apply, Tally, Possible, RedisLockKey, Load, CountAvailable;
  }

  lemma NewFromCreate(db: Db, k: Commit, r: Id)
    requires r in Apply(db, k).reservations && r !in db.reservations
    ensures k.Create? && Execute(db, k).Ok? && Apply(db, k).reservations[r].createdAt == k.b.createdAt
  {
    hide NumbersUnique, KeyTaken;
  }

  /** A reservation that appears between two states was built no longer than `delay` before the first. */
  lemma {:induction false} CreatedSince(tr: seq<World>, acts: seq<Action>, delay: int, i: nat, n: nat, r: Id)
    requires Run(tr, acts) && CommitsWithin(tr, acts, delay) && i <= n < |tr|
    requires r in tr[n].sh.db.reservations && r !in tr[i].sh.db.reservations
    ensures tr[n].sh.db.reservations[r].createdAt >= tr[i].sh.now - delay
    decreases n
  {
    hide Step, Enabled, Initial, Sound;
    var w, a := tr[n - 1], acts[n - 1];
    Safety.StepDb(w, a);
    if r in w.sh.db.reservations {
      CreatedSince(tr, acts, delay, i, n - 1, r);
      Safety.TermsKept(tr, acts, n - 1, n);
    } else {
      ClockForward(tr, acts, i, n - 1);
      assert CommitWithin(w, a, delay);
      NewFromCreate(w.sh.db, CommitOf(w, a).value, r);
    }
  }

  function Longer(a: int, b: int): int { if a >= b then a else b }

  /** Once a sweep that began at step `i` has returned without failures, no reservation is pending for longer than the
      time since that step plus the longer of the expiry time and the commit delay. */
  lemma PendingSinceSweep(tr: seq<World>, acts: seq<Action>, c: nat, expireAfter: int, delay: int, i: nat, j: nat,
          n: nat, r: Id)
    requires Run(tr, acts) && CommitsWithin(tr, acts, delay) && j <= n < |tr|
    requires Sweeping(tr, acts, c, expireAfter, i, j) && NoFailures(tr, acts, c, i, j) && tr[j].clients[c].Returned?
    requires r in tr[n].sh.db.reservations && tr[n].sh.db.reservations[r].status == Pending
    ensures tr[n].sh.db.reservations[r].createdAt >= tr[i].sh.now - Longer(expireAfter, delay)
  {
    hide Run, CommitsWithin, NoFailures;
    if r in tr[i].sh.db.reservations {
      Safety.TermsKept(tr, acts, i, n);
      Safety.NeverPendingAgain(tr, acts, i, n);
      Safety.NeverPendingAgain(tr, acts, j, n);
      if Expired(tr[i].sh.db, tr[i].sh.now - expireAfter, r) {
        SweepClears(tr, acts, c, expireAfter, i, j, r);
      }
      assert !SettledIn(tr[i].sh.db, r);
    } else {
      CreatedSince(tr, acts, delay, i, n, r);
    }
  }

  /** A finished sweep without failures that took at most `duration`. */
  ghost predicate SweptInTime(tr: seq<World>, acts: seq<Action>, c: nat, expireAfter: int, duration: int, i: nat,
          j: nat) {
    && Sweeping(tr, acts, c, expireAfter, i, j) && NoFailures(tr, acts, c, i, j) && tr[j].clients[c].Returned?
    && tr[j].sh.now <= tr[i].sh.now + duration
  }

  /** The hold-time bound over runs.  Two sweeps in a row begin at most `interval` apart and take at most `duration`:
      from the return of the first to the return of the second nothing stays pending longer than the interval, the
      duration and the longer of the expiry time and the commit delay together. */
  lemma HoldTimeBetweenSweeps(tr: seq<World>, acts: seq<Action>, c: nat, d: nat, expireAfter: int, delay: int,
                              interval: int, duration: int, i: nat, j: nat, i': nat, j': nat, n: nat, r: Id)
    requires Run(tr, acts) && CommitsWithin(tr, acts, delay)
    requires SweptInTime(tr, acts, c, expireAfter, duration, i, j)
              && SweptInTime(tr, acts, d, expireAfter, duration, i', j')
    requires tr[i'].sh.now <= tr[i].sh.now + interval && j <= n <= j'
    requires r in tr[n].sh.db.reservations && tr[n].sh.db.reservations[r].status == Pending
    ensures tr[n].sh.now - tr[n].sh.db.reservations[r].createdAt <= interval + duration + Longer(expireAfter, delay)
  {
    hide Run, CommitsWithin, Sweeping, NoFailures;
    SpanOf(tr, acts, c, expireAfter, duration, i, j);
    SpanOf(tr, acts, d, expireAfter, duration, i', j');
    PendingSinceSweep(tr, acts, c, expireAfter, delay, i, j, n, r);
    ClockForward(tr, acts, n, j');
  }

  lemma SpanOf(tr: seq<World>, acts: seq<Action>, c: nat, expireAfter: int, duration: int, i: nat, j: nat)
    requires SweptInTime(tr, acts, c, expireAfter, duration, i, j)
    ensures |tr| == |acts| + 1 && i < j < |tr|
  {
  }

  // ---------------------------------------------------------------- the commit delay under the lock

  /** A held lock was taken at most its lifetime before its deadline, and a draft made under it is no older. */
  predicate TakenSince(now: int, pc: Client) {
    HeldLock(pc).Some? ==>
      var taken := HeldLock(pc).value.deadline - LOCK_TTL;
      taken <= now && (pc.CreateTx? ==> taken <= pc.b.createdAt)
  }

  lemma MovedTaken(sh: Shared, pc: Client, ch: Choice)
    requires TakenSince(sh.now, pc)
    ensures TakenSince(sh.now, ClientStep(sh, pc, ch).pc)
  {
    hide Execute, Tally, RedisLockKey, CountAvailable;
  }

  lemma {:induction false} RunTaken(tr: seq<World>, acts: seq<Action>, n: nat, c: nat)
    requires Run(tr, acts) && n < |tr| && c in tr[n].clients
    ensures TakenSince(tr[n].sh.now, tr[n].clients[c])
  {
    hide ClientStep, Possible, Apply, Agrees;
    if n > 0 {
      var w, a := tr[n - 1], acts[n - 1];
      ClockForward(tr, acts, n - 1, n);
      if Moves(a, c) {
        RunTaken(tr, acts, n - 1, c);
        MovedTaken(w.sh, w.clients[c], a.ch);
        assert tr[n].clients[c] == ClientStep(w.sh, w.clients[c], a.ch).pc;
      } else if !(a.Begin? && a.c == c) {
        Safety.OthersStay(w, a, c);
        RunTaken(tr, acts, n - 1, c);
      }
    }
  }

  /** With the lock on and every client in time, a reservation is committed within the lock's ten seconds. */
  lemma PunctualCommits(tr: seq<World>, acts: seq<Action>)
    requires Run(tr, acts) && forall k :: 0 <= k < |tr| ==> Punctual(tr[k])
    ensures CommitsWithin(tr, acts, 10 * 1000)
  {
    hide Step, Possible, Agrees, Initial, LocksOk;
    forall k | 0 <= k < |acts| ensures CommitWithin(tr[k], acts[k], 10 * 1000) {
      if CommitOf(tr[k], acts[k]).Some? && CommitOf(tr[k], acts[k]).value.Create? && acts[k].Move? {
        RunTaken(tr, acts, k, acts[k].c);
        HasLock(tr, acts, k, acts[k].c);
        assert Punctual(tr[k]) && BeforeDeadline(tr[k].sh.now, tr[k].clients[acts[k].c]);
      }
    }
  }

  lemma HasLock(tr: seq<World>, acts: seq<Action>, k: nat, c: nat)
    requires Run(tr, acts) && k < |tr| && tr[k].sh.lockOn && c in tr[k].clients && InSection(tr[k].clients[c])
    ensures tr[k].clients[c].lock.Some?
  {
    hide Run;
    RunLocksOk(tr, acts, k);
    assert HolderOk(tr[k].sh, tr[k].clients[c]);
  }

  /** As deployed, a sweep every minute of what is older than fifteen: with the lock on and clients in time nothing
      stays pending longer than sixteen minutes plus the time one sweep takes. */
  lemma DeployedHoldTime(tr: seq<World>, acts: seq<Action>, c: nat, d: nat, duration: int,
                         i: nat, j: nat, i': nat, j': nat, n: nat, r: Id)
    requires Run(tr, acts) && forall k :: 0 <= k < |tr| ==> Punctual(tr[k])
    requires SweptInTime(tr, acts, c, 15 * MINUTE, duration, i, j)
              && SweptInTime(tr, acts, d, 15 * MINUTE, duration, i', j')
    requires tr[i'].sh.now <= tr[i].sh.now + 1 * MINUTE && j <= n <= j'
    requires r in tr[n].sh.db.reservations && tr[n].sh.db.reservations[r].status == Pending
    ensures tr[n].sh.now - tr[n].sh.db.reservations[r].createdAt <= 16 * MINUTE + duration
  {
    hide Run, Punctual, SweptInTime;
    PunctualCommits(tr, acts);
    HoldTimeBetweenSweeps(tr, acts, c, d, 15 * MINUTE, 10 * 1000, 1 * MINUTE, duration, i, j, i', j', n, r);
  }
}
