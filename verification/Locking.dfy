/**
 What the Redis lock is worth.  It excludes two holders of one key until a deadline passes, whatever happens;
 and for requests over equal or disjoint seat sets it makes the availability pre-check authoritative.
 */
module Locking {
  import opened Sums
  import opened Domain
  import opened SeatTable
  import opened Database
  import opened Invariants
  import opened Redis
  import opened Protocol
  import Safety
  import LockKey

  /** Between taking the lock and having released it. */
  predicate InSection(pc: Client) {
    pc.EventCheck? || pc.SeatCheck? || pc.CreateTx? || pc.CreateInvalidate? || pc.Unlock?
  }

  function HeldLock(pc: Client): Option<Held> {
    if InSection(pc) then pc.lock else None
  }

  /** A holder's entry is in Redis, with its token, until its deadline; an entry with its token has that deadline. */
  ghost predicate HolderOk(sh: Shared, pc: Client) {
    && (InSection(pc) && sh.lockOn ==> pc.lock.Some?)
    && (HeldLock(pc).Some? ==>
          var h := HeldLock(pc).value;
          && h.token in sh.tokens && h.key == RedisLockKey(pc.req.seatIds)
          && (sh.now < h.deadline ==> h.key in sh.locks && sh.locks[h.key].token == h.token)
          && (h.key in sh.locks && sh.locks[h.key].token == h.token ==> sh.locks[h.key].expiry == At(h.deadline)))
  }

  ghost predicate TokensDiffer(p: Client, q: Client) {
    HeldLock(p).Some? && HeldLock(q).Some? ==> HeldLock(p).value.token != HeldLock(q).value.token
  }

  ghost predicate LocksOk(w: World) {
    && (forall key :: key in w.sh.locks ==> w.sh.locks[key].token in w.sh.tokens)
    && (forall c :: c in w.clients ==> HolderOk(w.sh, w.clients[c]))
    && (forall c, d :: c in w.clients && d in w.clients && c != d ==> TokensDiffer(w.clients[c], w.clients[d]))
  }

  /** What a client's own step may do to locks and tokens: write a new token, or remove its own entry. */
  ghost predicate LockStepOk(sh: Shared, pc: Client, e: Effect) {
    && e.sh.now == sh.now && e.sh.lockOn == sh.lockOn && sh.tokens <= e.sh.tokens
    && HolderOk(e.sh, e.pc)
    && (HeldLock(e.pc).Some? ==> HeldLock(e.pc) == HeldLock(pc) || HeldLock(e.pc).value.token !in sh.tokens)
    && (forall key :: key in e.sh.locks ==> e.sh.locks[key].token in e.sh.tokens)
    && (forall key :: key in e.sh.locks ==> OldOrNew(sh, e.sh, key))
    && (forall key :: LockLive(sh, key) ==> KeptOrOwn(sh, pc, e.sh, key))
  }

  predicate OldOrNew(sh: Shared, next: Shared, key: string)
    requires key in next.locks
  {
    (key in sh.locks && next.locks[key] == sh.locks[key]) || next.locks[key].token !in sh.tokens
  }

  predicate KeptOrOwn(sh: Shared, pc: Client, next: Shared, key: string)
    requires LockLive(sh, key)
  {
    || (key in next.locks && next.locks[key] == sh.locks[key])
    || (HeldLock(pc).Some? && sh.locks[key].token == HeldLock(pc).value.token)
  }

  lemma CreateLocks(sh: Shared, pc: Client, ch: Choice)
    requires Creating(pc) && Possible(sh, pc, ch) && HolderOk(sh, pc)
    requires forall key :: key in sh.locks ==> sh.locks[key].token in sh.tokens
    ensures LockStepOk(sh, pc, CreateStep(sh, pc, ch))
  {
    hide Execute, Tally, RedisLockKey, Lists, KeyTaken, Load;
  }

  lemma OtherServices(sh: Shared, pc: Client, ch: Choice)
    requires !Creating(pc)
    ensures var e := ClientStep(sh, pc, ch);
            e.sh == sh.(db := e.sh.db, cache := e.sh.cache) && !InSection(e.pc)
  {
    hide Execute, CountAvailable, Load;
  }

  lemma StepLocks(sh: Shared, pc: Client, ch: Choice)
    requires Possible(sh, pc, ch) && HolderOk(sh, pc)
    requires forall key :: key in sh.locks ==> sh.locks[key].token in sh.tokens
    ensures LockStepOk(sh, pc, ClientStep(sh, pc, ch))
  {
    hide Possible, CreateStep, ReadStep, SettleStep;
    if Creating(pc) { CreateLocks(sh, pc, ch); } else { OtherServices(sh, pc, ch); }
  }

  /** Steps of one client cannot take away another's live lock. */
  lemma OtherHolderOk(sh: Shared, next: Shared, mover: Client, other: Client)
    requires HolderOk(sh, other) && TokensDiffer(mover, other)
    requires next.now == sh.now && next.lockOn == sh.lockOn && sh.tokens <= next.tokens
    requires forall key :: key in next.locks ==> OldOrNew(sh, next, key)
    requires forall key :: LockLive(sh, key) ==> KeptOrOwn(sh, mover, next, key)
    ensures HolderOk(next, other)
  {
    if HeldLock(other).Some? && sh.now < HeldLock(other).value.deadline {
      assert LockLive(sh, HeldLock(other).value.key);
    }
  }

  lemma MoveLocksOk(w: World, c: nat, ch: Choice)
    requires LocksOk(w) && c in w.clients && Possible(w.sh, w.clients[c], ch)
    ensures LocksOk(Step(w, Move(c, ch)))
  {
    hide ClientStep, Possible, HolderOk;
    var e := ClientStep(w.sh, w.clients[c], ch);
    StepLocks(w.sh, w.clients[c], ch);
    forall d | d in w.clients && d != c ensures HolderOk(e.sh, w.clients[d]) && TokensDiffer(e.pc, w.clients[d]) {
      assert TokensDiffer(w.clients[c], w.clients[d]);
      OtherHolderOk(w.sh, e.sh, w.clients[c], w.clients[d]);
      HolderToken(w.sh, w.clients[d]);
    }
  }

  lemma HolderToken(sh: Shared, pc: Client)
    requires HolderOk(sh, pc)
    ensures HeldLock(pc).Some? ==> HeldLock(pc).value.token in sh.tokens
  {
  }

  lemma StepLocksOk(w: World, a: Action)
    requires LocksOk(w) && Enabled(w, a)
    ensures LocksOk(Step(w, a)) && Step(w, a).sh.lockOn == w.sh.lockOn
  {
    hide ClientStep, Possible, Agrees, Apply, RedisLockKey;
    if a.Move? {
      MoveLocksOk(w, a.c, a.ch);
      StepLocks(w.sh, w.clients[a.c], a.ch);
    }
  }

  lemma {:induction false} RunLocksOk(tr: seq<World>, acts: seq<Action>, i: nat)
    requires Run(tr, acts) && i < |tr|
    ensures LocksOk(tr[i]) && tr[i].sh.lockOn == tr[0].sh.lockOn
  {
    hide Step, Enabled, LocksOk;
    if i > 0 {
      RunLocksOk(tr, acts, i - 1);
      StepLocksOk(tr[i - 1], acts[i - 1]);
    } else {
      InitialLocksOk(tr[0]);
    }
  }

  lemma InitialLocksOk(w: World)
    requires Initial(w)
    ensures LocksOk(w)
  {
  }

  /** Before either deadline, two clients never hold locks on the same seats, in any run at all. */
  lemma MutualExclusion(tr: seq<World>, acts: seq<Action>, i: nat, c: nat, d: nat)
    requires Run(tr, acts) && i < |tr| && c in tr[i].clients && d in tr[i].clients && c != d
    requires HeldLock(tr[i].clients[c]).Some? && tr[i].sh.now < HeldLock(tr[i].clients[c]).value.deadline
    requires HeldLock(tr[i].clients[d]).Some? && tr[i].sh.now < HeldLock(tr[i].clients[d]).value.deadline
    ensures multiset(tr[i].clients[c].req.seatIds) != multiset(tr[i].clients[d].req.seatIds)
    ensures HeldLock(tr[i].clients[c]).value.key != HeldLock(tr[i].clients[d]).value.key
  {
    hide Run, Step;
    RunLocksOk(tr, acts, i);
    NoSharedKey(tr[i], c, d);
  }

  lemma NoSharedKey(w: World, c: nat, d: nat)
    requires LocksOk(w) && c in w.clients && d in w.clients && c != d
    requires HeldLock(w.clients[c]).Some? && w.sh.now < HeldLock(w.clients[c]).value.deadline
    requires HeldLock(w.clients[d]).Some? && w.sh.now < HeldLock(w.clients[d]).value.deadline
    ensures multiset(w.clients[c].req.seatIds) != multiset(w.clients[d].req.seatIds)
    ensures HeldLock(w.clients[c]).value.key != HeldLock(w.clients[d]).value.key
  {
    var p, q := w.clients[c], w.clients[d];
    assert HolderOk(w.sh, p) && HolderOk(w.sh, q) && TokensDiffer(p, q);
    if multiset(p.req.seatIds) == multiset(q.req.seatIds) {
      LockKey.SameSeatsSameKey(p.req.seatIds, q.req.seatIds);
    }
  }

  /** In every run, giving a lock back removes the client's own entry and no other; after its deadline it removes
      nothing, whoever has taken the key since. */
  lemma UnlockOwnOnly(tr: seq<World>, acts: seq<Action>, i: nat)
    requires Run(tr, acts) && i < |acts| && acts[i].Move? && acts[i].c in tr[i].clients
    requires tr[i].clients[acts[i].c].Unlock? && tr[i].clients[acts[i].c].lock.Some?
    ensures var h := tr[i].clients[acts[i].c].lock.value;
            && tr[i + 1].sh == tr[i].sh.(locks := tr[i + 1].sh.locks)
            && (tr[i].sh.now >= h.deadline || acts[i].ch.Fault? ==> tr[i + 1].sh == tr[i].sh)
            && (forall key :: key in tr[i].sh.locks && tr[i].sh.locks[key].token != h.token ==>
                  key in tr[i + 1].sh.locks && tr[i + 1].sh.locks[key] == tr[i].sh.locks[key])
            && (tr[i].sh.now < h.deadline && !acts[i].ch.Fault? ==> h.key !in tr[i + 1].sh.locks)
  {
    hide Initial, RedisLockKey;
    RunLocksOk(tr, acts, i);
    assert HolderOk(tr[i].sh, tr[i].clients[acts[i].c]);
    assert tr[i + 1] == Step(tr[i], acts[i]);
  }

  // ---------------------------------------------------------------- the pre-check

  predicate SameOrDisjoint(p: Request, q: Request) {
    Elements(p.seatIds) == Elements(q.seatIds) || Elements(p.seatIds) !! Elements(q.seatIds)
  }

  predicate BeforeDeadline(now: int, pc: Client) {
    (pc.EventCheck? || pc.SeatCheck? || pc.CreateTx?) && pc.lock.Some? ==> now < pc.lock.value.deadline
  }

  /** Every creating client holds a lock that lives until its transaction, on a list without duplicates. */
  ghost predicate Punctual(w: World) {
    && w.sh.lockOn
    && (forall c :: c in w.clients && Creating(w.clients[c]) ==> Distinct(w.clients[c].req.seatIds))
    && (forall c :: c in w.clients ==> BeforeDeadline(w.sh.now, w.clients[c]))
  }

  /** Punctual, and no two requests overlap in part. */
  ghost predicate InTime(w: World) {
    && Punctual(w)
    && (forall c, d :: c in w.clients && d in w.clients && Creating(w.clients[c]) && Creating(w.clients[d]) ==>
          SameOrDisjoint(w.clients[c].req, w.clients[d].req))
  }

  /** What the pre-check saw is still so: each seat that still exists is available. */
  ghost predicate StillFree(db: Db, pc: Client) {
    pc.CreateTx? ==> forall s :: s in pc.req.seatIds && s in db.seats ==> db.seats[s].status == Available
  }

  /** Only a Create on the seat itself makes an available seat unavailable: not a stale Confirm, not a stale Cancel. */
  lemma StaysAvailable(db: Db, k: Commit, s: Id)
    requires Linked(db) && Agrees(db, k) && !(k.Create? && s in k.b.seatIds)
    requires s in db.seats ==> db.seats[s].status == Available
    ensures s in Apply(db, k).seats ==> Apply(db, k).seats[s].status == Available
  {
    hide Sum;
    if Catalogue(k) { CatalogueTables(db, k); }
  }

  /** Two clients about to commit, both in time, want disjoint seats. */
  lemma OthersDisjoint(w: World, c: nat, d: nat)
    requires LocksOk(w) && InTime(w) && c in w.clients && d in w.clients && c != d
    requires w.clients[c].CreateTx? && w.clients[d].CreateTx?
    ensures Elements(w.clients[c].req.seatIds) !! Elements(w.clients[d].req.seatIds)
  {
    hide RedisLockKey;
    var p, q := w.clients[c], w.clients[d];
    assert HolderOk(w.sh, p) && HolderOk(w.sh, q) && Creating(p) && Creating(q);
    assert SameOrDisjoint(p.req, q.req);
    if Elements(p.req.seatIds) == Elements(q.req.seatIds) {
      SameElementsSameMultiset(p.req.seatIds, q.req.seatIds);
      NoSharedKey(w, c, d);
    }
  }

  /** A client that just passed the pre-check saw its seats available. */
  lemma PreCheckSaw(sh: Shared, pc: Client, ch: Choice)
    requires Possible(sh, pc, ch) && !pc.CreateTx?
    ensures StillFree(ClientStep(sh, pc, ch).sh.db, ClientStep(sh, pc, ch).pc)
  {
    hide Execute, RedisLockKey, ExpiredRows, Lists, CountAvailable;
    if pc.SeatCheck? && Tally(SeatsOf(sh.db, pc.req.eventId), pc.req.seatIds).Ok? {
      Safety.TallySum(SeatsOf(sh.db, pc.req.eventId), pc.req.seatIds);
      SeatsBelongOrMissing(sh.db, pc.req.eventId, pc.req.seatIds);
    }
  }

  lemma SeatsBelongOrMissing(db: Db, e: Id, ids: seq<Id>)
    requires forall s :: s in ids ==> s in SeatsOf(db, e) && SeatsOf(db, e)[s].status == Available
    ensures forall s :: s in ids && s in db.seats ==> db.seats[s].status == Available
  {
  }

  lemma CommitterLeaves(sh: Shared, pc: Client, ch: Choice)
    requires pc.CreateTx?
    ensures !ClientStep(sh, pc, ch).pc.CreateTx?
  {
    hide Execute;
  }

  ghost predicate AllStillFree(w: World) {
    forall c :: c in w.clients ==> StillFree(w.sh.db, w.clients[c])
  }

  lemma OtherStillFree(w: World, a: Action, d: nat)
    requires Sound(w) && LocksOk(w) && InTime(w) && AllStillFree(w) && Enabled(w, a)
    requires d in w.clients && !(a.Move? && a.c == d)
    ensures StillFree(Step(w, a).sh.db, w.clients[d])
  {
    hide Step, Possible, Apply, HolderOk, TokensDiffer, Wf;
    Safety.StepDb(w, a);
    var pc := w.clients[d];
    assert StillFree(w.sh.db, pc);
    if pc.CreateTx? && CommitOf(w, a).Some? {
      var k := CommitOf(w, a).value;
      Safety.CommitAgrees(w, a);
      Safety.LinkedPart(w.sh.db);
      assert ClientOk(w.sh.db, pc);
      forall s | s in pc.req.seatIds && s in Step(w, a).sh.db.seats
        ensures Step(w, a).sh.db.seats[s].status == Available
      {
        if k.Create? {
          assert ClientOk(w.sh.db, w.clients[a.c]);
          OthersDisjoint(w, a.c, d);
          assert s in Elements(pc.req.seatIds);
          assert s !in k.b.seatIds by {
            assert forall x :: x in k.b.seatIds ==> x in Elements(w.clients[a.c].req.seatIds);
          }
        }
        StaysAvailable(w.sh.db, k, s);
      }
    }
  }

  lemma StepStillFree(w: World, a: Action)
    requires Sound(w) && LocksOk(w) && InTime(w) && AllStillFree(w) && Enabled(w, a)
    ensures AllStillFree(Step(w, a))
  {
    hide ClientStep, Apply, LocksOk, InTime, Sound, Agrees;
    forall d | d in Step(w, a).clients ensures StillFree(Step(w, a).sh.db, Step(w, a).clients[d]) {
      if a.Move? && a.c == d {
        if w.clients[d].CreateTx? {
          CommitterLeaves(w.sh, w.clients[d], a.ch);
        } else {
          PreCheckSaw(w.sh, w.clients[d], a.ch);
        }
      } else if !(a.Begin? && a.c == d) {
        OtherStillFree(w, a, d);
      }
    }
  }

  lemma {:induction false} RunStillFree(tr: seq<World>, acts: seq<Action>, i: nat)
    requires Run(tr, acts) && i < |tr| && forall j :: 0 <= j < i ==> InTime(tr[j])
    ensures AllStillFree(tr[i])
  {
    hide Step, Enabled, LocksOk, InTime, Sound, StillFree;
    if i > 0 {
      RunStillFree(tr, acts, i - 1);
      RunLocksOk(tr, acts, i - 1);
      Safety.RunSound(tr, acts, i - 1);
      StepStillFree(tr[i - 1], acts[i - 1]);
    }
  }

  /** A Create that saw all its seats available never fails at reserving them, however stale other commits are. */
  lemma PreCheckAuthoritative(tr: seq<World>, acts: seq<Action>, i: nat, c: nat, rid: Id)
    requires Run(tr, acts) && i < |tr| && forall j :: 0 <= j < i ==> InTime(tr[j])
    requires c in tr[i].clients && tr[i].clients[c].CreateTx?
    ensures Execute(tr[i].sh.db, Create(rid, tr[i].clients[c].b)) != Err(SeatAlreadyReserved)
  {
    hide Run, InTime, Wf;
    RunStillFree(tr, acts, i);
    Safety.RunSound(tr, acts, i);
    assert StillFree(tr[i].sh.db, tr[i].clients[c]) && ClientOk(tr[i].sh.db, tr[i].clients[c]);
    ReserveEffect(tr[i].sh.db.seats, tr[i].clients[c].b.seatIds, rid);
  }
}
