/**
 How stale a served seat count can be: the proof looks back along a run for the database read behind it.
 */
module Staleness {
  import opened Domain
  import opened Database
  import opened History
  import opened Redis
  import opened Protocol

  // ---------------------------------------------------------------- the available count

  /** At step `j` client `c` read the true count `n` of event `e` from the database, at time `t`. */
  ghost predicate CountRead(tr: seq<World>, acts: seq<Action>, j: nat, c: nat, e: Id, n: int, t: int)
    requires |tr| == |acts| + 1
  {
    && j < |acts| && acts[j].Move? && acts[j].c == c && c in tr[j].clients
    && tr[j].clients[c] == CountQuery(e)
    && tr[j].sh.now == t && |SeatsWith(tr[j].sh.db, e, Available)| == n
  }

  /** At step `k` client `c` stored that count in the cache. */
  ghost predicate CountStored(tr: seq<World>, acts: seq<Action>, k: nat, c: nat, e: Id, n: int, t: int, until: Expiry)
    requires |tr| == |acts| + 1
  {
    && k < |acts| && acts[k].Move? && acts[k].c == c && c in tr[k].clients
    && tr[k].clients[c] == CountSet(e, n, t)
    && until == At(tr[k].sh.now + CACHE_TTL)
  }

  ghost predicate PendingCount(tr: seq<World>, acts: seq<Action>, i: nat, c: nat)
    requires |tr| == |acts| + 1 && i < |tr|
  {
    c in tr[i].clients && tr[i].clients[c].CountSet? ==>
      var pc := tr[i].clients[c];
      exists j: nat :: j < i && CountRead(tr, acts, j, c, pc.e, pc.n, pc.readAt)
  }

  ghost predicate CachedCount(tr: seq<World>, acts: seq<Action>, i: nat, e: Id)
    requires |tr| == |acts| + 1 && i < |tr|
  {
    e in tr[i].sh.cache ==>
      var en := tr[i].sh.cache[e];
      exists j: nat, k: nat, c: nat :: j < k < i
        && CountRead(tr, acts, j, c, e, en.count, en.readAt)
        && CountStored(tr, acts, k, c, e, en.count, en.readAt, en.expiry)
  }

  /** A step changes the cache only by dropping entries or by storing the moving client's own count. */
  lemma CacheStep(w: World, a: Action, e: Id)
    requires Enabled(w, a) && e in Step(w, a).sh.cache
    ensures || (e in w.sh.cache && Step(w, a).sh.cache[e] == w.sh.cache[e])
            || (a.Move? && w.clients[a.c].CountSet? && w.clients[a.c].e == e
                && Step(w, a).sh.cache[e] == CacheEntry(w.clients[a.c].n, At(w.sh.now + CACHE_TTL),
                    w.clients[a.c].readAt))
  {
    hide Execute, Tally, RedisLockKey, Possible, Load, CountAvailable;
  }

  lemma CountStep(w: World, a: Action, c: nat)
    requires Enabled(w, a) && c in Step(w, a).clients && Step(w, a).clients[c].CountSet?
    ensures c in w.clients
    ensures || Step(w, a).clients[c] == w.clients[c]
            || (a.Move? && a.c == c && w.clients[c].CountQuery?
                && Step(w, a).clients[c] ==
                   CountSet(w.clients[c].e, |SeatsWith(w.sh.db, w.clients[c].e, Available)|, w.sh.now))
  {
    if c in w.clients && w.clients[c].CountQuery? { CountIsSeats(w.sh.db, w.clients[c].e); }
    hide Execute, Tally, RedisLockKey, Possible, Load, CountAvailable;
  }

  lemma {:induction false} PendingCountTrue(tr: seq<World>, acts: seq<Action>, i: nat, c: nat)
    requires Run(tr, acts) && i < |tr|
    ensures PendingCount(tr, acts, i, c)
  {
    hide Step, Enabled, SeatsWith;
    if i > 0 && c in tr[i].clients && tr[i].clients[c].CountSet? {
      var w, a := tr[i - 1], acts[i - 1];
      CountStep(w, a, c);
      var pc := tr[i].clients[c];
      if tr[i].clients[c] == w.clients[c] {
        PendingCountTrue(tr, acts, i - 1, c);
      } else {
        assert CountRead(tr, acts, i - 1, c, pc.e, pc.n, pc.readAt);
      }
    }
  }

  lemma {:induction false} CachedCountTrue(tr: seq<World>, acts: seq<Action>, i: nat, e: Id)
    requires Run(tr, acts) && i < |tr|
    ensures CachedCount(tr, acts, i, e)
  {
    hide Step, Enabled, SeatsWith;
    if i > 0 && e in tr[i].sh.cache {
      var w, a := tr[i - 1], acts[i - 1];
      CacheStep(w, a, e);
      if e in w.sh.cache && tr[i].sh.cache[e] == w.sh.cache[e] {
        CachedCountTrue(tr, acts, i - 1, e);
      } else {
        EnabledMoves(w, a);
        var pc, en := w.clients[a.c], tr[i].sh.cache[e];
        PendingCountTrue(tr, acts, i - 1, a.c);
        var j: nat :| j < i - 1 && CountRead(tr, acts, j, a.c, e, pc.n, pc.readAt);
        assert CountStored(tr, acts, i - 1, a.c, e, en.count, en.readAt, en.expiry);
      }
    }
  }

  lemma EnabledMoves(w: World, a: Action)
    requires Enabled(w, a) && a.Move?
    ensures a.c in w.clients
  {
  }

  /** A count served from the cache was the true count at a moment no further back than the entry's 30 seconds
      plus the time the client that cached it took from reading the database to writing the cache. */
  lemma BoundedStaleness(tr: seq<World>, acts: seq<Action>, i: nat, e: Id)
    requires Run(tr, acts) && i < |tr| && CacheLive(tr[i].sh, e)
    ensures exists j: nat, k: nat, c: nat :: j < k < i
              && CountRead(tr, acts, j, c, e, tr[i].sh.cache[e].count, tr[j].sh.now)
              && CountStored(tr, acts, k, c, e, tr[i].sh.cache[e].count, tr[j].sh.now, tr[i].sh.cache[e].expiry)
              && tr[j].sh.now > tr[i].sh.now - 30 * 1000 - (tr[k].sh.now - tr[j].sh.now)
  {
    hide Step, Enabled, SeatsWith;
    CachedCountTrue(tr, acts, i, e);
    var en := tr[i].sh.cache[e];
    var j: nat, k: nat, c: nat :| j < k < i && CountRead(tr, acts, j, c, e, en.count, en.readAt)
      && CountStored(tr, acts, k, c, e, en.count, en.readAt, en.expiry);
    assert tr[j].sh.now == en.readAt;
  }

  /** At step `k` a booking or a cancellation of event `e` reached its invalidation and Redis did not fail it. */
  ghost predicate Invalidated(tr: seq<World>, acts: seq<Action>, k: nat, e: Id)
    requires |tr| == |acts| + 1
  {
    && k < |acts| && acts[k].Move? && !acts[k].ch.Fault? && acts[k].c in tr[k].clients
    && var pc := tr[k].clients[acts[k].c];
       (pc.CreateInvalidate? && pc.req.eventId == e) || (pc.CancelInvalidate? && pc.b.eventId == e)
  }

  /** No cached count survives an invalidation: one found later was stored later, by a client that had it at hand. */
  lemma {:induction false} StoredSince(tr: seq<World>, acts: seq<Action>, k: nat, i: nat, e: Id)
    requires Run(tr, acts) && k < i < |tr| && Invalidated(tr, acts, k, e) && e in tr[i].sh.cache
    ensures var en := tr[i].sh.cache[e];
            exists m: nat, c: nat :: k < m < i && CountStored(tr, acts, m, c, e, en.count, en.readAt, en.expiry)
    decreases i
  {
    hide Step, Enabled;
    var w, a := tr[i - 1], acts[i - 1];
    CacheStep(w, a, e);
    if i == k + 1 {
      EntryDropped(w, a, e);
    } else if e in w.sh.cache && tr[i].sh.cache[e] == w.sh.cache[e] {
      StoredSince(tr, acts, k, i - 1, e);
    } else {
      EnabledMoves(w, a);
      var en := tr[i].sh.cache[e];
      assert CountStored(tr, acts, i - 1, a.c, e, en.count, en.readAt, en.expiry);
    }
  }

  lemma EntryDropped(w: World, a: Action, e: Id)
    requires a.Move? && !a.ch.Fault? && a.c in w.clients
    requires var pc := w.clients[a.c];
             (pc.CreateInvalidate? && pc.req.eventId == e) || (pc.CancelInvalidate? && pc.b.eventId == e)
    ensures e !in Step(w, a).sh.cache
  {
  }

  /** Every count a client is given comes from the live cache entry or from the database itself. */
  lemma ServedFrom(w: World, c: nat, ch: Choice)
    requires Enabled(w, Move(c, ch)) && (w.clients[c].CountGet? || w.clients[c].CountQuery? || w.clients[c].CountSet?)
    ensures var pc, next := w.clients[c], Step(w, Move(c, ch)).clients[c];
            next.Returned? && next.out.Counted? ==>
              if pc.CountGet? then CacheLive(w.sh, pc.e) && next.out.n == w.sh.cache[pc.e].count
              else pc.CountSet? && next.out.n == pc.n
  {
  }

  /** The step at which a client is given count `n` of event `e`. */
  ghost predicate Served(tr: seq<World>, acts: seq<Action>, i: nat, e: Id, n: int)
    requires |tr| == |acts| + 1
  {
    && i < |acts| && acts[i].Move? && acts[i].c in tr[i].clients && acts[i].c in tr[i + 1].clients
    && ((tr[i].clients[acts[i].c].CountGet? || tr[i].clients[acts[i].c].CountSet?) && tr[i].clients[acts[i].c].e == e)
    && tr[i + 1].clients[acts[i].c] == Returned(Counted(n))
  }

  /** Every count any client is ever given was the true count at a moment no further back than 30 seconds plus the
      time the client that read it took to write it to the cache, or to answer. */
  lemma ServedCountBounded(tr: seq<World>, acts: seq<Action>, i: nat, e: Id, n: int)
    requires Run(tr, acts) && Served(tr, acts, i, e, n)
    ensures exists j: nat, k: nat, c: nat :: j < k <= i
              && CountRead(tr, acts, j, c, e, n, tr[j].sh.now)
              && acts[k].Move? && acts[k].c == c && c in tr[k].clients
                  && tr[k].clients[c] == CountSet(e, n, tr[j].sh.now)
              && tr[j].sh.now > tr[i].sh.now - 30 * 1000 - (tr[k].sh.now - tr[j].sh.now)
  {
    hide SeatsWith, Initial, CountRead, CountStored;
    var c := acts[i].c;
    assert tr[i + 1] == Step(tr[i], acts[i]) && Enabled(tr[i], acts[i]);
    ServedFrom(tr[i], c, acts[i].ch);
    if tr[i].clients[c].CountGet? {
      BoundedStaleness(tr, acts, i, e);
      var j: nat, k: nat, d: nat :| j < k < i
        && CountRead(tr, acts, j, d, e, n, tr[j].sh.now)
        && CountStored(tr, acts, k, d, e, n, tr[j].sh.now, tr[i].sh.cache[e].expiry)
        && tr[j].sh.now > tr[i].sh.now - 30 * 1000 - (tr[k].sh.now - tr[j].sh.now);
      StoredIs(tr, acts, k, d, e, n, tr[j].sh.now, tr[i].sh.cache[e].expiry);
    } else {
      PendingCountTrue(tr, acts, i, c);
      var pc := tr[i].clients[c];
      var j: nat :| j < i && CountRead(tr, acts, j, c, pc.e, pc.n, pc.readAt);
      ReadAt(tr, acts, j, c, pc.e, pc.n, pc.readAt);
    }
  }

  lemma StoredIs(tr: seq<World>, acts: seq<Action>, k: nat, c: nat, e: Id, n: int, t: int, until: Expiry)
    requires |tr| == |acts| + 1 && CountStored(tr, acts, k, c, e, n, t, until)
    ensures k < |acts| && acts[k].Move? && acts[k].c == c && c in tr[k].clients && tr[k].clients[c] == CountSet(e, n, t)
  {
  }

  lemma ReadAt(tr: seq<World>, acts: seq<Action>, j: nat, c: nat, e: Id, n: int, t: int)
    requires |tr| == |acts| + 1 && CountRead(tr, acts, j, c, e, n, t)
    ensures j < |tr| && tr[j].sh.now == t
  {
  }
}
