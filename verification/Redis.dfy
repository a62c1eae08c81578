/**
 The Redis server as the services use it: lock entries and cached counts with expiry times.
 Each command and each Lua script is one atomic step.
 */
module Redis {
  import opened Domain

  /** An entry stored without a positive lifetime never expires. */
  datatype Expiry = At(t: int) | Never

  function ExpiryOf(now: int, ttl: int): Expiry { if ttl > 0 then At(now + ttl) else Never }

  predicate Before(now: int, e: Expiry) { e.Never? || now < e.t }

  datatype LockEntry = LockEntry(token: Id, expiry: Expiry)

  /** `readAt` is when the count was read from the database; no command looks at it. */
  datatype CacheEntry = CacheEntry(count: int, expiry: Expiry, readAt: int)

  type Locks = map<string, LockEntry>

  /** An expired entry is as good as absent. */
  predicate Live(locks: Locks, now: int, key: string) {
    key in locks && Before(now, locks[key].expiry)
  }

  predicate Owned(locks: Locks, now: int, key: string, token: Id) {
    Live(locks, now, key) && locks[key].token == token
  }

  /** SET key token NX PX ttl; None when the key is taken or the lifetime is negative, which Redis refuses. */
  function SetNX(locks: Locks, now: int, key: string, token: Id, ttl: int): Option<Locks> {
    if ttl < 0 || Live(locks, now, key) then None else Some(locks[key := LockEntry(token, ExpiryOf(now, ttl))])
  }

  function CompareAndDelete(locks: Locks, now: int, key: string, token: Id): Locks {
    if Owned(locks, now, key, token) then locks - {key} else locks
  }

  /** PEXPIRE with a lifetime that is not positive deletes the entry. */
  function CompareAndExpire(locks: Locks, now: int, key: string, token: Id, ttl: int): Locks {
    if !Owned(locks, now, key, token) then locks
    else if ttl <= 0 then locks - {key}
    else locks[key := LockEntry(token, At(now + ttl))]
  }

  // ---------------------------------------------------------------- every sequence of lock commands

  datatype LockCommand =
    | Acquire(key: string, token: Id, ttl: int)
    | Release(key: string, token: Id)
    | Extend(key: string, token: Id, ttl: int)
    | Wait(d: nat)

  datatype LockState = LockState(locks: Locks, now: int)

  function Perform(s: LockState, k: LockCommand): LockState {
    match k
    case Acquire(key, token, ttl) =>
      var r := SetNX(s.locks, s.now, key, token, ttl);
      if r.None? then s else s.(locks := r.value)
    case Release(key, token) => s.(locks := CompareAndDelete(s.locks, s.now, key, token))
    case Extend(key, token, ttl) => s.(locks := CompareAndExpire(s.locks, s.now, key, token, ttl))
    case Wait(d) => s.(now := s.now + d)
  }

  function PerformAll(s: LockState, ks: seq<LockCommand>): LockState {
    if |ks| == 0 then s else Perform(PerformAll(s, ks[..|ks| - 1]), ks[|ks| - 1])
  }

  /** A holder keeps its lock, to the millisecond, through everything others do until it expires, and
      nobody else takes it before that; a lock without a lifetime it keeps for ever. */
  lemma {:induction false} HeldUntilExpiry(s: LockState, ks: seq<LockCommand>, key: string, token: Id)
    requires Owned(s.locks, s.now, key, token)
    requires forall i :: 0 <= i < |ks| && !ks[i].Wait? && ks[i].key == key ==> ks[i].token != token
    ensures Before(PerformAll(s, ks).now, s.locks[key].expiry) ==>
              Owned(PerformAll(s, ks).locks, PerformAll(s, ks).now, key, token)
              && PerformAll(s, ks).locks[key] == s.locks[key]
  {
    if |ks| > 0 { HeldUntilExpiry(s, ks[..|ks| - 1], key, token); }
  }

  // ---------------------------------------------------------------- the server and its clients

  class Server {
    var now: int
    var locks: Locks
    var counts: map<Id, CacheEntry>

    constructor (now: int)
      ensures this.now == now && locks == map[] && counts == map[]
    {
      this.now, locks, counts := now, map[], map[];
    }
  }

  /** What a client holds after a successful AcquireLock. */
  class DistributedLock {
    const server: Server
    const key: string
    const value: Id
    var ttl: int

    constructor (server: Server, key: string, value: Id, ttl: int)
      ensures this.server == server && this.key == key && this.value == value && this.ttl == ttl
    {
      this.server, this.key, this.value, this.ttl := server, key, value, ttl;
    }

    method Release(fault: bool) returns (err: Option<Error>)
      modifies server`locks
      ensures fault ==> err == Some(Infrastructure) && server.locks == old(server.locks)
      ensures !fault ==>
                && server.locks == CompareAndDelete(old(server.locks), server.now, key, value)
                && err == (if Owned(old(server.locks), server.now, key, value) then None else Some(LockNotOwned))
                && server.locks == (if err.Some? then old(server.locks) else old(server.locks) - {key})
                && !Owned(server.locks, server.now, key, value)
    {
      if fault { return Some(Infrastructure); }
      if key in server.locks && Before(server.now, server.locks[key].expiry) && server.locks[key].token == value {
        server.locks := server.locks - {key};
        return None;
      }
      err := Some(LockNotOwned);
    }

    method Extend(ttl: int, fault: bool) returns (err: Option<Error>)
      modifies this`ttl, server`locks
      ensures fault ==> err == Some(Infrastructure) && server.locks == old(server.locks)
      ensures !fault ==>
                && server.locks == CompareAndExpire(old(server.locks), server.now, key, value, ttl)
                && err == (if Owned(old(server.locks), server.now, key, value) then None else Some(LockNotOwned))
                && (Owned(server.locks, server.now, key, value) <==> err.None? && ttl > 0)
                && server.locks ==
                   (if err.Some? then old(server.locks)
                    else if ttl <= 0 then old(server.locks) - {key}
                    else old(server.locks)[key := LockEntry(value, At(server.now + ttl))])
      ensures this.ttl == if err.None? then ttl else old(this.ttl)
    {
      if fault { return Some(Infrastructure); }
      if key in server.locks && Before(server.now, server.locks[key].expiry) && server.locks[key].token == value {
        server.locks := if ttl > 0 then server.locks[key := LockEntry(value, At(server.now + ttl))]
                        else server.locks - {key};
        this.ttl := ttl;
        return None;
      }
      err := Some(LockNotOwned);
    }
  }

  /** What happens around one attempt of a retry loop: whether SET fails, whether the context ends during the
      wait, how long the wait takes and what the other clients leave behind. */
  datatype Attempt = Attempt(token: Id, fault: bool, done: bool, wait: nat, others: Locks)

  predicate NoneOfOurs(locks: Locks, attempts: seq<Attempt>) {
    forall key, i :: key in locks && 0 <= i < |attempts| ==> locks[key].token != attempts[i].token
  }

  /** The lock table an attempt finds, and when: the first finds the caller's, each later one what the others left. */
  function LocksAt(locks: Locks, attempts: seq<Attempt>, i: nat): Locks
    requires i <= |attempts|
  {
    if i == 0 then locks else attempts[i - 1].others
  }

  function NowAt(now: int, attempts: seq<Attempt>, i: nat): int
    requires i <= |attempts|
  {
    if i == 0 then now else NowAt(now, attempts, i - 1) + attempts[i - 1].wait
  }

  predicate TakenAt(locks: Locks, now: int, attempts: seq<Attempt>, i: nat, key: string)
    requires i <= |attempts|
  {
    Live(LocksAt(locks, attempts, i), NowAt(now, attempts, i), key)
  }

  lemma NoWaitYet(now: int, attempts: seq<Attempt>)
    ensures NowAt(now, attempts, 0) == now
  {
  }

  lemma NextTry(locks: Locks, start: int, attempts: seq<Attempt>, i: nat, entry: LockEntry, key: string)
    requires i < |attempts| && NoneOfOurs(locks, attempts)
    ensures NoneOfOurs(locks[key := entry] - {key}, attempts)
    ensures NowAt(start, attempts, i + 1) == NowAt(start, attempts, i) + attempts[i].wait
  {
  }

  class LockManager {
    const server: Server

    constructor (server: Server)
      ensures this.server == server
    {
      this.server := server;
    }

    method AcquireLock(key: string, ttl: int, token: Id, fault: bool)
      returns (lock: DistributedLock?, err: Option<Error>)
      modifies server`locks
      ensures var taken := SetNX(old(server.locks), server.now, "lock:" + key, token, ttl);
              if fault || taken.None? then
                && server.locks == old(server.locks) && lock == null
                && err == Some(if fault || ttl < 0 then Infrastructure else LockNotAcquired)
              else
                && server.locks == taken.value && err.None? && lock != null && fresh(lock)
                && lock.server == server && lock.key == "lock:" + key && lock.value == token
                && Owned(server.locks, server.now, lock.key, lock.value)
                && server.locks ==
                   old(server.locks)[lock.key := LockEntry(token, if ttl > 0 then At(server.now + ttl) else Never)]
    {
      if fault || ttl < 0 { return null, Some(Infrastructure); }
      var lockKey := "lock:" + key;
      if lockKey in server.locks && Before(server.now, server.locks[lockKey].expiry) {
        return null, Some(LockNotAcquired);
      }
      server.locks := server.locks[lockKey := LockEntry(token, ExpiryOf(server.now, ttl))];
      lock := new DistributedLock(server, lockKey, token, ttl);
      err := None;
    }

    /** At most `maxRetries` attempts, and then exactly one of a lock the caller owns or an error with nothing
        of its own left in Redis.  With no attempts at all there is neither. */
    method AcquireLockWithRetry(key: string, ttl: int, maxRetries: int, attempts: seq<Attempt>)
      returns (lock: DistributedLock?, err: Option<Error>, tries: nat)
      requires maxRetries <= |attempts|
      requires NoneOfOurs(server.locks, attempts)
      requires forall i :: 0 <= i < |attempts| ==> NoneOfOurs(attempts[i].others, attempts)
      modifies server`locks, server`now
      ensures if maxRetries > 0 then 1 <= tries <= maxRetries else tries == 0
      ensures maxRetries >= 1 ==> (lock == null <==> err.Some?)
      ensures maxRetries <= 0 ==> lock == null && err.None? && server.locks == old(server.locks)
      ensures lock != null ==>
                && 1 <= tries <= |attempts| && lock.value == attempts[tries - 1].token
                && lock.server == server && lock.key == "lock:" + key
                && Owned(server.locks, server.now, lock.key, lock.value)
                && server.locks[lock.key] == LockEntry(lock.value, ExpiryOf(server.now, ttl))
      ensures forall i :: 0 <= i < tries - 1 ==>
                TakenAt(old(server.locks), old(server.now), attempts, i, "lock:" + key)
                && !attempts[i].fault && !attempts[i].done
      ensures maxRetries >= 1 ==>
                var a, taken := attempts[tries - 1],
                                TakenAt(old(server.locks), old(server.now), attempts, tries - 1, "lock:" + key);
                if a.fault || ttl < 0 then err == Some(Infrastructure)
                else if !taken then err.None?
                else if a.done then err == Some(ContextDone)
                else err == Some(LockNotAcquired) && tries == maxRetries
      ensures lock == null ==> NoneOfOurs(server.locks, attempts)
      ensures lock != null ==> NoneOfOurs(server.locks - {lock.key}, attempts)
      ensures !Live(old(server.locks), old(server.now), "lock:" + key) ==>
                (maxRetries >= 1 && ttl >= 0 && !attempts[0].fault ==> lock != null)
      ensures err == Some(LockNotAcquired) ==> tries == maxRetries
    {
      hide NoneOfOurs, NowAt, Live;
      lock, err, tries := null, None, 0;
      NoWaitYet(server.now, attempts);
      while tries < maxRetries
        invariant 0 <= tries <= if maxRetries > 0 then maxRetries else 0
        invariant NoneOfOurs(server.locks, attempts)
        invariant err == if tries == 0 then None else Some(LockNotAcquired)
        invariant tries == 0 ==> server.locks == old(server.locks) && server.now == old(server.now)
        invariant tries > 0 ==> ttl >= 0 && server.locks == LocksAt(old(server.locks), attempts, tries)
        invariant server.now == NowAt(old(server.now), attempts, tries)
        invariant forall i :: 0 <= i < tries ==>
                    TakenAt(old(server.locks), old(server.now), attempts, i, "lock:" + key)
                    && !attempts[i].fault && !attempts[i].done
      {
        var a := attempts[tries];
        NextTry(server.locks, old(server.now), attempts, tries, LockEntry(a.token, ExpiryOf(server.now, ttl)),
          "lock:" + key);
        lock, err := AcquireLock(key, ttl, a.token, a.fault);
        tries := tries + 1;
        if err.None? { return; }
        lock := null;
        if err.value != LockNotAcquired { return; }
        if a.done { return null, Some(ContextDone), tries; }
        server.locks, server.now := a.others, server.now + a.wait;
      }
      lock := null;
    }
  }

  // ---------------------------------------------------------------- the seat count cache

  predicate CountLive(counts: map<Id, CacheEntry>, now: int, e: Id) {
    e in counts && Before(now, counts[e].expiry)
  }

  class SeatCache {
    const server: Server

    constructor (server: Server)
      ensures this.server == server
    {
      this.server := server;
    }

    method GetAvailableCount(e: Id, fault: bool) returns (r: Result<int>)
      ensures r == if fault then Err(Infrastructure)
                   else if CountLive(server.counts, server.now, e) then Ok(server.counts[e].count)
                   else Err(CacheMiss)
    {
      if fault { return Err(Infrastructure); }
      if e in server.counts && Before(server.now, server.counts[e].expiry) { return Ok(server.counts[e].count); }
      r := Err(CacheMiss);
    }

    method SetAvailableCount(e: Id, count: int, ttl: int, fault: bool) returns (err: Option<Error>)
      modifies server`counts
      ensures err == if fault then Some(Infrastructure) else None
      ensures server.counts == if fault then old(server.counts)
                               else var expiry := if ttl > 0 then At(server.now + ttl) else Never;
                                    old(server.counts)[e := CacheEntry(count, expiry, server.now)]
    {
      if fault { return Some(Infrastructure); }
      server.counts := server.counts[e := CacheEntry(count, ExpiryOf(server.now, ttl), server.now)];
      err := None;
    }

    method Invalidate(e: Id, fault: bool) returns (err: Option<Error>)
      modifies server`counts
      ensures err == if fault then Some(Infrastructure) else None
      ensures server.counts == if fault then old(server.counts) else old(server.counts) - {e}
    {
      if fault { return Some(Infrastructure); }
      server.counts := server.counts - {e};
      err := None;
    }
  }
}
