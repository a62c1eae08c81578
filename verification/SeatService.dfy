/**
 Seat creation in bulk and the cached seat count.
 */
module SeatServices {
  import opened Sums
  import opened Domain
  import opened SeatTable
  import opened Database
  import opened History
  import opened Redis
  import opened Postgres
  import opened Protocol
  import opened Sequential

  const BATCH_SIZE: nat := 1000
  const COLUMNS: nat := 7

  // ---------------------------------------------------------------- seat numbers

  function Digit(d: nat): char
    requires d < 10
  {
    "0123456789"[d]
  }

  function Decimal(n: nat): string {
    if n < 10 then [Digit(n)] else Decimal(n / 10) + [Digit(n % 10)]
  }

  function SeatNumber(prefix: string, i: nat): string {
    prefix + "-" + Decimal(i)
  }

  /** Reads a numeral, most significant digit first. */
  function ValueOf(s: string): int {
    if |s| == 0 then 0 else 10 * ValueOf(s[..|s| - 1]) + (s[|s| - 1] as int - '0' as int)
  }

  lemma DigitValue(d: nat)
    requires d < 10
    ensures Digit(d) as int - '0' as int == d
  {
  }

  /** The number in a seat's name reads back, and is written without leading zeros. */
  lemma {:induction false} DecimalReads(n: nat)
    ensures ValueOf(Decimal(n)) == n
    ensures n > 0 ==> Decimal(n)[0] != '0'
  {
    DigitValue(n % 10);
    if n < 10 {
      assert Decimal(n)[..0] == "";
    } else {
      DecimalReads(n / 10);
      assert Decimal(n)[..|Decimal(n)| - 1] == Decimal(n / 10);
    }
  }

  lemma {:induction false} DecimalDigits(n: nat)
    ensures |Decimal(n)| > 0 && '-' !in Decimal(n)
  {
    if n >= 10 { DecimalDigits(n / 10); }
  }

  lemma DecimalInjective(m: nat, n: nat)
    requires Decimal(m) == Decimal(n)
    ensures m == n
  {
    DecimalReads(m);
    DecimalReads(n);
  }

  lemma ShorterTail(p: string, m: nat, q: string, n: nat)
    requires SeatNumber(p, m) == SeatNumber(q, n)
    ensures |Decimal(m)| >= |Decimal(n)|
  {
    DecimalDigits(n);
    var s := SeatNumber(p, m);
    assert s[|s| - |Decimal(m)| - 1] == '-';
    assert forall k :: |s| - |Decimal(n)| <= k < |s| ==> s[k] == Decimal(n)[k - (|s| - |Decimal(n)|)];
  }

  /** A seat number determines its prefix and its index, whatever dashes and digits the prefix contains. */
  lemma SeatNumberInjective(p: string, m: nat, q: string, n: nat)
    requires SeatNumber(p, m) == SeatNumber(q, n)
    ensures p == q && m == n
  {
    ShorterTail(p, m, q, n);
    ShorterTail(q, n, p, m);
    var s := SeatNumber(p, m);
    assert p == s[..|p|] == SeatNumber(q, n)[..|q|] == q;
    assert Decimal(m) == s[|p| + 1..] == SeatNumber(q, n)[|q| + 1..] == Decimal(n);
    DecimalInjective(m, n);
  }

  // ---------------------------------------------------------------- the multi-row INSERT

  datatype Arg = EventIdArg(v: Id) | NumberArg(v: string) | StatusArg(st: SeatStatus) | PriceArg(n: int)
               | CreatedAtArg | UpdatedAtArg | VersionArg(k: nat)

  function Args(row: SeatRow): (args: seq<Arg>)
    ensures |args| == COLUMNS
  {
    [EventIdArg(row.eventId), NumberArg(row.number), StatusArg(row.status), PriceArg(row.price),
     CreatedAtArg, UpdatedAtArg, VersionArg(row.version)]
  }

  /** The numbers in row `i`'s group of placeholders. */
  function Placeholders(i: nat): (ps: seq<nat>)
    ensures |ps| == COLUMNS && forall c :: 0 <= c < COLUMNS ==> ps[c] == COLUMNS * i + c + 1
  {
    seq(COLUMNS, c requires 0 <= c < COLUMNS => COLUMNS * i + c + 1)
  }

  /** The placeholder groups and the argument list: `$1 .. $7n`, once each and in order, at most 7000 of
      them, and each row's group of placeholders bound to that seat's columns. */
  method BuildInsert(seats: seq<Seat>) returns (placeholders: seq<seq<nat>>, args: seq<Arg>)
    requires |seats| <= BATCH_SIZE
    ensures |placeholders| == |seats| && |args| == COLUMNS * |seats| <= 7000
    ensures forall i :: 0 <= i < |seats| ==> placeholders[i] == Placeholders(i)
    ensures forall i :: 0 <= i < |seats| ==> args[COLUMNS * i..COLUMNS * i + COLUMNS] == Args(seats[i].Row())
  {
    placeholders, args := [], [];
    for i := 0 to |seats|
      invariant |placeholders| == i && |args| == COLUMNS * i
      invariant forall k :: 0 <= k < i ==> placeholders[k] == Placeholders(k)
      invariant forall k :: 0 <= k < i ==> args[COLUMNS * k..COLUMNS * k + COLUMNS] == Args(seats[k].Row())
    {
      var base := i * COLUMNS;
      var group := [base + 1, base + 2, base + 3, base + 4, base + 5, base + 6, base + 7];
      assert group == Placeholders(i);
      placeholders := placeholders + [group];
      args := AppendArgs(args, seats[i].Row(), i);
    }
  }

  function AppendArgs(args: seq<Arg>, row: SeatRow, n: nat): (all: seq<Arg>)
    requires |args| == COLUMNS * n
    ensures |all| == COLUMNS * (n + 1) && all[COLUMNS * n..COLUMNS * n + COLUMNS] == Args(row)
    ensures forall k :: 0 <= k < n ==>
              all[COLUMNS * k..COLUMNS * k + COLUMNS] == args[COLUMNS * k..COLUMNS * k + COLUMNS]
  {
    args + Args(row)
  }

  /** Placeholder `$p` stands in exactly one place, and the argument bound there is the column it belongs to. */
  lemma PlaceholderBinding(seats: seq<SeatRow>, args: seq<Arg>, p: nat)
    requires |args| == COLUMNS * |seats| && 1 <= p <= |args|
    requires forall i :: 0 <= i < |seats| ==> args[COLUMNS * i..COLUMNS * i + COLUMNS] == Args(seats[i])
    ensures var i, c := (p - 1) / COLUMNS, (p - 1) % COLUMNS;
            && i < |seats| && Placeholders(i)[c] == p && args[p - 1] == Args(seats[i])[c]
            && forall j, d :: 0 <= j < |seats| && 0 <= d < COLUMNS && Placeholders(j)[d] == p ==> j == i && d == c
  {
    var i, c := (p - 1) / COLUMNS, (p - 1) % COLUMNS;
    assert args[COLUMNS * i..COLUMNS * i + COLUMNS][c] == args[p - 1];
  }

  /** Every placeholder of the group points at an argument of its column's kind. */
  predicate WellBound(group: seq<nat>, args: seq<Arg>) {
    && |group| == COLUMNS && (forall c :: 0 <= c < COLUMNS ==> 1 <= group[c] <= |args|)
    && args[group[0] - 1].EventIdArg? && args[group[1] - 1].NumberArg? && args[group[2] - 1].StatusArg?
    && args[group[3] - 1].PriceArg? && args[group[4] - 1].CreatedAtArg? && args[group[5] - 1].UpdatedAtArg?
    && args[group[6] - 1].VersionArg?
  }

  /** The row the database reads off one group of placeholders; reserved_by is not among the columns. */
  function BoundRow(group: seq<nat>, args: seq<Arg>): SeatRow
    requires WellBound(group, args)
  {
    SeatRow(args[group[0] - 1].v, args[group[1] - 1].v, args[group[2] - 1].st, args[group[3] - 1].n, None,
      args[group[6] - 1].k)
  }

  function Stored(row: SeatRow): SeatRow { row.(reservedBy := None) }

  lemma GroupBinds(args: seq<Arg>, i: nat, row: SeatRow)
    requires COLUMNS * i + COLUMNS <= |args| && args[COLUMNS * i..COLUMNS * i + COLUMNS] == Args(row)
    ensures WellBound(Placeholders(i), args) && BoundRow(Placeholders(i), args) == Stored(row)
  {
    var group := Placeholders(i);
    assert forall c :: 0 <= c < COLUMNS ==> args[group[c] - 1] == args[COLUMNS * i..COLUMNS * i + COLUMNS][c];
  }

  // ---------------------------------------------------------------- batches

  /** The rows a statement inserts, under the ids the database generates for them in order. */
  function RowsFrom(rows: seq<SeatRow>, ids: seq<Id>): Table
    requires |rows| == |ids|
  {
    if |rows| == 0 then map[] else RowsFrom(rows[..|rows| - 1], ids[..|ids| - 1])[ids[|ids| - 1] := rows[|rows| - 1]]
  }

  lemma {:induction false} RowsFromAt(rows: seq<SeatRow>, ids: seq<Id>)
    requires |rows| == |ids| && Distinct(ids)
    ensures RowsFrom(rows, ids).Keys == Elements(ids)
    ensures forall i :: 0 <= i < |ids| ==> ids[i] in RowsFrom(rows, ids) && RowsFrom(rows, ids)[ids[i]] == rows[i]
  {
    if |rows| > 0 {
      var n := |rows| - 1;
      var before := RowsFrom(rows[..n], ids[..n]);
      RowsFromAt(rows[..n], ids[..n]);
      assert RowsFrom(rows, ids) == before[ids[n] := rows[n]];
      hide RowsFrom;
      LastId(ids, n);
      forall i | 0 <= i < n ensures ids[i] in before && before[ids[i]] == rows[i] {
        assert ids[..n][i] == ids[i] && rows[..n][i] == rows[i];
      }
    }
  }

  lemma LastId(ids: seq<Id>, n: nat)
    requires Distinct(ids) && |ids| == n + 1
    ensures Elements(ids) == Elements(ids[..n]) + {ids[n]} && Distinct(ids[..n])
    ensures forall i :: 0 <= i < n ==> ids[i] != ids[n]
  {
    assert ids == ids[..n] + [ids[n]];
  }

  lemma {:induction false} RowsFromSplit(rows: seq<SeatRow>, ids: seq<Id>, i: nat, j: nat)
    requires |rows| == |ids| && i <= j <= |rows|
    ensures RowsFrom(rows[..j], ids[..j]) == RowsFrom(rows[..i], ids[..i]) + RowsFrom(rows[i..j], ids[i..j])
    decreases j
  {
    if i < j {
      RowsFromSplit(rows, ids, i, j - 1);
      assert rows[..j][..j - 1] == rows[..j - 1] && ids[..j][..j - 1] == ids[..j - 1];
      assert rows[i..j][..j - i - 1] == rows[i..j - 1] && ids[i..j][..j - i - 1] == ids[i..j - 1];
    }
  }

  lemma PrefixesDisjoint(ids: seq<Id>, i: nat, j: nat)
    requires Distinct(ids) && i <= j <= |ids|
    ensures Distinct(ids[..i]) && Distinct(ids[i..j]) && Elements(ids[..i]) !! Elements(ids[i..j])
    ensures Elements(ids[..j]) == Elements(ids[..i]) + Elements(ids[i..j]) && Elements(ids[..j]) <= Elements(ids)
  {
    assert ids[..j] == ids[..i] + ids[i..j];
  }

  /** The tables once the first `i` rows are in. */
  function Inserted(db: Db, rows: seq<SeatRow>, ids: seq<Id>, i: nat): Db
    requires |rows| == |ids| && i <= |rows|
  {
    db.(seats := db.seats + RowsFrom(rows[..i], ids[..i]), issued := db.issued + Elements(ids[..i]))
  }

  function End(i: nat, n: nat): nat { if i + BATCH_SIZE > n then n else i + BATCH_SIZE }

  lemma NextBatch(i: nat, n: nat)
    requires i < n && i % BATCH_SIZE == 0
    ensures i < End(i, n) <= n && (End(i, n) < n ==> End(i, n) % BATCH_SIZE == 0)
    ensures forall j :: i < j < End(i, n) ==> j % BATCH_SIZE != 0
  {
  }

  predicate BatchOk(db: Db, rows: seq<SeatRow>, ids: seq<Id>, i: nat)
    requires |rows| == |ids| && i <= |rows|
  {
    InsertSeats(Inserted(db, rows, ids, i), RowsFrom(rows[i..End(i, |rows|)], ids[i..End(i, |rows|)])).Ok?
  }

  lemma UniqueSplit(seats: Table, a: Table, b: Table)
    requires a.Keys !! b.Keys && seats.Keys !! a.Keys + b.Keys
    ensures NumbersUnique(seats, a + b) <==> NumbersUnique(seats, a) && NumbersUnique(seats + a, b)
  {
    var all := a + b;
    if NumbersUnique(seats, all) {
      forall s, t | s in a && t in a && s != t ensures !SameNumber(a[s], a[t]) { assert !SameNumber(all[s], all[t]); }
      forall s, t | s in a && t in seats ensures !SameNumber(a[s], seats[t]) { assert !SameNumber(all[s], seats[t]); }
      forall s, t | s in b && t in b && s != t ensures !SameNumber(b[s], b[t]) { assert !SameNumber(all[s], all[t]); }
      forall s, t | s in b && t in seats + a ensures !SameNumber(b[s], (seats + a)[t]) {
        if t in a { assert !SameNumber(all[s], all[t]); } else { assert !SameNumber(all[s], seats[t]); }
      }
    }
    if NumbersUnique(seats, a) && NumbersUnique(seats + a, b) {
      forall s, t | s in all && t in all && s != t ensures !SameNumber(all[s], all[t]) {
        if s in a && t in b { assert !SameNumber(b[t], (seats + a)[s]); }
        if s in b && t in a { assert !SameNumber(b[s], (seats + a)[t]); }
      }
      forall s, t | s in all && t in seats ensures !SameNumber(all[s], seats[t]) {
        if s in b { assert !SameNumber(b[s], (seats + a)[t]); }
      }
    }
  }

  lemma BatchExtends(db: Db, rows: seq<SeatRow>, ids: seq<Id>, i: nat)
    requires |rows| == |ids| && i <= |rows| && Distinct(ids) && Elements(ids) !! db.issued && db.seats.Keys <= db.issued
    ensures var e := End(i, |rows|);
            InsertSeats(db, RowsFrom(rows[..e], ids[..e])).Ok? <==>
            InsertSeats(db, RowsFrom(rows[..i], ids[..i])).Ok? && BatchOk(db, rows, ids, i)
    ensures BatchOk(db, rows, ids, i) ==>
              InsertSeats(Inserted(db, rows, ids, i), RowsFrom(rows[i..End(i, |rows|)], ids[i..End(i, |rows|)])).value
              == Inserted(db, rows, ids, End(i, |rows|))
  {
    hide InsertSeats, RowsFrom, Distinct, Elements;
    var e := End(i, |rows|);
    RowsFromSplit(rows, ids, i, e);
    PrefixesDisjoint(ids, i, e);
    RowsFromAt(rows[..i], ids[..i]);
    RowsFromAt(rows[i..e], ids[i..e]);
    InsertTwice(db, Inserted(db, rows, ids, i), RowsFrom(rows[..i], ids[..i]), RowsFrom(rows[i..e], ids[i..e]));
  }

  predicate AllAccepted(db: Db, rows: Table) { forall s :: s in rows ==> RowAccepted(db, rows[s]) }

  lemma AcceptedSplit(db: Db, mid: Db, a: Table, b: Table)
    requires a.Keys !! b.Keys && mid.events == db.events
    ensures AllAccepted(db, a + b) <==> AllAccepted(db, a) && AllAccepted(mid, b)
  {
    var all := a + b;
    assert forall s :: s in a ==> s in all && all[s] == a[s];
    assert forall s :: s in b ==> s in all && all[s] == b[s];
  }

  lemma InsertTwice(db: Db, mid: Db, a: Table, b: Table)
    requires a.Keys !! b.Keys && db.seats.Keys !! a.Keys + b.Keys
    requires mid == db.(seats := db.seats + a, issued := db.issued + a.Keys)
    ensures InsertSeats(db, a + b).Ok? <==> InsertSeats(db, a).Ok? && InsertSeats(mid, b).Ok?
    ensures InsertSeats(mid, b).Ok? ==>
              InsertSeats(mid, b).value == db.(seats := db.seats + (a + b), issued := db.issued + (a.Keys + b.Keys))
  {
    InsertTests(db, a + b);
    InsertTests(db, a);
    InsertTests(mid, b);
    hide NumbersUnique, RowAccepted, AllAccepted, InsertSeats;
    UniqueSplit(db.seats, a, b);
    AcceptedSplit(db, mid, a, b);
    assert (db.seats + a) + b == db.seats + (a + b);
  }

  lemma InsertTests(db: Db, rows: Table)
    ensures InsertSeats(db, rows).Ok? <==> AllAccepted(db, rows) && NumbersUnique(db.seats, rows)
    ensures InsertSeats(db, rows).Ok? ==>
              InsertSeats(db, rows).value == db.(seats := db.seats + rows, issued := db.issued + rows.Keys)
  {
  }

  ghost predicate BatchesOk(db: Db, rows: seq<SeatRow>, ids: seq<Id>, upTo: nat)
    requires |rows| == |ids|
  {
    forall i :: 0 <= i < upTo && i <= |rows| && i % BATCH_SIZE == 0 ==> BatchOk(db, rows, ids, i)
  }

  /** Batching refines one big INSERT: every batch goes in exactly when the one statement would have. */
  lemma {:induction false} BatchesMatchOneInsert(db: Db, rows: seq<SeatRow>, ids: seq<Id>, k: nat)
    requires |rows| == |ids| && Distinct(ids) && Elements(ids) !! db.issued && db.seats.Keys <= db.issued
    requires k * BATCH_SIZE <= |rows| + BATCH_SIZE - 1
    ensures var e := if k * BATCH_SIZE <= |rows| then k * BATCH_SIZE else |rows|;
            BatchesOk(db, rows, ids, k * BATCH_SIZE) <==> InsertSeats(db, RowsFrom(rows[..e], ids[..e])).Ok?
    decreases k
  {
    hide InsertSeats, RowsFrom, Inserted;
    if k == 0 {
      EmptyInsert(db, rows, ids);
    } else {
      var i := (k - 1) * BATCH_SIZE;
      BatchesMatchOneInsert(db, rows, ids, k - 1);
      BatchExtends(db, rows, ids, i);
      assert forall j :: i < j < k * BATCH_SIZE ==> j % BATCH_SIZE != 0;
    }
  }

  lemma EmptyInsert(db: Db, rows: seq<SeatRow>, ids: seq<Id>)
    requires |rows| == |ids|
    ensures InsertSeats(db, RowsFrom(rows[..0], ids[..0])).Ok?
  {
  }

  function SeatRows(seats: seq<Seat>): (rows: seq<SeatRow>)
    reads seats`eventId, seats`number, seats`status, seats`price, seats`reservedBy, seats`version
    ensures |rows| == |seats| && forall i :: 0 <= i < |seats| ==> rows[i] == Stored(seats[i].Row())
  {
    if |seats| == 0 then [] else SeatRows(seats[..|seats| - 1]) + [Stored(seats[|seats| - 1].Row())]
  }

  lemma {:induction false} SeatRowsOfSlice(seats: seq<Seat>, i: nat, j: nat)
    requires i <= j <= |seats|
    ensures SeatRows(seats[i..j]) == SeatRows(seats)[i..j]
  {
  }

  predicate AllWellBound(placeholders: seq<seq<nat>>, args: seq<Arg>) {
    forall i :: 0 <= i < |placeholders| ==> WellBound(placeholders[i], args)
  }

  function BoundRows(placeholders: seq<seq<nat>>, args: seq<Arg>): (rows: seq<SeatRow>)
    requires AllWellBound(placeholders, args)
  {
    seq(|placeholders|, i requires 0 <= i < |placeholders| => BoundRow(placeholders[i], args))
  }

  /** The statement as built, read the way the database reads it, inserts the seats it was built from. */
  lemma {:induction false} AllBind(seats: seq<Seat>, placeholders: seq<seq<nat>>, args: seq<Arg>)
    requires |placeholders| == |seats| && |args| == COLUMNS * |seats|
    requires forall i :: 0 <= i < |seats| ==> placeholders[i] == Placeholders(i)
    requires forall i :: 0 <= i < |seats| ==> args[COLUMNS * i..COLUMNS * i + COLUMNS] == Args(seats[i].Row())
    ensures AllWellBound(placeholders, args) && BoundRows(placeholders, args) == SeatRows(seats)
  {
    hide WellBound, BoundRow, Placeholders, Args;
    forall i | 0 <= i < |seats|
      ensures WellBound(placeholders[i], args) && BoundRow(placeholders[i], args) == Stored(seats[i].Row())
    {
      GroupBinds(args, i, seats[i].Row());
    }
  }

  // ---------------------------------------------------------------- the service

  /** Which of the cache read, the database read and the cache write fail. */
  datatype CountFaults = CountFaults(read: bool, query: bool, write: bool)

  /** Seat `i` of a bulk creation. */
  function Numbered(e: Id, prefix: string, price: int, i: nat): SeatRow {
    SeatRow(e, prefix + "-" + Decimal(i + 1), Available, price, None, 0)
  }

  /** The first `done` seats of a bulk creation are stored, each under its own id; nothing else differs. */
  ghost predicate BulkStored(db: Db, next: Db, e: Id, prefix: string, price: int, ids: seq<Id>, done: nat)
    requires done <= |ids|
  {
    && next.events == db.events && next.reservations == db.reservations
    && next.issued == db.issued + Elements(ids[..done]) && next.seats.Keys == db.seats.Keys + Elements(ids[..done])
    && (forall s :: s in db.seats ==> next.seats[s] == db.seats[s])
    && forall i :: 0 <= i < done ==> ids[i] in next.seats && next.seats[ids[i]] == Numbered(e, prefix, price, i)
  }

  lemma SameNumbers(e: Id, prefix: string, price: int)
    ensures forall i: nat :: NewSeatRow(e, SeatNumber(prefix, i + 1), price) == Numbered(e, prefix, price, i)
  {
  }

  lemma InsertedRows(db: Db, e: Id, prefix: string, count: nat, price: int, ids: seq<Id>, done: nat)
    requires |ids| == count && done <= count && Distinct(ids) && Elements(ids) !! db.issued
              && db.seats.Keys <= db.issued
    ensures BulkStored(db, Inserted(db, BulkRows(e, prefix, count, price), ids, done), e, prefix, price, ids, done)
  {
    var rows := BulkRows(e, prefix, count, price)[..done];
    PrefixesDisjoint(ids, done, done);
    RowsFromAt(rows, ids[..done]);
    hide RowsFrom, SeatNumber, Distinct, Elements, BulkStored;
    forall i | 0 <= i < done
      ensures ids[..done][i] == ids[i] && rows[i] == NewSeatRow(e, SeatNumber(prefix, i + 1), price)
    {
    }
    TableStored(db, RowsFrom(rows, ids[..done]), e, prefix, price, ids, done);
  }

  lemma TableStored(db: Db, table: Table, e: Id, prefix: string, price: int, ids: seq<Id>, done: nat)
    requires done <= |ids| && table.Keys == Elements(ids[..done]) && table.Keys !! db.seats.Keys
    requires forall i :: 0 <= i < done ==> ids[..done][i] == ids[i]
    requires forall i :: 0 <= i < done ==>
               ids[..done][i] in table && table[ids[..done][i]] == NewSeatRow(e, SeatNumber(prefix, i + 1), price)
    ensures BulkStored(db, db.(seats := db.seats + table, issued := db.issued + Elements(ids[..done])),
                       e, prefix, price, ids, done)
  {
    hide Decimal;
    forall i | 0 <= i < done ensures ids[i] in table && table[ids[i]] == Numbered(e, prefix, price, i) {
      assert ids[..done][i] in table;
    }
  }

  class SeatService {
    const store: Store
    const server: Server
    const cache: SeatCache?

    constructor (store: Store, server: Server, cache: SeatCache?)
      requires cache != null ==> cache.server == server
      ensures this.store == store && this.server == server && this.cache == cache
    {
      this.store, this.server, this.cache := store, server, cache;
    }

    /** Cache-aside: the cached count while it lives, else the true count, then cached for 30 seconds.  A cache that
        fails is passed over; only a failing database read is an error. */
    method CountAvailableSeats(e: Id, faults: CountFaults) returns (count: int, err: Option<Error>)
      requires cache != null ==> cache.server == server
      modifies server`counts
      ensures var s := Site(store.Tables(), old(server.counts), server.now);
              var hit := cache != null && !faults.read && CountLive(s.counts, s.now, e);
              && err == (if !hit && faults.query then Some(Infrastructure) else None)
              && (err.None? ==> count == if hit then s.counts[e].count else |SeatsWith(s.db, e, Available)|)
              && server.counts ==
                 if hit || faults.query || cache == null || faults.write then old(server.counts)
                 else old(server.counts)[e :=
                        CacheEntry(|SeatsWith(s.db, e, Available)|, At(server.now + 30 * 1000), server.now)]
      ensures faults == CountFaults(false, false, false) && cache != null ==>
                var s := Site(store.Tables(), old(server.counts), server.now);
                err.None? && count == CountResult(s, e) && server.counts == CountOp(s, e).counts
    {
      CountIsSeats(store.Tables(), e);
      if cache != null {
        var cached := cache.GetAvailableCount(e, faults.read);
        if cached.Ok? { return cached.value, None; }
      }
      if faults.query { return 0, Some(Infrastructure); }
      count := store.CountAvailableByEventId(e);
      if cache != null { var cacheErr := cache.SetAvailableCount(e, count, CACHE_TTL, faults.write); }
      err := None;
    }

    /** One batch: one statement, then the generated ids written back into the seats. */
    method CreateBulkBatch(seats: seq<Seat>, ids: seq<Id>, fault: bool) returns (err: Option<Error>)
      requires |seats| == |ids| <= BATCH_SIZE && Distinct(seats) && Distinct(ids)
      modifies store, seats`id
      ensures if fault then err == Some(Infrastructure)
              else InsertSeats(old(store.Tables()), RowsFrom(old(SeatRows(seats)), ids)) ==
                   if err.Some? then Err(err.value) else Ok(store.Tables())
      ensures err.Some? ==> store.Tables() == old(store.Tables()) && forall s :: s in seats ==> s.id == old(s.id)
      ensures err.None? ==> forall i :: 0 <= i < |seats| ==> seats[i].id == ids[i]
    {
      hide InsertSeats, RowsFrom, AllWellBound, BoundRows;
      var placeholders, args := BuildInsert(seats);
      if fault { return Some(Infrastructure); }
      AllBind(seats, placeholders, args);
      err := store.InsertSeats(RowsFrom(BoundRows(placeholders, args), ids));
      if err.None? { ScanIds(seats, ids); }
    }

    /** Read the generated ids back into the seats, row by row. */
    method ScanIds(seats: seq<Seat>, ids: seq<Id>)
      requires |seats| == |ids| && Distinct(seats)
      modifies seats`id
      ensures forall i :: 0 <= i < |seats| ==> seats[i].id == ids[i]
    {
      for i := 0 to |seats|
        invariant forall k :: 0 <= k < i ==> seats[k].id == ids[k]
      {
        seats[i].id := ids[i];
      }
    }

    /** The batch that starts at seat `i`, against the tables with the first `i` rows in. */
    method CreateBatchAt(seats: seq<Seat>, ids: seq<Id>, i: nat, fault: bool, ghost db: Db) returns (err: Option<Error>)
      requires i < |seats| == |ids| && Distinct(seats) && Distinct(ids)
      requires Elements(ids) !! db.issued && db.seats.Keys <= db.issued
      requires store.Tables() == Inserted(db, SeatRows(seats), ids, i)
      modifies store, seats`id
      ensures err.None? <==> !fault && BatchOk(db, SeatRows(seats), ids, i)
      ensures store.Tables() == Inserted(db, SeatRows(seats), ids, if err.None? then End(i, |seats|) else i)
      ensures forall k :: 0 <= k < |seats| ==>
                seats[k].id == if err.None? && i <= k < End(i, |seats|) then ids[k] else old(seats[k].id)
    {
      hide InsertSeats, RowsFrom, BatchOk, Inserted, SeatRows, Distinct, Elements;
      var end := End(i, |seats|);
      SeatRowsOfSlice(seats, i, end);
      PrefixesDisjoint(ids, i, end);
      BatchExtends(db, SeatRows(seats), ids, i);
      BatchIsInsert(db, SeatRows(seats), ids, i);
      SliceOf(seats, i, end);
      err := CreateBulkBatch(seats[i..end], ids[i..end], fault);
    }

    /** Batch after batch of at most 1000 seats.  Each batch stands or falls alone: when one fails, exactly the
        batches before it are stored, and `done` seats have their ids. */
    method CreateBulk(seats: seq<Seat>, ids: seq<Id>, faults: seq<bool>) returns (err: Option<Error>, done: nat)
      requires |seats| == |ids| && |faults| >= |seats| && Distinct(seats) && Distinct(ids)
      requires Elements(ids) !! store.issued && store.seats.Keys <= store.issued
      modifies store, seats`id
      ensures done <= |seats| && store.Tables() == Inserted(old(store.Tables()), SeatRows(seats), ids, done)
      ensures forall k :: 0 <= k < |seats| ==> seats[k].id == if k < done then ids[k] else old(seats[k].id)
      ensures err.None? ==> done == |seats|
      ensures err.Some? ==> done < |seats| && done % BATCH_SIZE == 0
                            && (faults[done] || !BatchOk(old(store.Tables()), SeatRows(seats), ids, done))
      ensures forall i :: 0 <= i < done && i % BATCH_SIZE == 0 ==>
                !faults[i] && BatchOk(old(store.Tables()), SeatRows(seats), ids, i)
    {
      hide BatchOk, Inserted, Distinct, Elements, SeatRows, End;
      ghost var db := store.Tables();
      done := 0;
      NothingInserted(db, SeatRows(seats), ids);
      while done < |seats|
        invariant done <= |seats| && (done < |seats| ==> done % BATCH_SIZE == 0)
        invariant store.Tables() == Inserted(db, SeatRows(seats), ids, done)
        invariant forall k :: 0 <= k < |seats| ==> seats[k].id == if k < done then ids[k] else old(seats[k].id)
        invariant forall i :: 0 <= i < done && i % BATCH_SIZE == 0 ==>
                  !faults[i] && BatchOk(db, SeatRows(seats), ids, i)
      {
        NextBatch(done, |seats|);
        err := CreateBatchAt(seats, ids, done, faults[done], db);
        if err.Some? { return; }
        done := End(done, |seats|);
      }
      err := None;
    }

    /** Number the seats 1 to count behind the prefix, then store them.  Without faults it goes through exactly
        when the event exists, the seats are valid and their numbers are free, and then every seat is stored. */
    method CreateBulkSeats(e: Id, prefix: string, count: nat, price: int, ids: seq<Id>, faults: seq<bool>)
      returns (seats: seq<Seat>, err: Option<Error>)
      requires |ids| == count <= |faults| && Distinct(ids) && Elements(ids) !! store.issued
                && store.seats.Keys <= store.issued
      modifies store
      ensures (forall i :: 0 <= i < count ==> !faults[i]) ==>
                (err.None? <==> e in old(store.events) && (count > 0 ==> e != "" && price >= 0)
                                && NumbersFree(old(store.Tables()), e, prefix, count))
      ensures err.None? ==>
                && |seats| == count && BulkStored(old(store.Tables()), store.Tables(), e, prefix, price, ids, count)
                && forall i :: 0 <= i < count ==>
                     seats[i].id == ids[i] && seats[i].Row() == Numbered(e, prefix, price, i)
      ensures err.Some? ==> exists done: nat ::
                done <= count && done % BATCH_SIZE == 0
                && BulkStored(old(store.Tables()), store.Tables(), e, prefix, price, ids, done)
    {
      hide SeatNumber, Inserted, BatchOk, SeatRows, NumbersFree, BulkStored;
      ghost var db := store.Tables();
      NoNumbersFree(db, e, prefix);
      NothingInserted(db, BulkRows(e, prefix, count, price), ids);
      InsertedRows(db, e, prefix, count, price, ids, 0);
      assert BulkStored(db, db, e, prefix, price, ids, 0);
      if e !in store.events { return [], Some(EventNotFound); }
      seats := [];
      for i := 0 to count
        invariant store.Tables() == db
        invariant |seats| == i && Distinct(seats) && (i > 0 ==> e != "" && price >= 0)
        invariant forall k :: 0 <= k < i ==>
                  fresh(seats[k]) && seats[k].Row() == NewSeatRow(e, SeatNumber(prefix, k + 1), price)
      {
        var s := new Seat(e, SeatNumber(prefix, i + 1), price);
        NumberNotEmpty(prefix, i + 1);
        err := s.Row().Validate();
        if err.Some? {
          assert BulkStored(db, store.Tables(), e, prefix, price, ids, 0);
          return [], err;
        }
        seats := seats + [s];
      }
      assert SeatRows(seats) == BulkRows(e, prefix, count, price);
      var done: nat;
      err, done := CreateBulk(seats, ids, faults);
      InsertedRows(db, e, prefix, count, price, ids, done);
      SameNumbers(e, prefix, price);
      if count > 0 { BulkGoesThrough(db, e, prefix, count, price, ids); }
      if err.Some? { seats := []; }
    }
  }

  lemma NoNumbersFree(db: Db, e: Id, prefix: string)
    ensures NumbersFree(db, e, prefix, 0)
  {
  }

  lemma NumberNotEmpty(prefix: string, i: nat)
    ensures SeatNumber(prefix, i) != ""
  {
  }

  lemma SliceOf(seats: seq<Seat>, i: nat, j: nat)
    requires i <= j <= |seats| && Distinct(seats)
    ensures Distinct(seats[i..j]) && forall k :: 0 <= k < j - i ==> seats[i..j][k] == seats[i + k]
    ensures forall k :: 0 <= k < |seats| && !(i <= k < j) ==> seats[k] !in seats[i..j]
    ensures forall k :: i <= k < j ==> seats[i..j][k - i] == seats[k]
  {
  }

  lemma BatchIsInsert(db: Db, rows: seq<SeatRow>, ids: seq<Id>, i: nat)
    requires |rows| == |ids| && i <= |rows|
    ensures BatchOk(db, rows, ids, i) <==>
            InsertSeats(Inserted(db, rows, ids, i), RowsFrom(rows[i..End(i, |rows|)], ids[i..End(i, |rows|)])).Ok?
  {
  }

  lemma NothingInserted(db: Db, rows: seq<SeatRow>, ids: seq<Id>)
    requires |rows| == |ids|
    ensures Inserted(db, rows, ids, 0) == db
  {
  }

  // ---------------------------------------------------------------- when a bulk creation goes through

  function BulkRows(e: Id, prefix: string, count: nat, price: int): seq<SeatRow> {
    seq(count, i requires 0 <= i < count => NewSeatRow(e, SeatNumber(prefix, i + 1), price))
  }

  /** Every number fits its column and none is taken in this event. */
  predicate NumbersFree(db: Db, e: Id, prefix: string, count: nat) {
    forall i :: 1 <= i <= count ==>
      |SeatNumber(prefix, i)| <= SEAT_NUMBER_WIDTH
      && forall s :: s in db.seats ==> !(db.seats[s].eventId == e && db.seats[s].number == SeatNumber(prefix, i))
  }

  /** All batches go in exactly when the event exists and every number is free: the new numbers never clash
      with one another. */
  lemma BulkGoesThrough(db: Db, e: Id, prefix: string, count: nat, price: int, ids: seq<Id>)
    requires |ids| == count > 0 && Distinct(ids) && Elements(ids) !! db.issued && db.seats.Keys <= db.issued
    ensures BatchesOk(db, BulkRows(e, prefix, count, price), ids, count) <==>
              e in db.events && NumbersFree(db, e, prefix, count)
  {
    hide RowsFrom, BatchesOk, InsertSeats, NumbersFree, SeatNumber, AllAccepted, NumbersUnique;
    var rows := BulkRows(e, prefix, count, price);
    BatchesAreOneInsert(db, rows, ids);
    RowsFromAt(rows, ids);
    InsertTests(db, RowsFrom(rows, ids));
    BulkTable(db, e, prefix, count, price, ids, RowsFrom(rows, ids));
  }

  /** Batching refines one big INSERT of all the rows. */
  lemma {:induction false} BatchesAreOneInsert(db: Db, rows: seq<SeatRow>, ids: seq<Id>)
    requires |rows| == |ids| > 0 && Distinct(ids) && Elements(ids) !! db.issued && db.seats.Keys <= db.issued
    ensures BatchesOk(db, rows, ids, |rows|) <==> InsertSeats(db, RowsFrom(rows, ids)).Ok?
    ensures InsertSeats(db, RowsFrom(rows, ids)).Ok? ==>
              InsertSeats(db, RowsFrom(rows, ids)).value == Inserted(db, rows, ids, |rows|)
  {
    hide RowsFrom, BatchOk;
    var k := (|rows| + BATCH_SIZE - 1) / BATCH_SIZE;
    BatchesMatchOneInsert(db, rows, ids, k);
    assert rows[..|rows|] == rows && ids[..|rows|] == ids;
    assert forall i :: |rows| <= i < k * BATCH_SIZE && i <= |rows| ==> i % BATCH_SIZE != 0;
    assert BatchesOk(db, rows, ids, k * BATCH_SIZE) <==> BatchesOk(db, rows, ids, |rows|);
    RowsFromAt(rows, ids);
    InsertTests(db, RowsFrom(rows, ids));
  }

  lemma BulkTable(db: Db, e: Id, prefix: string, count: nat, price: int, ids: seq<Id>, table: Table)
    requires |ids| == count > 0 && Distinct(ids) && table.Keys == Elements(ids)
    requires forall i :: 0 <= i < count ==>
              ids[i] in table && table[ids[i]] == NewSeatRow(e, SeatNumber(prefix, i + 1), price)
    ensures AllAccepted(db, table) && NumbersUnique(db.seats, table) <==>
              e in db.events && NumbersFree(db, e, prefix, count)
  {
    hide SeatNumber;
    if AllAccepted(db, table) && NumbersUnique(db.seats, table) {
      assert RowAccepted(db, table[ids[0]]);
      forall i | 1 <= i <= count
        ensures |SeatNumber(prefix, i)| <= SEAT_NUMBER_WIDTH
        ensures forall s :: s in db.seats ==> !(db.seats[s].eventId == e && db.seats[s].number == SeatNumber(prefix, i))
      {
        assert RowAccepted(db, table[ids[i - 1]]);
        assert forall s :: s in db.seats ==> !SameNumber(table[ids[i - 1]], db.seats[s]);
      }
    }
    if e in db.events && NumbersFree(db, e, prefix, count) {
      forall s | s in table
        ensures RowAccepted(db, table[s]) && forall t :: t in db.seats ==> !SameNumber(table[s], db.seats[t])
      {
        var i :| 0 <= i < count && ids[i] == s;
        assert |SeatNumber(prefix, i + 1)| <= SEAT_NUMBER_WIDTH;
      }
      forall s, t | s in table && t in table && s != t ensures !SameNumber(table[s], table[t]) {
        var i :| 0 <= i < count && ids[i] == s;
        var j :| 0 <= j < count && ids[j] == t;
        if SeatNumber(prefix, i + 1) == SeatNumber(prefix, j + 1) { SeatNumberInjective(prefix, i + 1, prefix, j + 1); }
      }
    }
  }
}
