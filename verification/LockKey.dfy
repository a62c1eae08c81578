/**
 The lock key of a seat list: the ids sorted, joined with commas, behind a prefix.
 Sorting makes the key independent of the order of the ids; the separator keeps different lists apart.
 */
module LockKey {

  // ---------------------------------------------------------------- the order on strings

  /** Lexicographic order by character. */
  predicate Le(a: string, b: string) {
    if |a| == 0 then true
    else if |b| == 0 then false
    else a[0] < b[0] || (a[0] == b[0] && Le(a[1..], b[1..]))
  }

  lemma {:induction false} LeTotal(a: string, b: string)
    ensures Le(a, b) || Le(b, a)
  {
    if |a| > 0 && |b| > 0 { LeTotal(a[1..], b[1..]); }
  }

  lemma {:induction false} LeAntisymmetric(a: string, b: string)
    requires Le(a, b) && Le(b, a)
    ensures a == b
  {
    if |a| > 0 && |b| > 0 {
      LeAntisymmetric(a[1..], b[1..]);
      assert a == [a[0]] + a[1..] && b == [b[0]] + b[1..];
    }
  }

  lemma {:induction false} LeTransitive(a: string, b: string, c: string)
    requires Le(a, b) && Le(b, c)
    ensures Le(a, c)
  {
    if |a| > 0 && a[0] == b[0] && b[0] == c[0] { LeTransitive(a[1..], b[1..], c[1..]); }
  }

  // ---------------------------------------------------------------- sorting

  ghost predicate Sorted(s: seq<string>) {
    forall i, j :: 0 <= i < j < |s| ==> Le(s[i], s[j])
  }

  function Insert(x: string, s: seq<string>): seq<string> {
    if |s| == 0 then [x] else if Le(x, s[0]) then [x] + s else [s[0]] + Insert(x, s[1..])
  }

  function Sort(s: seq<string>): seq<string> {
    if |s| == 0 then [] else Insert(s[|s| - 1], Sort(s[..|s| - 1]))
  }

  lemma {:induction false} InsertElements(x: string, s: seq<string>)
    ensures multiset(Insert(x, s)) == multiset(s) + multiset{x}
    ensures forall y :: y in Insert(x, s) ==> y == x || y in s
  {
    if |s| > 0 {
      assert s == [s[0]] + s[1..];
      if !Le(x, s[0]) { InsertElements(x, s[1..]); }
    }
  }

  lemma SortedCons(h: string, t: seq<string>)
    requires Sorted(t) && forall y :: y in t ==> Le(h, y)
    ensures Sorted([h] + t)
  {
  }

  lemma {:induction false} InsertSorted(x: string, s: seq<string>)
    requires Sorted(s)
    ensures Sorted(Insert(x, s))
  {
    if |s| > 0 {
      if Le(x, s[0]) {
        forall y | y in s ensures Le(x, y) {
          SortedLeast(s, y);
          LeTransitive(x, s[0], y);
        }
        SortedCons(x, s);
      } else {
        LeTotal(x, s[0]);
        InsertSorted(x, s[1..]);
        InsertElements(x, s[1..]);
        SortedCons(s[0], Insert(x, s[1..]));
      }
    }
  }

  lemma {:induction false} SortSorted(s: seq<string>)
    ensures Sorted(Sort(s)) && multiset(Sort(s)) == multiset(s)
  {
    if |s| > 0 {
      assert s == s[..|s| - 1] + [s[|s| - 1]];
      SortSorted(s[..|s| - 1]);
      InsertSorted(s[|s| - 1], Sort(s[..|s| - 1]));
      InsertElements(s[|s| - 1], Sort(s[..|s| - 1]));
    }
  }

  lemma {:induction false} SortedLeast(s: seq<string>, x: string)
    requires Sorted(s) && x in s
    ensures Le(s[0], x)
  {
    LeTotal(x, x);
  }

  lemma HeadTail(s: seq<string>)
    requires |s| > 0
    ensures multiset(s) == multiset{s[0]} + multiset(s[1..]) && s[0] in multiset(s)
  {
    assert s == [s[0]] + s[1..];
  }

  lemma CancelHead(a: multiset<string>, b: multiset<string>, x: string)
    requires multiset{x} + a == multiset{x} + b
    ensures a == b
  {
    assert a == (multiset{x} + a) - multiset{x};
    assert b == (multiset{x} + b) - multiset{x};
  }

  lemma SortedHeads(s: seq<string>, t: seq<string>)
    requires |s| > 0 && |t| > 0 && Sorted(s) && Sorted(t) && multiset(s) == multiset(t)
    ensures s[0] == t[0]
  {
    HeadTail(s);
    HeadTail(t);
    assert t[0] in s && s[0] in t;
    SortedLeast(s, t[0]);
    SortedLeast(t, s[0]);
    LeAntisymmetric(s[0], t[0]);
  }

  /** A multiset of strings has only one sorted arrangement, so any correct sort gives the same key. */
  lemma {:induction false} SortedUnique(s: seq<string>, t: seq<string>)
    requires Sorted(s) && Sorted(t) && multiset(s) == multiset(t)
    ensures s == t
  {
    assert |s| == |multiset(s)| == |multiset(t)| == |t|;
    if |s| > 0 {
      SortedHeads(s, t);
      HeadTail(s);
      HeadTail(t);
      CancelHead(multiset(s[1..]), multiset(t[1..]), s[0]);
      SortedUnique(s[1..], t[1..]);
      assert s == [s[0]] + s[1..] && t == [t[0]] + t[1..];
    }
  }

  // ---------------------------------------------------------------- joining

  function Join(s: seq<string>): string {
    if |s| == 0 then "" else if |s| == 1 then s[0] else s[0] + "," + Join(s[1..])
  }

  predicate PlainId(x: string) { x != "" && ',' !in x }

  predicate Plain(s: seq<string>) {
    forall x :: x in s ==> PlainId(x)
  }

  lemma JoinPrefix(s: seq<string>)
    requires |s| > 0
    ensures |s[0]| <= |Join(s)| && Join(s)[..|s[0]|] == s[0]
    ensures |s| > 1 ==> |s[0]| < |Join(s)| && Join(s)[|s[0]|] == ',' && Join(s)[|s[0]| + 1..] == Join(s[1..])
  {
  }

  lemma JoinHead(a: seq<string>, b: seq<string>)
    requires |a| > 0 && |b| > 0 && ',' !in b[0] && Join(a) == Join(b)
    ensures |b[0]| <= |a[0]|
  {
    JoinPrefix(a);
    JoinPrefix(b);
    assert forall k :: 0 <= k < |b[0]| ==> Join(b)[..|b[0]|][k] == Join(a)[k];
  }

  lemma {:induction false} JoinInjective(a: seq<string>, b: seq<string>)
    requires Plain(a) && Plain(b) && Join(a) == Join(b)
    ensures a == b
  {
    if |a| > 0 && |b| > 0 {
      assert PlainId(a[0]) && PlainId(b[0]);
      JoinHead(a, b);
      JoinHead(b, a);
      JoinPrefix(a);
      JoinPrefix(b);
      if |a| > 1 && |b| > 1 {
        PlainTail(a);
        PlainTail(b);
        JoinInjective(a[1..], b[1..]);
        assert a == [a[0]] + a[1..] && b == [b[0]] + b[1..];
      }
    } else if |a| > 0 {
      assert PlainId(a[0]);
      JoinPrefix(a);
    } else if |b| > 0 {
      assert PlainId(b[0]);
      JoinPrefix(b);
    }
  }

  lemma PlainTail(s: seq<string>)
    requires |s| > 0 && Plain(s)
    ensures Plain(s[1..])
  {
    assert forall x :: x in s[1..] ==> x in s;
  }

  lemma PlainSort(s: seq<string>)
    requires Plain(s)
    ensures Plain(Sort(s))
  {
    SortSorted(s);
    forall x | x in Sort(s) ensures PlainId(x) {
      assert x in multiset(Sort(s));
    }
  }

  // ---------------------------------------------------------------- the key

  function SeatLockKey(seatIds: seq<string>): string {
    "seats:" + Join(Sort(seatIds))
  }

  /** Equal seat lists up to order always share the key. */
  lemma SameSeatsSameKey(a: seq<string>, b: seq<string>)
    requires multiset(a) == multiset(b)
    ensures SeatLockKey(a) == SeatLockKey(b)
  {
    SortSorted(a);
    SortSorted(b);
    SortedUnique(Sort(a), Sort(b));
  }

  /** For non-empty, comma-free ids the key identifies the seat list up to order. */
  lemma KeyCanonical(a: seq<string>, b: seq<string>)
    requires Plain(a) && Plain(b)
    ensures SeatLockKey(a) == SeatLockKey(b) <==> multiset(a) == multiset(b)
  {
    if SeatLockKey(a) == SeatLockKey(b) {
      assert Join(Sort(a)) == SeatLockKey(a)[6..] == SeatLockKey(b)[6..] == Join(Sort(b));
      PlainSort(a);
      PlainSort(b);
      JoinInjective(Sort(a), Sort(b));
      SortSorted(a);
      SortSorted(b);
    } else if multiset(a) == multiset(b) {
      SameSeatsSameKey(a, b);
    }
  }

  /** With a comma inside an id, two different lists can share a key. */
  lemma CommaCollides()
    ensures SeatLockKey(["a,b"]) == SeatLockKey(["a", "b"]) && multiset(["a,b"]) != multiset(["a", "b"])
  {
    assert Sort(["a"]) == ["a"] by { assert ["a"][..0] == []; }
    assert ["a", "b"][..1] == ["a"];
    assert Le("a", "a") && !Le("b", "a");
    assert Sort(["a", "b"]) == Insert("b", ["a"]) == ["a"] + Insert("b", []) == ["a", "b"];
    assert Sort(["a,b"]) == ["a,b"] by { assert ["a,b"][..0] == []; }
    assert Join(["a", "b"]) == "a" + "," + Join(["b"]) == "a,b" by { assert ["a", "b"][1..] == ["b"]; }
    assert "a,b" in multiset(["a,b"]) && "a,b" !in multiset(["a", "b"]);
  }

  // ---------------------------------------------------------------- the code

  /** Inserting at position `j` of a sorted list, when everything before is smaller and the rest is not. */
  lemma {:induction false} InsertAt(x: string, s: seq<string>, j: nat)
    requires j <= |s|
    requires forall k :: 0 <= k < j ==> !Le(x, s[k])
    requires j < |s| ==> Le(x, s[j])
    ensures Insert(x, s) == s[..j] + [x] + s[j..]
    decreases j
  {
    if j > 0 {
      InsertAt(x, s[1..], j - 1);
      assert s[..j] == [s[0]] + s[1..][..j - 1];
      assert s[1..][j - 1..] == s[j..];
    }
  }

  /** Stands for the library's in-place sort. */
  method SortStrings(a: array<string>)
    modifies a
    ensures a[..] == Sort(old(a[..]))
  {
    var i := 0;
    while i < a.Length
      invariant 0 <= i <= a.Length
      invariant a[..i] == Sort(old(a[..i]))
      invariant a[i..] == old(a[i..])
    {
      SortSorted(old(a[..i]));
      SortOne(a, i);
      assert old(a[..i + 1])[..i] == old(a[..i]);
      i := i + 1;
    }
    assert a[..] == a[..i] && old(a[..]) == old(a[..i]);
  }

  method SortOne(a: array<string>, i: nat)
    requires i < a.Length && Sorted(a[..i])
    modifies a
    ensures a[..i + 1] == Insert(old(a[i]), old(a[..i]))
    ensures a[i + 1..] == old(a[i + 1..])
  {
    ghost var was := a[..i];
    var x, j := a[i], i;
    while j > 0 && Le(x, a[j - 1])
      invariant 0 <= j <= i
      invariant forall k :: 0 <= k < j ==> a[k] == was[k]
      invariant forall k :: j < k <= i ==> a[k] == was[k - 1]
      invariant j < i ==> Le(x, was[j])
      invariant a[i + 1..] == old(a[i + 1..])
    {
      a[j] := a[j - 1];
      j := j - 1;
    }
    a[j] := x;
    SmallerBefore(x, was, j);
    InsertAt(x, was, j);
    Assemble(a[..i + 1], x, was, j);
  }

  lemma Assemble(t: seq<string>, x: string, s: seq<string>, j: nat)
    requires |t| == |s| + 1 && j <= |s| && t[j] == x
    requires forall k :: 0 <= k < j ==> t[k] == s[k]
    requires forall k :: j < k <= |s| ==> t[k] == s[k - 1]
    ensures t == s[..j] + [x] + s[j..]
  {
  }

  lemma SmallerBefore(x: string, s: seq<string>, j: nat)
    requires Sorted(s) && j <= |s| && (j > 0 ==> !Le(x, s[j - 1]))
    ensures forall k :: 0 <= k < j ==> !Le(x, s[k])
  {
    forall k | 0 <= k < j ensures !Le(x, s[k]) {
      if Le(x, s[k]) && k < j - 1 { LeTransitive(x, s[k], s[j - 1]); }
    }
  }

  method BuildSeatLockKey(seatIds: seq<string>) returns (key: string)
    ensures key == SeatLockKey(seatIds)
  {
    var sorted := new string[|seatIds|](i requires 0 <= i < |seatIds| => seatIds[i]);
    assert sorted[..] == seatIds;
    SortStrings(sorted);
    key := "seats:" + Join(sorted[..]);
  }
}
