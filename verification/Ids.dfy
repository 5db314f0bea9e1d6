/** Session ids as the writer handles them: 32 lowercase hex digits, ordered by
    strcmp, kept in sorted duplicate-free arrays that are searched by bisection. */
module Ids {

  predicate Hex(c: char) {
    '0' <= c <= '9' || 'a' <= c <= 'f'
  }

  predicate IsId(s: string) {
    |s| == 32 && forall i :: 0 <= i < 32 ==> Hex(s[i])
  }

  type Id = s: string | IsId(s) witness "00000000000000000000000000000000"

  function ToSet(s: seq<Id>): set<Id> {
    set x | x in s
  }

  // strcmp: the first differing character decides, and a proper prefix is smaller.
  function Compare(a: string, b: string): int {
    if a == [] && b == [] then 0
    else if a == [] then -1
    else if b == [] then 1
    else if a[0] < b[0] then -1
    else if a[0] > b[0] then 1
    else Compare(a[1..], b[1..])
  }

  predicate Less(a: string, b: string) {
    Compare(a, b) < 0
  }

  lemma {:induction false} CompareZero(a: string, b: string)
    ensures Compare(a, b) == 0 <==> a == b
  {
    if a != [] && b != [] && a[0] == b[0] {
      CompareZero(a[1..], b[1..]);
      assert a == [a[0]] + a[1..] && b == [b[0]] + b[1..];
    }
  }

  lemma {:induction false} CompareFlips(a: string, b: string)
    ensures Compare(a, b) == -Compare(b, a)
  {
    if a != [] && b != [] && a[0] == b[0] {
      CompareFlips(a[1..], b[1..]);
    }
  }

  lemma {:induction false} LessTransitive(a: string, b: string, c: string)
    requires Compare(a, b) <= 0 && Compare(b, c) <= 0
    ensures Compare(a, c) <= 0
    ensures Compare(a, b) < 0 || Compare(b, c) < 0 ==> Compare(a, c) < 0
  {
    if a != [] && b != [] && c != [] && a[0] == b[0] == c[0] {
      LessTransitive(a[1..], b[1..], c[1..]);
    }
  }

  ghost predicate Ordered(s: seq<Id>) {
    forall i, j :: 0 <= i < j < |s| ==> Compare(s[i], s[j]) <= 0
  }

  ghost predicate Strict(s: seq<Id>) {
    forall i, j :: 0 <= i < j < |s| ==> Less(s[i], s[j])
  }

  // The library's qsort, as the ordered rearrangement it is specified to produce.
  function Qsort(s: seq<Id>): seq<Id> {
    if s == [] then [] else Insert(s[0], Qsort(s[1..]))
  }

  function Insert(x: Id, s: seq<Id>): seq<Id> {
    if s == [] || Compare(x, s[0]) <= 0 then [x] + s else [s[0]] + Insert(x, s[1..])
  }

  lemma {:induction false} InsertOrders(x: Id, s: seq<Id>)
    requires Ordered(s)
    ensures Ordered(Insert(x, s)) && |Insert(x, s)| == |s| + 1
    ensures forall y :: y in Insert(x, s) <==> y == x || y in s
  {
    if s == [] {
    } else if Compare(x, s[0]) <= 0 {
      forall j | 0 < j < |s| ensures Compare(x, s[j]) <= 0 {
        LessTransitive(x, s[0], s[j]);
      }
    } else {
      InsertOrders(x, s[1..]);
      CompareFlips(x, s[0]);
      assert s == [s[0]] + s[1..];
      var rest := Insert(x, s[1..]);
      forall j | 0 <= j < |rest| ensures Compare(s[0], rest[j]) <= 0 {
        assert rest[j] in rest;
      }
    }
  }

  lemma {:induction false} QsortOrders(s: seq<Id>)
    ensures Ordered(Qsort(s)) && |Qsort(s)| == |s|
    ensures forall y :: y in Qsort(s) <==> y in s
  {
    if s != [] {
      QsortOrders(s[1..]);
      InsertOrders(s[0], Qsort(s[1..]));
      assert s == [s[0]] + s[1..];
    }
  }

  // One step of the squeeze: what is kept of the first `read` sorted ids.
  ghost predicate Squeezed(kept: seq<Id>, seen: seq<Id>) {
    && Strict(kept)
    && (forall y :: y in kept <==> y in seen)
    && (seen != [] ==> kept != [] && kept[|kept| - 1] == seen[|seen| - 1])
  }

  lemma SqueezeRepeat(kept: seq<Id>, seen: seq<Id>, next: Id)
    requires Squeezed(kept, seen) && kept != [] && Compare(next, kept[|kept| - 1]) == 0
    ensures Squeezed(kept, seen + [next])
  {
    CompareZero(next, kept[|kept| - 1]);
  }

  lemma SqueezeNew(kept: seq<Id>, seen: seq<Id>, next: Id)
    requires Squeezed(kept, seen) && Ordered(seen + [next])
    requires kept != [] ==> Compare(next, kept[|kept| - 1]) != 0
    ensures Squeezed(kept + [next], seen + [next])
  {
    if kept != [] {
      var last := kept[|kept| - 1];
      assert seen != [] by { assert last in kept; }
      assert (seen + [next])[|seen| - 1] == last && (seen + [next])[|seen|] == next;
      CompareFlips(last, next);
      forall i | 0 <= i < |kept| ensures Less(kept[i], next) {
        if i < |kept| - 1 { LessTransitive(kept[i], last, next); }
      }
    }
  }

  lemma SqueezeStep(kept: seq<Id>, sorted: seq<Id>, read: nat)
    requires read < |sorted| && Ordered(sorted) && Squeezed(kept, sorted[..read])
    ensures kept != [] && Compare(sorted[read], kept[|kept| - 1]) == 0 ==> Squeezed(kept, sorted[..read + 1])
    ensures (kept == [] || Compare(sorted[read], kept[|kept| - 1]) != 0) ==>
      Squeezed(kept + [sorted[read]], sorted[..read + 1])
  {
    assert sorted[..read + 1] == sorted[..read] + [sorted[read]];
    if kept != [] && Compare(sorted[read], kept[|kept| - 1]) == 0 {
      SqueezeRepeat(kept, sorted[..read], sorted[read]);
    } else {
      SqueezeNew(kept, sorted[..read], sorted[read]);
    }
  }

  method SortPrefix(a: array<Id>, count: nat) returns (sorted: seq<Id>)
    requires count <= a.Length
    modifies a
    ensures |sorted| == count && Ordered(sorted) && a[..count] == sorted && a[count..] == old(a[count..])
    ensures forall y :: y in sorted <==> y in old(a[..count])
  {
    sorted := Qsort(a[..count]);
    QsortOrders(a[..count]);
    forall i | 0 <= i < count { a[i] := sorted[i]; }
  }

  /** sort_ids: sort, then squeeze out duplicates in place. */
  method SortIds(a: array<Id>, count: nat) returns (kept: nat)
    requires count <= a.Length
    modifies a
    ensures kept <= count
    ensures Strict(a[..kept])
    ensures forall y :: y in a[..kept] <==> y in old(a[..count])
    ensures a[count..] == old(a[count..])
  {
    var sorted := SortPrefix(a, count);
    kept := 0;
    for read := 0 to count
      invariant kept <= read
      invariant forall i :: read <= i < count ==> a[i] == sorted[i]
      invariant a[count..] == old(a[count..])
      invariant Squeezed(a[..kept], sorted[..read])
    {
      SqueezeStep(a[..kept], sorted, read);
      if kept > 0 && Compare(a[read], a[kept - 1]) == 0 {
      } else {
        ghost var head := a[..kept];
        a[kept] := a[read];
        kept := kept + 1;
        assert a[..kept] == head + [sorted[read]];
      }
    }
    assert sorted[..count] == sorted;
  }

  /** bsearch over a strictly sorted prefix. */
  method Search(a: array<Id>, count: nat, key: Id) returns (found: bool, at: nat)
    requires count <= a.Length && Strict(a[..count])
    ensures found <==> key in a[..count]
    ensures found ==> at < count && a[at] == key
  {
    var low, high := 0, count;
    at := 0;
    while low < high
      invariant low <= high <= count
      invariant forall i :: 0 <= i < low ==> Less(a[i], key)
      invariant forall i :: high <= i < count ==> Less(key, a[i])
    {
      var middle := (low + high) / 2;
      var order := Compare(key, a[middle]);
      CompareFlips(key, a[middle]);
      if order == 0 {
        CompareZero(key, a[middle]);
        return true, middle;
      } else if order < 0 {
        forall i | middle < i < count ensures Less(key, a[i]) {
          assert Less(a[..count][middle], a[..count][i]);
          LessTransitive(key, a[middle], a[i]);
        }
        high := middle;
      } else {
        forall i | 0 <= i < middle ensures Less(a[i], key) {
          assert Less(a[..count][i], a[..count][middle]);
          LessTransitive(a[i], a[middle], key);
        }
        low := middle + 1;
      }
    }
    CompareZero(key, key);
    found := false;
  }
}
