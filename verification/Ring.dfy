/** The fixed-size rings of stats.c: an array, a head that wraps, and a count. */
module Ring {
  import opened Options
  import opened Records
  import opened History

  // Wrapping an index that is less than one turn too far.
  lemma Wrap(x: nat, n: nat)
    requires x < 2 * n
    ensures x % n == if x < n then x else x - n
  {
    if x >= n { assert x == n + (x - n); }
  }

  // The place of the i-th oldest row.
  function Place(head: nat, count: nat, capacity: nat, i: nat): (p: nat)
    requires head < capacity && count <= capacity && i < count
    ensures p < capacity
  {
    var p := head + capacity - count + i;
    if p < capacity then p else p - capacity
  }

  // Oldest first.
  function Unrolled(rows: seq<Record>, head: nat, count: nat): (s: seq<Record>)
    requires head < |rows| && count <= |rows|
    ensures |s| == count
  {
    seq<Record>(count, i requires 0 <= i < count => rows[Place(head, count, |rows|, i)])
  }

  function Next(head: nat, capacity: nat): nat
    requires head < capacity
  {
    if head + 1 < capacity then head + 1 else 0
  }

  lemma PushRoom(rows: seq<Record>, head: nat, count: nat, row: Record)
    requires head < |rows| && count < |rows|
    ensures Unrolled(rows[head := row], Next(head, |rows|), count + 1) == Unrolled(rows, head, count) + [row]
  {
    var n, after := |rows|, Unrolled(rows[head := row], Next(head, |rows|), count + 1);
    forall i | 0 <= i < count ensures after[i] == Unrolled(rows, head, count)[i] {
      assert Place(Next(head, n), count + 1, n, i) == Place(head, count, n, i) != head;
    }
    assert Place(Next(head, n), count + 1, n, count) == head;
  }

  lemma PushFull(rows: seq<Record>, head: nat, row: Record)
    requires head < |rows|
    ensures Unrolled(rows[head := row], Next(head, |rows|), |rows|) == Unrolled(rows, head, |rows|)[1..] + [row]
    ensures Unrolled(rows, head, |rows|)[0] == rows[head]
  {
    var n, after := |rows|, Unrolled(rows[head := row], Next(head, |rows|), |rows|);
    forall i | 0 <= i < n - 1 ensures after[i] == Unrolled(rows, head, n)[i + 1] {
      assert Place(Next(head, n), n, n, i) == Place(head, n, n, i + 1) != head;
    }
    assert Place(Next(head, n), n, n, n - 1) == head;
  }

  class StatRing {
    const rows: array<Record>
    var head: nat
    var count: nat

    ghost predicate Valid()
      reads this
    {
      rows.Length > 0 && head < rows.Length && count <= rows.Length
    }

    ghost function Contents(): (s: seq<Record>)
      requires Valid()
      reads this, rows
      ensures |s| == count
    {
      Unrolled(rows[..], head, count)
    }

    constructor (capacity: nat)
      requires capacity > 0
      ensures Valid() && Contents() == [] && rows.Length == capacity && fresh(rows)
    {
      rows := new Record[capacity];
      head, count := 0, 0;
    }

    /** As recovery leaves a ring: the saved rows first, the head after them. */
    constructor Load(saved: seq<Record>, capacity: nat)
      requires 0 < capacity && |saved| <= capacity
      ensures Valid() && Contents() == saved && rows.Length == capacity && fresh(rows)
    {
      rows := new Record[capacity];
      head, count := |saved| % capacity, |saved|;
      new;
      for i := 0 to |saved|
        invariant head == |saved| % capacity && count == |saved|
        invariant forall k :: 0 <= k < i ==> rows[k] == saved[k]
      {
        rows[i] := saved[i];
      }
      Wrap(|saved|, capacity);
      assert forall i :: 0 <= i < |saved| ==> Place(head, count, capacity, i) == i;
    }

    /** ring_push: the displaced row is the oldest one, and only a full ring has one. */
    method Push(row: Record) returns (displaced: Option<Record>)
      requires Valid()
      modifies this`head, this`count, rows
      ensures Valid() && Contents() == History.Push(old(Contents()), row, rows.Length)
      ensures displaced == if old(count) == rows.Length then Some(old(Contents())[0]) else None
    {
      hide Unrolled;
      ghost var before := rows[..];
      displaced := None;
      if count == rows.Length {
        displaced := Some(rows[head]);
        PushFull(before, head, row);
      } else {
        PushRoom(before, head, count, row);
        count := count + 1;
      }
      rows[head] := row;
      assert rows[..] == before[head := row];
      Wrap(head + 1, rows.Length);
      head := (head + 1) % rows.Length;
    }

    /** ring_age: age 0 is the newest row. */
    method Age(age: nat) returns (row: Option<Record>)
      requires Valid()
      ensures row == if age < count then Some(Contents()[count - 1 - age]) else None
    {
      if age >= count { return None; }
      Wrap(head + rows.Length - 1 - age, rows.Length);
      row := Some(rows[(head + rows.Length - 1 - age) % rows.Length]);
    }
  }
}
