/** The open-addressing index of a static bundle: a power-of-two table, at most half full,
    probed linearly from the hash of a URL. The hash is any function. */
module StaticIndex {
  import opened Options

  // ----- probing -----

  // The slot d steps after start, wrapping once; masking a power of two does the same.
  function Place(start: nat, d: nat, size: nat): (p: nat)
    requires start < size && d <= size
    ensures p < size
  {
    if start + d < size then start + d else start + d - size
  }

  // How far p lies after start.
  function Distance(start: nat, p: nat, size: nat): (d: nat)
    requires start < size && p < size
    ensures d < size && Place(start, d, size) == p
  {
    if p >= start then p - start else p + size - start
  }

  // The probe path of d slots from start has no gap.
  predicate Unbroken(slots: seq<nat>, start: nat, d: nat)
    requires start < |slots| && d <= |slots|
  {
    forall k :: 0 <= k < d ==> slots[Place(start, k, |slots|)] != 0
  }

  function Home(hash: string -> nat, url: string, size: nat): (h: nat)
    requires size > 0
    ensures h < size
  {
    hash(url) % size
  }

  // Entry i is found d steps from its home.
  predicate FoundAt(slots: seq<nat>, home: nat, i: nat, d: nat)
    requires home < |slots|
  {
    d < |slots| && slots[Place(home, d, |slots|)] == i + 1 && Unbroken(slots, home, d)
  }

  function Occupied(slots: seq<nat>): nat {
    if slots == [] then 0 else Occupied(slots[..|slots| - 1]) + if slots[|slots| - 1] != 0 then 1 else 0
  }

  predicate AllDistinct(urls: seq<string>) {
    forall i, j :: 0 <= i < j < |urls| ==> urls[i] != urls[j]
  }

  ghost predicate Located(slots: seq<nat>, url: string, i: nat, hash: string -> nat)
    requires 0 < |slots|
  {
    exists d :: FoundAt(slots, Home(hash, url, |slots|), i, d)
  }

  // The first n URLs are indexed and nothing else is.
  ghost predicate Indexes(slots: seq<nat>, urls: seq<string>, n: nat, hash: string -> nat) {
    && 0 < |slots| && n <= |urls|
    && (forall p :: 0 <= p < |slots| ==> slots[p] <= n)
    && (forall i :: 0 <= i < n ==> Located(slots, urls[i], i, hash))
    && Occupied(slots) == n
  }

  // ----- a table with room has a free slot -----

  lemma {:induction false} OccupiedUpdate(slots: seq<nat>, p: nat, v: nat)
    requires p < |slots| && slots[p] == 0 && v != 0
    ensures Occupied(slots[p := v]) == Occupied(slots) + 1
    decreases |slots|
  {
    var n := |slots| - 1;
    if p < n {
      OccupiedUpdate(slots[..n], p, v);
      assert slots[p := v][..n] == slots[..n][p := v];
    } else {
      assert slots[p := v][..n] == slots[..n];
    }
  }

  lemma {:induction false} OccupiedFull(slots: seq<nat>)
    requires forall p :: 0 <= p < |slots| ==> slots[p] != 0
    ensures Occupied(slots) == |slots|
    decreases |slots|
  {
    if slots != [] { OccupiedFull(slots[..|slots| - 1]); }
  }

  lemma {:induction false} OccupiedNone(slots: seq<nat>)
    requires forall p :: 0 <= p < |slots| ==> slots[p] == 0
    ensures Occupied(slots) == 0
    decreases |slots|
  {
    if slots != [] { OccupiedNone(slots[..|slots| - 1]); }
  }

  // Probing the whole table without a gap would mean that it is full.
  lemma NotWholeTable(slots: seq<nat>, start: nat, d: nat)
    requires start < |slots| && d <= |slots| && Unbroken(slots, start, d) && Occupied(slots) < |slots|
    ensures d < |slots|
  {
    if d == |slots| {
      forall p | 0 <= p < |slots| ensures slots[p] != 0 {
        assert slots[Place(start, Distance(start, p, |slots|), |slots|)] != 0;
      }
      OccupiedFull(slots);
    }
  }

  lemma UnbrokenNext(slots: seq<nat>, start: nat, d: nat)
    requires start < |slots| && d < |slots| && Unbroken(slots, start, d) && slots[Place(start, d, |slots|)] != 0
    ensures Unbroken(slots, start, d + 1)
  {
  }

  // ----- looking up -----

  // An entry is seen before the first gap after its home.
  lemma SeenBeforeGap(slots: seq<nat>, url: string, i: nat, hash: string -> nat, home: nat, d: nat)
    requires home < |slots| && Located(slots, url, i, hash) && d < |slots| && slots[Place(home, d, |slots|)] == 0
    ensures home == Home(hash, url, |slots|) ==> exists k: nat :: k < d && slots[Place(home, k, |slots|)] == i + 1
  {
    if home == Home(hash, url, |slots|) {
      var e: nat :| FoundAt(slots, home, i, e);
      assert e < d && slots[Place(home, e, |slots|)] == i + 1;
    }
  }

  // No entry seen on a gap-ended probe path has the URL: then no entry has.
  lemma MissMeansAbsent(slots: seq<nat>, urls: seq<string>, n: nat, hash: string -> nat, url: string, d: nat)
    requires Indexes(slots, urls, n, hash)
    requires var home := Home(hash, url, |slots|);
      d < |slots| && slots[Place(home, d, |slots|)] == 0
      && (forall k :: 0 <= k < d ==>
            slots[Place(home, k, |slots|)] != 0 && urls[slots[Place(home, k, |slots|)] - 1] != url)
    ensures forall i :: 0 <= i < n ==> urls[i] != url
  {
    forall i | 0 <= i < n ensures urls[i] != url {
      SeenBeforeGap(slots, urls[i], i, hash, Home(hash, url, |slots|), d);
    }
  }

  // ----- inserting -----

  lemma InsertKeepsOne(slots: seq<nat>, home: nat, i: nat, d: nat, p: nat, v: nat)
    requires home < |slots| && p < |slots| && slots[p] == 0 && v != 0 && FoundAt(slots, home, i, d)
    ensures FoundAt(slots[p := v], home, i, d)
  {
  }

  lemma OwnPlace(slots: seq<nat>, home: nat, n: nat, d: nat)
    requires home < |slots| && d < |slots| && Unbroken(slots, home, d) && slots[Place(home, d, |slots|)] == 0
    ensures FoundAt(slots[Place(home, d, |slots|) := n + 1], home, n, d)
  {
  }

  lemma InsertKeeps(slots: seq<nat>, urls: seq<string>, n: nat, hash: string -> nat, d: nat)
    requires Indexes(slots, urls, n, hash) && n < |urls|
    requires var home := Home(hash, urls[n], |slots|);
      d < |slots| && Unbroken(slots, home, d) && slots[Place(home, d, |slots|)] == 0
    ensures Indexes(slots[Place(Home(hash, urls[n], |slots|), d, |slots|) := n + 1], urls, n + 1, hash)
  {
    hide Home, Place, Occupied, Unbroken;
    var home := Home(hash, urls[n], |slots|);
    var p := Place(home, d, |slots|);
    var after := slots[p := n + 1];
    OccupiedUpdate(slots, p, n + 1);
    assert |after| == |slots|;
    forall i | 0 <= i < n + 1 ensures Located(after, urls[i], i, hash) {
      if i < n {
        assert Located(slots, urls[i], i, hash);
        var e :| FoundAt(slots, Home(hash, urls[i], |slots|), i, e);
        InsertKeepsOne(slots, Home(hash, urls[i], |slots|), i, e, p, n + 1);
      } else {
        OwnPlace(slots, home, n, d);
      }
    }
  }

  lemma IndexedRange(slots: seq<nat>, urls: seq<string>, n: nat, hash: string -> nat)
    requires Indexes(slots, urls, n, hash)
    ensures 0 < |slots| && n <= |urls| && Occupied(slots) == n && forall p :: 0 <= p < |slots| ==> slots[p] <= n
  {
  }

  // ----- the bundle -----

  predicate PowerOfTwo(n: nat) {
    n == 1 || (n > 1 && n % 2 == 0 && PowerOfTwo(n / 2))
  }

  /** The sizing of the table: a power of two, at least twice the entries. */
  method SlotCount(count: nat) returns (size: nat)
    ensures size >= 32 && size >= 2 * count && PowerOfTwo(size)
  {
    size := 32;
    assert PowerOfTwo(2) && PowerOfTwo(4) && PowerOfTwo(8) && PowerOfTwo(16);
    while size < count * 2
      invariant size >= 32 && PowerOfTwo(size)
    {
      size := size * 2;
    }
  }

  class Bundle {
    const urls: seq<string>
    const slots: array<nat>

    ghost predicate Loaded(hash: string -> nat)
      reads slots
    {
      Indexes(slots[..], urls, |urls|, hash) && AllDistinct(urls) && slots.Length >= 2 * |urls|
    }

    constructor (entries: seq<string>, size: nat)
      ensures urls == entries && slots.Length == size && fresh(slots) && forall p :: 0 <= p < size ==> slots[p] == 0
    {
      urls := entries;
      slots := new nat[size](_ => 0);
    }

    /** The slot table construction of ankah_static_load: it fails on a URL that two
        entries share, and only then. */
    method Build(hash: string -> nat) returns (ok: bool)
      requires slots.Length >= 32 && slots.Length >= 2 * |urls| && forall p :: 0 <= p < slots.Length ==> slots[p] == 0
      modifies slots
      ensures ok <==> AllDistinct(urls)
      ensures ok ==> Loaded(hash)
    {
      OccupiedNone(slots[..]);
      for i := 0 to |urls|
        invariant Indexes(slots[..], urls, i, hash) && AllDistinct(urls[..i])
      {
        var at := Insert(hash, i);
        if at.None? { return false; }
        assert urls[..i + 1] == urls[..i] + [urls[i]];
      }
      assert urls[..|urls|] == urls;
      ok := true;
    }

    // One turn: probe to a free slot unless the URL is met on the way.
    method Insert(hash: string -> nat, i: nat) returns (at: Option<nat>)
      requires i < |urls| && Indexes(slots[..], urls, i, hash) && slots.Length >= 2 * |urls|
      modifies slots
      ensures at.None? ==> exists j :: 0 <= j < i && urls[j] == urls[i]
      ensures at.Some? ==> Indexes(slots[..], urls, i + 1, hash) && forall j :: 0 <= j < i ==> urls[j] != urls[i]
    {
      hide Indexes, Occupied;
      IndexedRange(slots[..], urls, i, hash);
      var slot := Home(hash, urls[i], slots.Length);
      ghost var table, home, d := slots[..], slot, 0;
      while slots[slot] != 0
        invariant d < slots.Length && slot == Place(home, d, slots.Length) && slots[..] == table
        invariant Unbroken(table, home, d)
        invariant forall k :: 0 <= k < d ==> urls[table[Place(home, k, slots.Length)] - 1] != urls[i]
        decreases slots.Length - d
      {
        if urls[slots[slot] - 1] == urls[i] { return None; }
        UnbrokenNext(table, home, d);
        NotWholeTable(table, home, d + 1);
        slot := if slot + 1 < slots.Length then slot + 1 else 0;
        d := d + 1;
      }
      MissMeansAbsent(table, urls, i, hash, urls[i], d);
      InsertKeeps(table, urls, i, hash, d);
      slots[slot] := i + 1;
      assert slots[..] == table[slot := i + 1];
      at := Some(slot);
    }

    /** ankah_static_find: a URL is found exactly when some entry has it, and then that
        entry is returned. */
    method Find(hash: string -> nat, url: string) returns (entry: Option<nat>)
      requires Loaded(hash) && slots.Length >= 32
      ensures entry.Some? ==> entry.value < |urls| && urls[entry.value] == url
      ensures entry.None? <==> url !in urls
    {
      var slot := Home(hash, url, slots.Length);
      ghost var home, d := slot, 0;
      while slots[slot] != 0
        invariant d < slots.Length && slot == Place(home, d, slots.Length)
        invariant Unbroken(slots[..], home, d)
        invariant forall k :: 0 <= k < d ==> urls[slots[Place(home, k, slots.Length)] - 1] != url
        decreases slots.Length - d
      {
        if urls[slots[slot] - 1] == url { return Some(slots[slot] - 1); }
        UnbrokenNext(slots[..], home, d);
        NotWholeTable(slots[..], home, d + 1);
        slot := if slot + 1 < slots.Length then slot + 1 else 0;
        d := d + 1;
      }
      MissMeansAbsent(slots[..], urls, |urls|, hash, url, d);
      entry := None;
    }
  }
}
