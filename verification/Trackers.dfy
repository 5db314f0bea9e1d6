/** Bounded tables of addresses: how an address finds its cell, and which cell a new
    address takes; and the sliding windows kept in them. */
module Trackers {

  // A cell without an address is empty.
  datatype Cell<T> = Cell(ip: string, seen: nat, data: T)

  // The first cell with this address, or |cells|.
  function IndexOf<T>(cells: seq<Cell<T>>, ip: string): (i: nat)
    ensures i <= |cells| && (i < |cells| ==> cells[i].ip == ip)
    ensures forall k :: 0 <= k < i ==> cells[k].ip != ip
  {
    if cells == [] || cells[0].ip == ip then 0 else 1 + IndexOf(cells[1..], ip)
  }

  predicate Resident<T>(cells: seq<Cell<T>>, ip: string) {
    IndexOf(cells, ip) < |cells|
  }

  // The cell of a resident address.
  function CellOf<T>(cells: seq<Cell<T>>, ip: string): Cell<T>
    requires Resident(cells, ip)
  {
    cells[IndexOf(cells, ip)]
  }

  predicate Full<T>(cells: seq<Cell<T>>) {
    forall k :: 0 <= k < |cells| ==> cells[k].ip != ""
  }

  // A cell that a new address may take: an empty one, or in a full table the least
  // recently seen.
  predicate MayTake<T>(cells: seq<Cell<T>>, slot: nat) {
    slot < |cells| &&
    (cells[slot].ip == "" || (Full(cells) && forall k :: 0 <= k < |cells| ==> cells[slot].seen <= cells[k].seen))
  }

  predicate Distinct<T>(cells: seq<Cell<T>>) {
    forall j, k :: 0 <= j < k < |cells| && cells[j].ip != "" ==> cells[j].ip != cells[k].ip
  }

  // How the scan for an address goes: found, or a cell to take.
  predicate Placed<T>(cells: seq<Cell<T>>, ip: string, slot: nat) {
    slot < |cells| &&
    (if Resident(cells, ip) then slot == IndexOf(cells, ip) else MayTake(cells, slot))
  }

  /** Writing an address where the scan placed it keeps addresses distinct, and every
      other address that stays keeps its cell. */
  lemma PlacedKeeps<T>(cells: seq<Cell<T>>, ip: string, slot: nat, cell: Cell<T>)
    requires Distinct(cells) && Placed(cells, ip, slot) && cell.ip == ip && ip != ""
    ensures var after := cells[slot := cell];
      && Distinct(after) && Resident(after, ip) && CellOf(after, ip) == cell
      && forall other :: other != ip && other != "" && Resident(after, other) ==>
           Resident(cells, other) && CellOf(after, other) == CellOf(cells, other)
  {
    var after := cells[slot := cell];
    assert after[slot].ip == ip;
    if !Resident(cells, ip) { assert forall k :: 0 <= k < |cells| ==> cells[k].ip != ip; }
    forall other | other != ip && other != "" && Resident(after, other)
      ensures Resident(cells, other) && CellOf(after, other) == CellOf(cells, other)
    {
      var i := IndexOf(after, other);
      assert i != slot && cells[i].ip == other;
    }
  }

  // ----- the scans -----

  function Addresses<T>(cells: seq<Cell<T>>): set<string> {
    set k | 0 <= k < |cells| :: cells[k].ip
  }

  /** The scan of dots_policy.c, which keeps the first empty cell. */
  method ScanFirstEmpty<T>(cells: array<Cell<T>>, ip: string) returns (slot: nat, found: bool)
    requires cells.Length > 0 && ip != ""
    ensures Placed(cells[..], ip, slot) && (found <==> Resident(cells[..], ip))
    ensures slot < cells.Length && (if found then cells[slot].ip == ip else ip !in Addresses(cells[..]))
    ensures !found && cells[slot].ip != "" ==>
      forall k :: 0 <= k < cells.Length ==> cells[k].ip != "" && cells[slot].seen <= cells[k].seen
  {
    slot := 0;
    for i := 0 to cells.Length
      invariant slot < cells.Length && slot <= i && (slot == i ==> i == 0)
      invariant forall k :: 0 <= k < i ==> cells[k].ip != ip
      invariant cells[slot].ip != "" ==>
          forall k :: 0 <= k < i ==> cells[k].ip != "" && cells[slot].seen <= cells[k].seen
    {
      if cells[i].ip == ip {
        FirstIndex(cells[..], ip, i);
        return i, true;
      }
      if cells[i].ip == "" {
        if cells[slot].ip != "" { slot := i; }
      } else if cells[slot].ip != "" && cells[i].seen < cells[slot].seen {
        slot := i;
      }
    }
    FirstIndex(cells[..], ip, cells.Length);
    found := false;
  }

  /** The scan of abuse_policy.c, which keeps the last empty cell. */
  method ScanLastEmpty<T>(cells: array<Cell<T>>, ip: string) returns (slot: nat, found: bool)
    requires cells.Length > 0 && ip != ""
    ensures Placed(cells[..], ip, slot) && (found <==> Resident(cells[..], ip))
    ensures slot < cells.Length && (if found then cells[slot].ip == ip else ip !in Addresses(cells[..]))
    ensures !found && cells[slot].ip != "" ==>
      forall k :: 0 <= k < cells.Length ==> cells[k].ip != "" && cells[slot].seen <= cells[k].seen
  {
    slot := 0;
    for i := 0 to cells.Length
      invariant slot < cells.Length && slot <= i && (slot == i ==> i == 0)
      invariant forall k :: 0 <= k < i ==> cells[k].ip != ip
      invariant cells[slot].ip != "" ==>
          forall k :: 0 <= k < i ==> cells[k].ip != "" && cells[slot].seen <= cells[k].seen
    {
      if cells[i].ip == ip {
        FirstIndex(cells[..], ip, i);
        return i, true;
      }
      if cells[i].ip == "" {
        slot := i;
      } else if cells[slot].ip != "" && cells[i].seen < cells[slot].seen {
        slot := i;
      }
    }
    FirstIndex(cells[..], ip, cells.Length);
    found := false;
  }

  lemma FirstIndex<T>(cells: seq<Cell<T>>, ip: string, i: nat)
    requires i <= |cells| && (i < |cells| ==> cells[i].ip == ip)
    requires forall k :: 0 <= k < i ==> cells[k].ip != ip
    ensures IndexOf(cells, ip) == i
  {
  }

  // ----- sliding windows -----

  // Marks in time, each with a hash that only some events use.
  datatype Mark = Mark(at: nat, hash: nat)

  predicate Sorted(marks: seq<Mark>, now: nat) {
    && (forall i, j :: 0 <= i < j < |marks| ==> marks[i].at <= marks[j].at)
    && (forall i :: 0 <= i < |marks| ==> marks[i].at <= now)
  }

  predicate InWindow(m: Mark, now: nat, window: nat) {
    now >= m.at && now - m.at < window
  }

  // The filtering loop of both trackers.
  function Kept(marks: seq<Mark>, now: nat, window: nat): seq<Mark> {
    if marks == [] then []
    else
      var n := |marks| - 1;
      Kept(marks[..n], now, window) + if InWindow(marks[n], now, window) then [marks[n]] else []
  }

  // The events of the last `window` nanoseconds.
  function Within(marks: seq<Mark>, now: nat, window: nat): set<nat> {
    set i | 0 <= i < |marks| && marks[i].at <= now < marks[i].at + window
  }

  /** The filter keeps as many marks as there are events in the window, and only those. */
  lemma {:induction false} KeptMeans(marks: seq<Mark>, now: nat, window: nat)
    ensures |Kept(marks, now, window)| == |Within(marks, now, window)|
    ensures forall m :: m in Kept(marks, now, window) ==> m in marks && m.at <= now < m.at + window
    decreases |marks|
  {
    if marks != [] {
      var n := |marks| - 1;
      KeptMeans(marks[..n], now, window);
      WithinLast(marks, now, window);
    }
  }

  lemma WithinLast(marks: seq<Mark>, now: nat, window: nat)
    requires marks != []
    ensures var n := |marks| - 1; var before := Within(marks[..n], now, window);
      Within(marks, now, window) == (if InWindow(marks[n], now, window) then before + {n} else before) && n !in before
  {
  }

  function LastOf(marks: seq<Mark>, n: nat): seq<Mark> {
    if |marks| <= n then marks else marks[|marks| - n..]
  }

  // How many leading marks have left the window.
  function Expired(marks: seq<Mark>, now: nat, window: nat): (k: nat)
    ensures k <= |marks|
    ensures forall i :: 0 <= i < k ==> !InWindow(marks[i], now, window)
    ensures k < |marks| ==> InWindow(marks[k], now, window)
  {
    if marks == [] || InWindow(marks[0], now, window) then 0 else 1 + Expired(marks[1..], now, window)
  }

  lemma {:induction false} KeptAll(marks: seq<Mark>, now: nat, window: nat)
    requires forall i :: 0 <= i < |marks| ==> InWindow(marks[i], now, window)
    ensures Kept(marks, now, window) == marks
    decreases |marks|
  {
    if marks != [] { KeptAll(marks[..|marks| - 1], now, window); }
  }

  lemma {:induction false} KeptNone(marks: seq<Mark>, now: nat, window: nat)
    requires forall i :: 0 <= i < |marks| ==> !InWindow(marks[i], now, window)
    ensures Kept(marks, now, window) == []
    decreases |marks|
  {
    if marks != [] { KeptNone(marks[..|marks| - 1], now, window); }
  }

  lemma {:induction false} KeptConcat(a: seq<Mark>, b: seq<Mark>, now: nat, window: nat)
    ensures Kept(a + b, now, window) == Kept(a, now, window) + Kept(b, now, window)
    decreases |b|
  {
    if b == [] {
      assert a + b == a;
    } else {
      var n := |b| - 1;
      assert (a + b)[..|a| + n] == a + b[..n] && (a + b)[|a| + n] == b[n];
      KeptConcat(a, b[..n], now, window);
    }
  }

  // A mark that has left the window stays out.
  lemma WindowPasses(m: Mark, now: nat, later: nat, window: nat)
    requires m.at <= now <= later && InWindow(m, later, window)
    ensures InWindow(m, now, window)
  {
  }

  lemma LaterInWindow(marks: seq<Mark>, now: nat, window: nat)
    requires Sorted(marks, now)
    ensures forall i :: Expired(marks, now, window) <= i < |marks| ==> InWindow(marks[i], now, window)
  {
    var k := Expired(marks, now, window);
    forall i | k <= i < |marks| ensures InWindow(marks[i], now, window) {
      assert marks[k].at <= marks[i].at <= now;
    }
  }

  lemma KeptFrom(log: seq<Mark>, now: nat, window: nat, from: nat)
    requires from <= |log| && forall i :: from <= i < |log| ==> InWindow(log[i], now, window)
    ensures Kept(log[from..], now, window) == log[from..]
  {
    hide Kept, InWindow;
    KeptAll(log[from..], now, window);
  }

  lemma KeptBefore(log: seq<Mark>, now: nat, window: nat, lo: nat, hi: nat)
    requires lo <= hi <= |log| && forall i :: lo <= i < hi ==> !InWindow(log[i], now, window)
    ensures Kept(log[lo..hi], now, window) == []
  {
    hide Kept, InWindow;
    KeptNone(log[lo..hi], now, window);
  }

  // Filtering a suffix of a log in order drops its expired part.
  lemma SuffixKept(log: seq<Mark>, now: nat, window: nat, k: nat, cut: nat)
    requires Sorted(log, now) && cut <= |log| && k == Expired(log, now, window)
    ensures Kept(log[cut..], now, window) == log[(if cut <= k then k else cut)..]
  {
    hide Kept, InWindow, Sorted;
    LaterInWindow(log, now, window);
    if cut <= k {
      KeptBefore(log, now, window, cut, k);
      KeptFrom(log, now, window, k);
      assert log[cut..] == log[cut..k] + log[k..];
      KeptConcat(log[cut..k], log[k..], now, window);
    } else {
      KeptFrom(log, now, window, cut);
    }
  }

  // In order of time, filtering drops a prefix.
  lemma KeptIsSuffix(marks: seq<Mark>, now: nat, window: nat)
    requires Sorted(marks, now)
    ensures Kept(marks, now, window) == marks[Expired(marks, now, window)..]
  {
    hide Kept, InWindow;
    SuffixKept(marks, now, window, Expired(marks, now, window), 0);
    assert marks[0..] == marks;
  }

  lemma ExpiredMonotone(marks: seq<Mark>, now: nat, later: nat, window: nat)
    requires Sorted(marks, now) && now <= later
    ensures Expired(marks, now, window) <= Expired(marks, later, window)
  {
    hide InWindow;
    var k := Expired(marks, later, window);
    if k < Expired(marks, now, window) { WindowPasses(marks[k], now, later, window); }
  }

  lemma LastOfSuffix(log: seq<Mark>, j: nat, n: nat)
    requires j <= |log|
    ensures LastOf(log[j..], n) == log[(if |log| - j <= n then j else |log| - n)..]
  {
  }

  /** Filtering what an earlier filtering kept, even cut to its last n marks, keeps what
      filtering the whole log and cutting it would keep. */
  lemma KeptTwice(log: seq<Mark>, now: nat, later: nat, window: nat, n: nat)
    requires Sorted(log, now) && now <= later && n > 0
    ensures Kept(LastOf(Kept(log, now, window), n), later, window) == LastOf(Kept(log, later, window), n)
  {
    hide Kept, Expired, InWindow, LastOf;
    var j, k := Expired(log, now, window), Expired(log, later, window);
    KeptIsSuffix(log, now, window);
    KeptIsSuffix(log, later, window);
    ExpiredMonotone(log, now, later, window);
    LastOfSuffix(log, j, n);
    LastOfSuffix(log, k, n);
    SuffixKept(log, later, window, k, if |log| - j <= n then j else |log| - n);
  }

  // ----- what a cell holds of an unbounded log -----

  // One more mark: filter, make room, append.
  function Push(stored: seq<Mark>, m: Mark, window: nat, capacity: nat): seq<Mark>
    requires capacity > 0
  {
    LastOf(Kept(stored, m.at, window), capacity - 1) + [m]
  }

  // What is stored of a log after its last mark was pushed.
  function Held(log: seq<Mark>, window: nat, capacity: nat): seq<Mark>
    requires capacity > 0
  {
    if log == [] then []
    else
      var n := |log| - 1;
      LastOf(Kept(log[..n], log[n].at, window), capacity - 1) + [log[n]]
  }

  lemma LastOfTwice(marks: seq<Mark>, n: nat)
    ensures n > 0 ==> LastOf(LastOf(marks, n), n - 1) == LastOf(marks, n - 1)
    ensures LastOf([], n) == []
  {
  }

  lemma LastOfSnoc(marks: seq<Mark>, m: Mark, n: nat)
    requires n > 0
    ensures LastOf(marks + [m], n) == LastOf(marks, n - 1) + [m]
  {
  }

  // What a later filtering keeps of the stored marks is the end of what it would keep
  // of the whole log.
  lemma HeldKept(log: seq<Mark>, now: nat, window: nat, capacity: nat)
    requires Sorted(log, now) && capacity > 1
    ensures Kept(Held(log, window, capacity), now, window) == LastOf(Kept(log, now, window), capacity)
  {
    if log == [] {
      assert Kept([], now, window) == [];
    } else {
      var n := |log| - 1;
      var init, last := log[..n], log[n];
      assert Sorted(init, last.at);
      hide InWindow, LastOf, Expired;
      assert log == init + [last];
      KeptTwice(init, last.at, now, window, capacity - 1);
      KeptConcat(LastOf(Kept(init, last.at, window), capacity - 1), [last], now, window);
      KeptConcat(init, [last], now, window);
      LastKept(init, last, now, window, capacity);
    }
  }

  lemma LastKept(init: seq<Mark>, last: Mark, now: nat, window: nat, capacity: nat)
    requires Sorted(init + [last], now) && capacity > 1
    ensures LastOf(Kept(init, now, window), capacity - 1) + Kept([last], now, window)
      == LastOf(Kept(init, now, window) + Kept([last], now, window), capacity)
  {
    var kept := Kept(init, now, window);
    if InWindow(last, now, window) {
      KeptAll([last], now, window);
      LastOfSnoc(kept, last, capacity);
    } else {
      KeptNone([last], now, window);
      forall i | 0 <= i < |init| ensures !InWindow(init[i], now, window) {
        assert (init + [last])[i] == init[i] && (init + [last])[|init|] == last;
        assert init[i].at <= last.at;
      }
      KeptNone(init, now, window);
    }
  }

  /** Pushing onto what is stored of a log is what is stored of the longer log. */
  lemma PushHeld(log: seq<Mark>, m: Mark, window: nat, capacity: nat)
    requires Sorted(log, m.at) && capacity > 1
    ensures Push(Held(log, window, capacity), m, window, capacity) == Held(log + [m], window, capacity)
    ensures |Held(log + [m], window, capacity)| == 1 +
      if |Kept(log, m.at, window)| < capacity then |Kept(log, m.at, window)| else capacity - 1
  {
    hide Kept, InWindow;
    HeldKept(log, m.at, window, capacity);
    LastOfTwice(Kept(log, m.at, window), capacity);
    assert (log + [m])[..|log|] == log;
  }

  lemma SortedSnoc(log: seq<Mark>, m: Mark)
    requires Sorted(log, m.at)
    ensures Sorted(log + [m], m.at)
  {
  }

  /** The filtering and appending of both trackers, in place: the marks are moved down
      over those that left the window, and one is dropped when the array would overflow. */
  method PushInPlace(marks: array<Mark>, count: nat, m: Mark, window: nat) returns (kept: nat)
    requires count <= marks.Length && marks.Length > 0
    modifies marks
    ensures 0 < kept <= marks.Length && marks[..kept] == Push(old(marks[..count]), m, window, marks.Length)
  {
    kept := FilterInPlace(marks, count, m.at, window);
    if kept == marks.Length {
      DropFirst(marks);
      kept := kept - 1;
    }
    marks[kept] := m;
    kept := kept + 1;
  }

  lemma KeptNext(marks: seq<Mark>, i: nat, now: nat, window: nat)
    requires i < |marks|
    ensures Kept(marks[..i + 1], now, window) ==
      Kept(marks[..i], now, window) + if InWindow(marks[i], now, window) then [marks[i]] else []
  {
    assert marks[..i + 1][..i] == marks[..i];
  }

  method FilterInPlace(marks: array<Mark>, count: nat, now: nat, window: nat) returns (kept: nat)
    requires count <= marks.Length
    modifies marks
    ensures kept <= count && marks[..kept] == Kept(old(marks[..count]), now, window)
  {
    hide Kept;
    kept := 0;
    ghost var was := marks[..count];
    KeptNone([], now, window);
    assert was[..0] == [];
    for i := 0 to count
      invariant kept <= i && marks[..kept] == Kept(was[..i], now, window)
      invariant marks[i..count] == was[i..]
    {
      var mark := marks[i];
      assert mark == was[i];
      KeptNext(was, i, now, window);
      if now >= mark.at && now - mark.at < window {
        ghost var before := marks[..kept];
        marks[kept] := mark;
        kept := kept + 1;
        assert marks[..kept] == before + [mark];
      }
    }
    assert was[..count] == was;
  }

  // memmove over the first mark
  method DropFirst(marks: array<Mark>)
    requires marks.Length > 0
    modifies marks
    ensures marks[..marks.Length - 1] == old(marks[1..])
  {
    for i := 0 to marks.Length - 1
      invariant forall k :: 0 <= k < i ==> marks[k] == old(marks[k + 1])
      invariant forall k :: i <= k < marks.Length ==> marks[k] == old(marks[k])
    {
      marks[i] := marks[i + 1];
    }
  }
}
