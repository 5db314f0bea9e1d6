/** The resumable snapshot encoder: it stops and resumes on any budget while the table
    goes on changing, and writes exactly the image of the moment it began. */
module SessionSnapshot {
  import opened Options
  import opened Bytes
  import opened LittleEndian
  import opened Sessions
  import opened SessionSafety
  import opened SessionContents
  import opened SessionImage
  import opened SessionRecords

  const SNAPSHOT_MAX := 128 * 1024 * 1024

  // ----- the cursor -----

  // One captured session: its record, and the payload whose bytes follow it.
  datatype Entry = Entry(record: Record, payload: Option<nat>)

  datatype Snapshot = Snapshot(
    entries: seq<Entry>, generation: nat, size: nat, data: Bytes,
    entry: nat, part: nat, partUsed: nat, complete: bool)

  // What an entry reads in the payloads at some moment.
  function ItemAt(e: Entry, heap: map<nat, Payload>): Item {
    if e.payload.Some? && e.payload.value in heap then
      var p := heap[e.payload.value];
      Item(e.record, p.request, if e.record.received <= |p.body| then p.body[..e.record.received] else p.body)
    else Item(e.record, [], [])
  }

  function ItemsAt(entries: seq<Entry>, heap: map<nat, Payload>): (items: seq<Item>)
    ensures |items| == |entries|
  {
    seq(|entries|, i requires 0 <= i < |entries| => ItemAt(entries[i], heap))
  }

  // The three parts of an item; the last two only with a payload.
  predicate HasPart(item: Item, part: nat) {
    part == 0 || ((part == 1 || part == 2) && item.record.hasPayload == 1)
  }

  function PartBytes(item: Item, part: nat): Bytes {
    if part == 0 then PutRecord(item.record) else if part == 1 then item.request
    else if part == 2 then item.body else []
  }

  function Min(a: nat, b: nat): nat {
    if a < b then a else b
  }

  // The loop of ankah_session_snapshot_step.
  function Drive(s: Snapshot, items: seq<Item>, budget: nat): (d: Snapshot)
    requires |items| == |s.entries|
    ensures d.entries == s.entries && d.generation == s.generation && d.size == s.size && d.complete == s.complete
    decreases |items| - s.entry, if s.part <= 3 then 4 - s.part else 0, budget
  {
    if budget == 0 || s.entry >= |items| then s
    else
      var item := items[s.entry];
      if !HasPart(item, s.part) then Drive(s.(entry := s.entry + 1, part := 0, partUsed := 0), items, budget)
      else
        var source := PartBytes(item, s.part);
        if s.partUsed >= |source| then Drive(s.(part := s.part + 1, partUsed := 0), items, budget)
        else
          var piece := Min(|source| - s.partUsed, budget);
          Drive(s.(data := s.data + source[s.partUsed..s.partUsed + piece], partUsed := s.partUsed + piece),
                items, budget - piece)
  }

  // ankah_session_snapshot_step
  function Step(s: Snapshot, items: seq<Item>, budget: nat, sha: Bytes -> Digest): (Snapshot, int)
    requires |items| == |s.entries|
  {
    if budget == 0 then (s, -1)
    else if s.complete then (s, 1)
    else
      var d := Drive(s, items, budget);
      if d.entry != |items| then (d, 0)
      else if |d.data| + 32 != s.size then (d, -1)
      else (d.(data := d.data + sha(d.data), complete := true), 1)
  }

  // ----- what is left to write -----

  function FromPart(item: Item, part: nat): Bytes {
    if part == 0 then ItemBytes(item)
    else if part == 1 then item.request + item.body
    else if part == 2 then item.body
    else []
  }

  function Drop(b: Bytes, n: nat): Bytes {
    if n <= |b| then b[n..] else []
  }

  function Rest(s: Snapshot, items: seq<Item>): Bytes {
    if s.entry >= |items| then []
    else Drop(FromPart(items[s.entry], s.part), s.partUsed) + ItemsBytes(items[s.entry + 1..])
  }

  predicate NoPayloadNoBytes(items: seq<Item>) {
    forall i :: 0 <= i < |items| ==>
      (items[i].record.hasPayload == 1 || (items[i].request == [] && items[i].body == []))
  }

  predicate CursorOk(s: Snapshot, items: seq<Item>) {
    s.entry < |items| ==> s.partUsed <= |PartBytes(items[s.entry], s.part)|
  }

  lemma PartThenRest(item: Item, part: nat)
    requires part <= 2
    ensures FromPart(item, part) == PartBytes(item, part) + FromPart(item, part + 1)
  {
    hide PutRecord;
    if part == 0 { Regroup(PutRecord(item.record), item.request, item.body); }
  }

  lemma NextPart(s: Snapshot, items: seq<Item>)
    requires s.entry < |items| && s.part <= 2 && s.partUsed == |PartBytes(items[s.entry], s.part)|
    ensures Rest(s.(part := s.part + 1, partUsed := 0), items) == Rest(s, items)
  {
    hide PutRecord, FromPart, ItemsBytes, PartBytes;
    PartThenRest(items[s.entry], s.part);
    DropPrefix(PartBytes(items[s.entry], s.part), FromPart(items[s.entry], s.part + 1), 0);
  }

  // Dropping a prefix, or part of one.
  lemma DropPrefix(a: Bytes, b: Bytes, more: nat)
    ensures Drop(a + b, |a|) == b && Drop(b, 0) == b
  {
  }

  lemma NextEntry(s: Snapshot, items: seq<Item>)
    requires s.entry < |items| && NoPayloadNoBytes(items) && !HasPart(items[s.entry], s.part)
    ensures Rest(s.(entry := s.entry + 1, part := 0, partUsed := 0), items) == Rest(s, items)
  {
    hide PutRecord, ItemBytes;
    assert FromPart(items[s.entry], s.part) == [];
    var after := items[s.entry + 1..];
    assert Drop([], s.partUsed) == [] && [] + ItemsBytes(after) == ItemsBytes(after);
    if after != [] {
      assert after[1..] == items[s.entry + 2..] && after[0] == items[s.entry + 1];
      DropPrefix([], ItemBytes(after[0]), 0);
    }
  }

  lemma CopyPiece(s: Snapshot, items: seq<Item>, piece: nat)
    requires s.entry < |items| && s.part <= 2 && s.partUsed + piece <= |PartBytes(items[s.entry], s.part)|
    ensures var source := PartBytes(items[s.entry], s.part);
      Rest(s, items) == source[s.partUsed..s.partUsed + piece] + Rest(s.(partUsed := s.partUsed + piece), items)
  {
    hide PutRecord, FromPart, ItemsBytes, PartBytes;
    var source, tail := PartBytes(items[s.entry], s.part), FromPart(items[s.entry], s.part + 1);
    PartThenRest(items[s.entry], s.part);
    DropPiece(source + tail, s.partUsed, piece);
    assert (source + tail)[s.partUsed..s.partUsed + piece] == source[s.partUsed..s.partUsed + piece];
    Regroup(source[s.partUsed..s.partUsed + piece], Drop(source + tail, s.partUsed + piece),
            ItemsBytes(items[s.entry + 1..]));
  }

  lemma DropPiece(b: Bytes, at: nat, piece: nat)
    requires at + piece <= |b|
    ensures Drop(b, at) == b[at..at + piece] + Drop(b, at + piece)
  {
  }

  /** One drive moves exactly min(budget, what is left) bytes from the front of what is
      left, and with budget to spare it reaches the end. */
  lemma {:induction false} DriveCopies(s: Snapshot, items: seq<Item>, budget: nat)
    requires |items| == |s.entries| && NoPayloadNoBytes(items) && CursorOk(s, items) && s.entry <= |items|
    ensures var d := Drive(s, items, budget);
      && CursorOk(d, items) && d.entry <= |items|
      && d.data + Rest(d, items) == s.data + Rest(s, items)
      && |d.data| == |s.data| + Min(budget, |Rest(s, items)|)
      && (budget > |Rest(s, items)| ==> d.entry == |items|)
    decreases |items| - s.entry, if s.part <= 3 then 4 - s.part else 0, budget
  {
    hide Rest, PartBytes, NoPayloadNoBytes, HasPart;
    if budget == 0 {
    } else if s.entry >= |items| {
      RestEnd(s, items);
    } else {
      var item := items[s.entry];
      if !HasPart(item, s.part) {
        NextEntry(s, items);
        FreshCursor(s.(entry := s.entry + 1, part := 0, partUsed := 0), items);
        DriveCopies(s.(entry := s.entry + 1, part := 0, partUsed := 0), items, budget);
      } else {
        PartsAreThree(item, s.part);
        var source := PartBytes(item, s.part);
        if s.partUsed >= |source| {
          NextPart(s, items);
          FreshCursor(s.(part := s.part + 1, partUsed := 0), items);
          DriveCopies(s.(part := s.part + 1, partUsed := 0), items, budget);
        } else {
          var piece := Min(|source| - s.partUsed, budget);
          var next := s.(data := s.data + source[s.partUsed..s.partUsed + piece], partUsed := s.partUsed + piece);
          CopyPiece(s, items, piece);
          RestIgnoresData(next, s.(partUsed := s.partUsed + piece), items);
          Regroup(s.data, source[s.partUsed..s.partUsed + piece], Rest(next, items));
          DriveCopies(next, items, budget - piece);
        }
      }
    }
  }

  lemma RestEnd(s: Snapshot, items: seq<Item>)
    requires s.entry >= |items|
    ensures Rest(s, items) == []
  {
  }

  lemma FreshCursor(s: Snapshot, items: seq<Item>)
    requires s.partUsed == 0
    ensures CursorOk(s, items)
  {
  }

  lemma PartsAreThree(item: Item, part: nat)
    requires HasPart(item, part)
    ensures part <= 2
  {
  }

  lemma RestIgnoresData(s: Snapshot, u: Snapshot, items: seq<Item>)
    requires s.entry == u.entry && s.part == u.part && s.partUsed == u.partUsed
    ensures Rest(s, items) == Rest(u, items)
  {
  }

  // ----- beginning a snapshot -----

  function RecordOf(s: Session, heap: map<nat, Payload>): Record {
    var (has, size, received) :=
      if s.saved.Some? && s.saved.value in heap then (1, heap[s.saved.value].size, |heap[s.saved.value].body|)
      else (0, 0, 0);
    Record(s.texts, s.issued, s.solvedUntil, s.bodyUntil, if s.isPost then 1 else 0, if s.proved then 1 else 0,
           has, size, received)
  }

  function EntryOf(s: Session, heap: map<nat, Payload>): Entry {
    Entry(RecordOf(s, heap), s.saved)
  }

  function EntriesOf(sessions: seq<Session>, heap: map<nat, Payload>): (entries: seq<Entry>)
    ensures |entries| == |sessions|
  {
    seq(|sessions|, i requires 0 <= i < |sessions| => EntryOf(sessions[i], heap))
  }

  // The size declared in the header, added up entry by entry.
  function DeclaredSize(entries: seq<Entry>): nat {
    if entries == [] then HEADER + 32
    else DeclaredSize(entries[..|entries| - 1]) + RECORD + Extra(entries[|entries| - 1].record)
  }

  datatype System = System(t: Table, s: Snapshot)

  // ankah_session_snapshot_begin; nothing is begun for an image over the size limit.
  function Begin(t: Table, now: nat, generation: nat): Option<System> {
    var (u, captured) := Capture(t, now);
    var entries := EntriesOf(captured, u.heap);
    var size := DeclaredSize(entries);
    if size > SNAPSHOT_MAX then None
    else
      Some(System(u, Snapshot(entries, generation, size,
        PutHeader(Header(VERSION, REQUEST_SIZE, RECORD, |entries|, generation, size)), 0, 0, 0, false)))
  }

  // Moves between the begin and the end: any operation on the table that leaves the
  // snapshot its own pins, and steps of any budget.
  datatype Move = TableMove(e: Event) | StepMove(budget: nat)

  function PayloadSeq(entries: seq<Entry>): seq<nat> {
    if entries == [] then []
    else
      var last := entries[|entries| - 1];
      PayloadSeq(entries[..|entries| - 1]) + if last.payload.Some? then [last.payload.value] else []
  }

  function Held(s: Snapshot): multiset<nat> {
    multiset(PayloadSeq(s.entries))
  }

  predicate MoveEnabled(y: System, m: Move) {
    match m
    case TableMove(e) => Enabled(y.t, e) && (e.LetGoOf? ==> Held(y.s) <= y.t.pinned - multiset{e.p})
    case StepMove(budget) => true
  }

  function Moved(y: System, m: Move, sha: Bytes -> Digest): System
    requires MoveEnabled(y, m)
  {
    match m
    case TableMove(e) => y.(t := Apply(y.t, e))
    case StepMove(budget) => y.(s := Step(y.s, ItemsAt(y.s.entries, y.t.heap), budget, sha).0)
  }

  predicate Moves(y: System, moves: seq<Move>, sha: Bytes -> Digest, z: System)
    decreases |moves|
  {
    if moves == [] then y == z
    else MoveEnabled(y, moves[0]) && Moves(Moved(y, moves[0], sha), moves[1..], sha, z)
  }

  // ----- what every move keeps -----

  // The entries still read what they read when the snapshot began.
  ghost predicate Frozen(y: System, items: seq<Item>) {
    && Held(y.s) <= y.t.pinned
    && ItemsAt(y.s.entries, y.t.heap) == items
    && forall k :: 0 <= k < |y.s.entries| ==> Whole(y.s.entries[k], y.t.heap)
  }

  predicate Whole(e: Entry, heap: map<nat, Payload>) {
    e.payload.None? ||
    (e.payload.value in heap && |heap[e.payload.value].body| == heap[e.payload.value].size == e.record.received)
  }

  ghost predicate Writing(s: Snapshot, items: seq<Item>, sha: Bytes -> Digest) {
    && |items| == |s.entries| && NoPayloadNoBytes(items)
    && s.size == |Body(items, s.generation)| + 32
    && (if s.complete then s.data == Sealed(Body(items, s.generation), sha)
        else s.entry <= |items| && CursorOk(s, items) && s.data + Rest(s, items) == Body(items, s.generation))
  }

  lemma {:induction false} EntryHeld(entries: seq<Entry>, k: nat)
    requires k < |entries| && entries[k].payload.Some?
    ensures entries[k].payload.value in multiset(PayloadSeq(entries))
    decreases |entries|
  {
    if k < |entries| - 1 { EntryHeld(entries[..|entries| - 1], k); }
  }

  lemma PinnedInHeap(caps: Caps, t: Table, p: nat)
    requires Inv(caps, t) && p in t.pinned
    ensures p in t.heap
  {
    assert PinsOf(t.heap, p) > 0;
  }

  lemma EntryFrozen(caps: Caps, t: Table, e: Event, entry: Entry)
    requires Inv(caps, t) && Enabled(t, e) && Whole(entry, t.heap) && Inv(caps, Apply(t, e))
    requires entry.payload.Some? ==> entry.payload.value in Apply(t, e).pinned
    ensures Whole(entry, Apply(t, e).heap) && ItemAt(entry, Apply(t, e).heap) == ItemAt(entry, t.heap)
  {
    if entry.payload.Some? {
      hide Inv, Enabled, Apply;
      StepContent(caps, t, e, entry.payload.value);
      PinnedInHeap(caps, Apply(t, e), entry.payload.value);
    }
  }

  lemma TableMoveFrozen(caps: Caps, y: System, e: Event, items: seq<Item>)
    requires Inv(caps, y.t) && MoveEnabled(y, TableMove(e)) && Frozen(y, items)
    ensures Inv(caps, Apply(y.t, e)) && Frozen(y.(t := Apply(y.t, e)), items)
  {
    hide Inv, Enabled, Apply;
    StepKeeps(caps, y.t, e);
    var u := Apply(y.t, e);
    StepContent(caps, y.t, e, 0);
    assert Held(y.s) <= u.pinned;
    forall k | 0 <= k < |y.s.entries|
      ensures Whole(y.s.entries[k], u.heap) && ItemAt(y.s.entries[k], u.heap) == ItemAt(y.s.entries[k], y.t.heap)
    {
      if y.s.entries[k].payload.Some? { EntryHeld(y.s.entries, k); }
      EntryFrozen(caps, y.t, e, y.s.entries[k]);
    }
    assert ItemsAt(y.s.entries, u.heap) == ItemsAt(y.s.entries, y.t.heap);
  }

  lemma StepWrites(s: Snapshot, items: seq<Item>, budget: nat, sha: Bytes -> Digest)
    requires Writing(s, items, sha)
    ensures var (d, r) := Step(s, items, budget, sha);
      && Writing(d, items, sha) && d.entries == s.entries
      && (r == -1 <==> budget == 0) && (r == 1 <==> budget > 0 && d.complete)
      && (!s.complete && budget > |Rest(s, items)| ==> d.complete)
  {
    if budget > 0 && !s.complete {
      DriveCopies(s, items, budget);
      hide Drive, Body, CursorOk;
      var d := Drive(s, items, budget);
      if d.entry == |items| { assert d.data + [] == d.data; }
    }
  }

  lemma MoveKeeps(caps: Caps, y: System, m: Move, items: seq<Item>, sha: Bytes -> Digest)
    requires Inv(caps, y.t) && MoveEnabled(y, m) && Frozen(y, items) && Writing(y.s, items, sha)
    ensures var z := Moved(y, m, sha); Inv(caps, z.t) && Frozen(z, items) && Writing(z.s, items, sha)
  {
    hide Inv, Writing, Step;
    match m
    case TableMove(e) => TableMoveFrozen(caps, y, e, items);
    case StepMove(budget) => StepWrites(y.s, items, budget, sha);
  }

  lemma {:induction false} MovesKeep(caps: Caps, y: System, moves: seq<Move>, items: seq<Item>,
                                  sha: Bytes -> Digest, z: System)
    requires Inv(caps, y.t) && Frozen(y, items) && Writing(y.s, items, sha) && Moves(y, moves, sha, z)
    ensures Inv(caps, z.t) && Frozen(z, items) && Writing(z.s, items, sha)
    decreases |moves|
  {
    hide Inv, Frozen, Writing, MoveEnabled, Moved;
    if moves != [] {
      MoveKeeps(caps, y, moves[0], items, sha);
      MovesKeep(caps, Moved(y, moves[0], sha), moves[1..], items, sha, z);
    }
  }
}
