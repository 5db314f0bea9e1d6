/** A finished snapshot is the table at its begin; recovery accepts it and loads back the
    captured sessions. */
module SessionRecovery {
  import opened Options
  import opened Bytes
  import opened LittleEndian
  import opened Sessions
  import opened SessionSafety
  import opened SessionContents
  import opened SessionImage
  import opened SessionRecords
  import opened SessionSnapshot

  // ----- the captured items -----

  function Captures(sessions: seq<Session>, heap: map<nat, Payload>): seq<Item> {
    ItemsAt(EntriesOf(sessions, heap), heap)
  }

  lemma CapturesSnoc(sessions: seq<Session>, last: Session, heap: map<nat, Payload>)
    ensures Captures(sessions + [last], heap) == Captures(sessions, heap) + [ItemAt(EntryOf(last, heap), heap)]
    ensures EntriesOf(sessions + [last], heap) == EntriesOf(sessions, heap) + [EntryOf(last, heap)]
  {
  }

  lemma CaptureProper(s: Session, heap: map<nat, Payload>)
    requires s.active && Recordable(s) && Shaped(s) && Filled(heap) && (s.saved.Some? ==> IsComplete(heap, s.saved))
    ensures Proper(ItemAt(EntryOf(s, heap), heap)) && Whole(EntryOf(s, heap), heap)
    ensures Weight(RecordOf(s, heap)) == Extra(RecordOf(s, heap)) == Cost(heap, s.saved)
  {
    if s.saved.Some? {
      var p := heap[s.saved.value];
      assert Sound(p);
      assert p.body[..|p.body|] == p.body;
    }
  }

  lemma {:induction false} WeightSnoc(items: seq<Item>, item: Item)
    ensures TotalWeight(items + [item]) == TotalWeight(items) + Weight(item.record)
    ensures ItemsBytes(items + [item]) == ItemsBytes(items) + ItemBytes(item)
    decreases |items|
  {
    hide ItemBytes;
    if items == [] {
      assert [item][1..] == [] && [] + [item] == [item];
    } else {
      WeightSnoc(items[1..], item);
      HeadTail(items, [item]);
      assert (items + [item])[1..] == items[1..] + [item];
      Regroup(ItemBytes(items[0]), ItemsBytes(items[1..]), ItemBytes(item));
    }
  }

  lemma ItemRecord(e: Entry, heap: map<nat, Payload>)
    ensures ItemAt(e, heap).record == e.record
  {
  }

  lemma CapturedStep(c: seq<Session>, last: Session, heap: map<nat, Payload>)
    requires Recordable(last) && Shaped(last) && Filled(heap) && Captured(last, heap)
    ensures TotalWeight(Captures(c + [last], heap)) == TotalWeight(Captures(c, heap)) + Cost(heap, last.saved)
  {
    hide Recordable, Shaped, Cost, ItemAt, Weight, ItemsAt, EntriesOf, Captures;
    CapturesSnoc(c, last, heap);
    CaptureProper(last, heap);
    WeightSnoc(Captures(c, heap), ItemAt(EntryOf(last, heap), heap));
    ItemRecord(EntryOf(last, heap), heap);
  }

  // What is captured weighs no more than what is saved, and nothing is captured twice.
  lemma {:induction false} CapturedWeight(sessions: seq<Session>, heap: map<nat, Payload>)
    requires AllRecordable(sessions) && AllShaped(sessions) && Filled(heap)
    ensures var c := CapturedSessions(sessions, heap);
      && |c| <= |sessions| && TotalWeight(Captures(c, heap)) <= CostSum(sessions, heap)
      && forall k :: 0 <= k < |c| ==> c[k].active && Recordable(c[k]) && Shaped(c[k])
    decreases |sessions|
  {
    if sessions != [] {
      hide Recordable, Shaped, Cost, Captures, TotalWeight, Filled;
      var before, last := sessions[..|sessions| - 1], sessions[|sessions| - 1];
      CapturedWeight(before, heap);
      var c := CapturedSessions(before, heap);
      if Captured(last, heap) {
        CapturedStep(c, last, heap);
      } else {
        assert c + [] == c;
      }
    }
  }

  lemma {:induction false} BytesBySize(items: seq<Item>)
    requires forall k :: 0 <= k < |items| ==> Proper(items[k])
    ensures |ItemsBytes(items)| == RECORD * |items| + TotalWeight(items)
    decreases |items|
  {
    if items != [] {
      BytesBySize(items[1..]);
      RecordRoundTrip(items[0].record);
    }
  }

  lemma {:induction false} DeclaredIsTrue(entries: seq<Entry>, items: seq<Item>)
    requires |items| == |entries| && forall k :: 0 <= k < |items| ==>
      Proper(items[k]) && items[k].record == entries[k].record
    ensures DeclaredSize(entries) == HEADER + 32 + |ItemsBytes(items)|
    decreases |entries|
  {
    if entries != [] {
      var n := |entries| - 1;
      DeclaredIsTrue(entries[..n], items[..n]);
      WeightSnoc(items[..n], items[n]);
      LastSplit(items);
      RecordRoundTrip(items[n].record);
    }
  }

  // ----- the begin -----

  lemma SameCaptured(sessions: seq<Session>, heap: map<nat, Payload>, after: map<nat, Payload>)
    requires Trims(heap, after) && after.Keys == heap.Keys
    ensures CapturedSessions(sessions, heap) == CapturedSessions(sessions, after)
    decreases |sessions|
  {
    if sessions != [] { SameCaptured(sessions[..|sessions| - 1], heap, after); }
  }

  lemma {:induction false} PayloadSeqIs(sessions: seq<Session>, heap: map<nat, Payload>)
    ensures PayloadSeq(EntriesOf(sessions, heap)) == PayloadsOf(sessions)
    decreases |sessions|
  {
    if sessions != [] {
      PayloadSeqIs(sessions[..|sessions| - 1], heap);
      CapturesSnoc(sessions[..|sessions| - 1], sessions[|sessions| - 1], heap);
      LastSplit(sessions);
      var entries := EntriesOf(sessions, heap);
      assert entries[..|entries| - 1] == EntriesOf(sessions[..|sessions| - 1], heap);
    }
  }

  // The table and the captured sessions when a snapshot begins.
  lemma BeginCaptures(caps: Caps, t: Table, now: nat)
    requires Inv(caps, t) && AllRecordable(t.sessions)
    ensures var (u, c) := Capture(t, now);
      && Inv(caps, u) && AllRecordable(u.sessions) && c == CapturedSessions(u.sessions, u.heap)
      && multiset(PayloadsOf(c)) <= u.pinned && AllComplete(c, u.heap)
  {
    var v := ExpireFirst(t, now, |t.sessions|);
    var c := CapturedSessions(v.sessions, v.heap);
    CaptureKeeps(caps, t, now);
    CaptureSessions(t, now);
    CapturedInHeap(v.sessions, v.heap);
    hide Inv, AllRecordable, ExpireFirst, PinAll, CapturedSessions, PayloadsOf;
    PinAllTrims(v, PayloadsOf(c));
    SameCaptured(v.sessions, v.heap, PinAll(v, PayloadsOf(c)).heap);
    CapturedComplete(v.sessions, PinAll(v, PayloadsOf(c)).heap);
  }

  // What a snapshot begun on this table will say.
  lemma BegunItems(caps: Caps, u: Table, c: seq<Session>)
    requires Inv(caps, u) && AllRecordable(u.sessions) && c == CapturedSessions(u.sessions, u.heap)
      && AllComplete(c, u.heap)
    ensures var items := Captures(c, u.heap);
      && |items| == |c| <= CAPACITY && TotalWeight(items) <= PENDING_BYTES
      && (forall k :: 0 <= k < |items| ==> Proper(items[k]) && items[k].record == RecordOf(c[k], u.heap))
      && (forall k :: 0 <= k < |c| ==> Whole(EntryOf(c[k], u.heap), u.heap))
  {
    CapturedWeight(u.sessions, u.heap);
    var items := Captures(c, u.heap);
    forall k | 0 <= k < |items|
      ensures Proper(items[k]) && items[k].record == RecordOf(c[k], u.heap) && Whole(EntryOf(c[k], u.heap), u.heap)
    {
      CaptureProper(c[k], u.heap);
      ItemRecord(EntryOf(c[k], u.heap), u.heap);
    }
  }

  lemma ProperNoBytes(items: seq<Item>)
    requires forall k :: 0 <= k < |items| ==> Proper(items[k])
    ensures NoPayloadNoBytes(items)
  {
  }

  lemma StartRest(s: Snapshot, items: seq<Item>)
    requires s.entry == s.part == s.partUsed == 0
    ensures Rest(s, items) == ItemsBytes(items) && CursorOk(s, items)
  {
    hide ItemBytes, PutRecord;
    if items != [] { DropPrefix([], ItemBytes(items[0]), 0); }
  }

  // A snapshot of captured sessions before its first step.
  function Begun(c: seq<Session>, heap: map<nat, Payload>, generation: nat): Snapshot {
    var entries := EntriesOf(c, heap);
    var size := DeclaredSize(entries);
    Snapshot(entries, generation, size,
             PutHeader(Header(VERSION, REQUEST_SIZE, RECORD, |entries|, generation, size)), 0, 0, 0, false)
  }

  lemma BeginIs(t: Table, now: nat, generation: nat, u: Table, c: seq<Session>)
    requires Capture(t, now) == (u, c) && DeclaredSize(EntriesOf(c, u.heap)) <= SNAPSHOT_MAX
    ensures Begin(t, now, generation) == Some(System(u, Begun(c, u.heap, generation)))
  {
    hide Capture, DeclaredSize, PutHeader;
  }

  lemma BegunFrozen(u: Table, c: seq<Session>, generation: nat)
    requires multiset(PayloadsOf(c)) <= u.pinned
    requires forall k :: 0 <= k < |c| ==> Whole(EntryOf(c[k], u.heap), u.heap)
    ensures Frozen(System(u, Begun(c, u.heap, generation)), Captures(c, u.heap))
  {
    hide PayloadSeq, PayloadsOf, DeclaredSize, PutHeader, Whole, EntryOf;
    PayloadSeqIs(c, u.heap);
  }

  lemma BegunWriting(c: seq<Session>, heap: map<nat, Payload>, generation: nat, items: seq<Item>, sha: Bytes -> Digest)
    requires items == Captures(c, heap) && forall k :: 0 <= k < |items| ==> Proper(items[k])
    requires DeclaredSize(EntriesOf(c, heap)) == HEADER + 32 + |ItemsBytes(items)|
    ensures |items| == |c| ==> Writing(Begun(c, heap, generation), items, sha)
  {
    hide Proper, Rest, ItemsAt, DeclaredSize, ItemsBytes, PutHeader, CursorOk;
    ProperNoBytes(items);
    StartRest(Begun(c, heap, generation), items);
    HeaderLength(Header(VERSION, REQUEST_SIZE, RECORD, |c|, generation, DeclaredSize(EntriesOf(c, heap))));
  }

  lemma {:induction false} PutLength(w: Width, values: seq<nat>)
    ensures |PutMany(w, values)| == w * |values|
  {
    if values != [] {
      PutWidth(w, values[0]);
      PutLength(w, values[1..]);
      assert w * |values| == w + w * (|values| - 1);
    }
  }

  lemma {:induction false} PutWidth(n: nat, value: nat)
    ensures |Put(n, value)| == n
  {
    if n > 0 { PutWidth(n - 1, value / 256); }
  }

  lemma HeaderLength(h: Header)
    ensures |PutHeader(h)| == HEADER
  {
    PutLength(4, [h.version, h.requestSize, h.recordSize, h.count]);
    PutLength(8, [h.generation, h.size]);
  }

  lemma BegunDeclared(c: seq<Session>, heap: map<nat, Payload>, items: seq<Item>)
    requires items == Captures(c, heap) && |items| == |c| <= CAPACITY && TotalWeight(items) <= PENDING_BYTES
    requires forall k :: 0 <= k < |items| ==> Proper(items[k]) && items[k].record == RecordOf(c[k], heap)
    ensures DeclaredSize(EntriesOf(c, heap)) == HEADER + 32 + |ItemsBytes(items)| <= SNAPSHOT_MAX
  {
    hide Proper, ItemsAt, DeclaredSize, ItemsBytes, TotalWeight, RecordOf;
    DeclaredIsTrue(EntriesOf(c, heap), items);
    BytesBySize(items);
  }

  /** A snapshot of a reachable table always fits, holds its payloads, and has all its
      items still to write. */
  lemma BeginWorks(caps: Caps, t: Table, now: nat, generation: nat, sha: Bytes -> Digest)
    requires Inv(caps, t) && AllRecordable(t.sessions)
    ensures Begin(t, now, generation).Some?
    ensures var y := Begin(t, now, generation).value; var items := ItemsAt(y.s.entries, y.t.heap);
      && Inv(caps, y.t) && Frozen(y, items) && Writing(y.s, items, sha)
      && |items| <= CAPACITY && TotalWeight(items) <= PENDING_BYTES
      && forall k :: 0 <= k < |items| ==> Proper(items[k])
  {
    var (u, c) := Capture(t, now);
    var items := Captures(c, u.heap);
    BeginCaptures(caps, t, now);
    BegunItems(caps, u, c);
    hide Inv, AllRecordable, Capture, CapturedSessions, Proper, ItemsAt, DeclaredSize, TotalWeight, Frozen, Writing,
      Begin, Whole, AllComplete, PayloadsOf;
    BegunDeclared(c, u.heap, items);
    BeginIs(t, now, generation, u, c);
    BegunFrozen(u, c, generation);
    BegunWriting(c, u.heap, generation, items, sha);
  }

  /** Whatever budgets the steps are given and whatever happens to the table between them,
      a finished snapshot is the image captured at its begin, byte for byte; it has its
      declared size, and recovery accepts it and reads back the captured items. */
  lemma SnapshotIsCaptured(caps: Caps, t: Table, now: nat, generation: nat, moves: seq<Move>,
                           sha: Bytes -> Digest, z: System)
    requires Inv(caps, t) && AllRecordable(t.sessions) && 0 < generation < Limit(8)
    requires Begin(t, now, generation).Some? && Moves(Begin(t, now, generation).value, moves, sha, z) && z.s.complete
    ensures var y := Begin(t, now, generation).value; var items := ItemsAt(y.s.entries, y.t.heap);
      && z.s.data == Sealed(Body(items, generation), sha) && |z.s.data| == z.s.size == y.s.size
      && ValidImage(z.s.data, sha) == Some(Image(generation, VERSION, items))
  {
    var y := Begin(t, now, generation).value;
    var items := ItemsAt(y.s.entries, y.t.heap);
    BeginWorks(caps, t, now, generation, sha);
    BeginGeneration(t, now, generation);
    MovesKeep(caps, y, moves, items, sha, z);
    MovesHeader(y, moves, sha, z);
    BytesBySize(items);
    hide Inv, Begin, Moves, Frozen, Proper, Body, ItemsAt, TotalWeight, ValidImage;
    WrittenAccepted(items, generation, sha);
  }

  lemma BeginGeneration(t: Table, now: nat, generation: nat)
    requires Begin(t, now, generation).Some?
    ensures Begin(t, now, generation).value.s.generation == generation
  {
    hide Capture;
  }

  lemma {:induction false} MovesHeader(y: System, moves: seq<Move>, sha: Bytes -> Digest, z: System)
    requires Moves(y, moves, sha, z)
    ensures z.s.generation == y.s.generation && z.s.size == y.s.size && z.s.entries == y.s.entries
    decreases |moves|
  {
    hide Apply, Enabled, Drive;
    if moves != [] { MovesHeader(Moved(y, moves[0], sha), moves[1..], sha, z); }
  }

  // ----- loading -----

  function LoadedSession(item: Item, version: nat, primaryHost: Bytes, p: nat): Session {
    var r := item.record;
    var texts := if version == 1 then r.texts.(host := Padded(primaryHost, 256)) else r.texts;
    Session(true, texts, r.issued, r.solvedUntil, r.bodyUntil, if r.hasPayload == 1 then Some(p) else None,
            r.isPost == 1, r.proved == 1, false)
  }

  predicate StaleRecord(r: Record, now: nat) {
    (r.solvedUntil == 0 && now > r.issued + 300) || (r.solvedUntil != 0 && now > r.solvedUntil)
  }

  // One turn of load_image's loop: record i goes to session i, and its payload is new.
  function LoadOne(t: Table, item: Item, version: nat, primaryHost: Bytes, i: nat): Table
    requires i < |t.sessions|
  {
    var s, r := LoadedSession(item, version, primaryHost, i), item.record;
    if r.hasPayload == 1 then WithPost(t, i, s, i, Payload(item.request, item.body, r.size, 1), 0)
    else t.(sessions := t.sessions[i := s])
  }

  // load_image, into the table of a new process.
  function Load(items: seq<Item>, version: nat, primaryHost: Bytes, now: nat): (t: Table)
    requires |items| <= CAPACITY
    ensures |t.sessions| == CAPACITY
    decreases |items|
  {
    if items == [] then EmptyTable()
    else
      var n := |items| - 1;
      var t := Load(items[..n], version, primaryHost, now);
      if StaleRecord(items[n].record, now) then t else LoadOne(t, items[n], version, primaryHost, n)
  }

  predicate LoadedAt(t: Table, item: Item, version: nat, primaryHost: Bytes, now: nat, i: nat)
    requires i < |t.sessions|
  {
    if StaleRecord(item.record, now) then t.sessions[i] == Blank() && i !in t.heap
    else
      && t.sessions[i] == LoadedSession(item, version, primaryHost, i)
      && (if item.record.hasPayload == 1
          then i in t.heap && t.heap[i] == Payload(item.request, item.body, item.record.size, 1)
          else i !in t.heap)
  }

  // What one turn changes: its own session, and its own payload.
  lemma LoadTurn(t: Table, item: Item, version: nat, primaryHost: Bytes, now: nat, i: nat)
    requires i < |t.sessions| && t.sessions[i] == Blank() && i !in t.heap
    ensures var u := if StaleRecord(item.record, now) then t else LoadOne(t, item, version, primaryHost, i);
      && LoadedAt(u, item, version, primaryHost, now, i) && |u.sessions| == |t.sessions|
      && (forall k :: 0 <= k < |t.sessions| && k != i ==> u.sessions[k] == t.sessions[k])
      && (forall p: nat :: p != i ==> (p in u.heap <==> p in t.heap))
      && (forall p :: p in t.heap ==> p in u.heap && u.heap[p] == t.heap[p])
  {
    hide LoadedSession, Blank;
  }

  lemma LoadedAtFrame(t: Table, u: Table, item: Item, version: nat, primaryHost: Bytes, now: nat, i: nat)
    requires i < |t.sessions| && i < |u.sessions| && u.sessions[i] == t.sessions[i]
    requires (i in u.heap <==> i in t.heap) && (i in t.heap ==> u.heap[i] == t.heap[i])
    requires LoadedAt(t, item, version, primaryHost, now, i)
    ensures LoadedAt(u, item, version, primaryHost, now, i)
  {
    hide LoadedSession, Blank;
  }

  /** Loading puts every unexpired record, with its payload, at its own place, and
      nothing anywhere else. */
  lemma {:induction false} LoadPlaces(items: seq<Item>, version: nat, primaryHost: Bytes, now: nat)
    requires |items| <= CAPACITY
    ensures var t := Load(items, version, primaryHost, now);
      && (forall i :: 0 <= i < |items| ==> LoadedAt(t, items[i], version, primaryHost, now, i))
      && (forall i :: |items| <= i < CAPACITY ==> t.sessions[i] == Blank() && i !in t.heap)
      && (forall p :: p in t.heap ==> p < |items|)
    decreases |items|
  {
    if items != [] {
      hide LoadedAt, LoadOne, StaleRecord;
      var n := |items| - 1;
      LoadPlaces(items[..n], version, primaryHost, now);
      var t, u := Load(items[..n], version, primaryHost, now), Load(items, version, primaryHost, now);
      assert t.sessions[n] == Blank() && n !in t.heap;
      LoadTurn(t, items[n], version, primaryHost, now, n);
      LoadKeepsPlaces(t, u, items, version, primaryHost, now, n);
    }
  }

  // A turn for a later record leaves the earlier ones where they are.
  lemma LoadKeepsPlaces(t: Table, u: Table, items: seq<Item>, version: nat, primaryHost: Bytes, now: nat, n: nat)
    requires n < |items| && n <= |t.sessions| == |u.sessions|
    requires forall i :: 0 <= i < n ==> LoadedAt(t, items[..n][i], version, primaryHost, now, i)
    requires forall k :: 0 <= k < n ==> u.sessions[k] == t.sessions[k]
    requires forall p: nat :: p < n ==> (p in u.heap <==> p in t.heap)
    requires forall p :: p in t.heap ==> p in u.heap && u.heap[p] == t.heap[p]
    ensures forall i :: 0 <= i < n ==> LoadedAt(u, items[i], version, primaryHost, now, i)
  {
    hide LoadedAt;
    forall i | 0 <= i < n ensures LoadedAt(u, items[i], version, primaryHost, now, i) {
      assert LoadedAt(t, items[..n][i], version, primaryHost, now, i);
      LoadedAtFrame(t, u, items[i], version, primaryHost, now, i);
    }
  }

  // An image's payloads as recovery accepts them.
  predicate Acceptable(item: Item) {
    item.record.hasPayload == 1 ==>
      Sound(Payload(item.request, item.body, item.record.size, 1))
  }

  lemma LoadOneAccounts(t: Table, item: Item, version: nat, primaryHost: Bytes, i: nat)
    requires i < |t.sessions| && t.sessions[i].saved.None? && i !in t.heap && Acceptable(item)
    requires Pinned(t) && Accounted(t) && Filled(t.heap) && t.pending + Weight(item.record) <= PENDING_BYTES
    ensures var u := LoadOne(t, item, version, primaryHost, i);
      Pinned(u) && Accounted(u) && Filled(u.heap) && u.pending == t.pending + Weight(item.record)
  {
    var s, r := LoadedSession(item, version, primaryHost, i), item.record;
    if r.hasPayload == 1 {
      var p := Payload(item.request, item.body, r.size, 1);
      AddPostPins(t, i, s, i, p, 0);
      AddPostCost(t, i, s, i, p, 0);
    } else {
      CostUpdate(t.sessions, i, s, t.heap);
      forall q: nat ensures Count(t.sessions[i := s], OwnerOf(q)) == Count(t.sessions, OwnerOf(q)) {
        CountUpdate(t.sessions, i, s, OwnerOf(q));
      }
    }
  }

  // The next place is still free.
  lemma PlaceIsFree(items: seq<Item>, version: nat, primaryHost: Bytes, now: nat)
    requires |items| < CAPACITY
    ensures var t := Load(items, version, primaryHost, now);
      t.sessions[|items|].saved.None? && |items| !in t.heap
  {
    hide Load, LoadedAt, Blank;
    LoadPlaces(items, version, primaryHost, now);
    BlankHasNone();
  }

  /** Loading leaves the byte accounting and the pins exact, within the same limit. */
  lemma {:induction false} LoadAccounts(items: seq<Item>, version: nat, primaryHost: Bytes, now: nat)
    requires |items| <= CAPACITY && TotalWeight(items) <= PENDING_BYTES
    requires forall k :: 0 <= k < |items| ==> Acceptable(items[k])
    ensures var t := Load(items, version, primaryHost, now);
      Pinned(t) && Accounted(t) && Filled(t.heap) && t.pending <= TotalWeight(items)
    decreases |items|
  {
    if items == [] {
      EmptyInv();
    } else {
      hide Pinned, Accounted, Filled, LoadOne, TotalWeight, Acceptable, Weight, StaleRecord, ItemsBytes, ItemBytes;
      var n := |items| - 1;
      WeightSnoc(items[..n], items[n]);
      LastSplit(items);
      LoadAccounts(items[..n], version, primaryHost, now);
      PlaceIsFree(items[..n], version, primaryHost, now);
      var t := Load(items[..n], version, primaryHost, now);
      if !StaleRecord(items[n].record, now) { LoadOneAccounts(t, items[n], version, primaryHost, n); }
    }
  }

  lemma BlankHasNone()
    ensures Blank().saved.None?
  {
  }

  // ----- out and back -----

  // A captured session as it comes back: its payload under a new name, no reservation.
  function Returned(s: Session, p: nat): Session {
    s.(saved := if s.saved.Some? then Some(p) else None, reserved := false)
  }

  lemma ReturnedIs(s: Session, heap: map<nat, Payload>, primaryHost: Bytes, p: nat, now: nat)
    requires s.active && (s.saved.Some? ==> IsComplete(heap, s.saved))
    ensures var item := ItemAt(EntryOf(s, heap), heap);
      && LoadedSession(item, VERSION, primaryHost, p) == Returned(s, p)
      && StaleRecord(item.record, now) == Stale(s, now)
      && (item.record.hasPayload == 1 <==> s.saved.Some?)
      && (s.saved.Some? ==> SameContent(heap[s.saved.value], Payload(item.request, item.body, item.record.size, 1)))
  {
    if s.saved.Some? {
      var p := heap[s.saved.value];
      assert p.body[..|p.body|] == p.body;
    }
  }

  /** Recovery from a finished snapshot: each captured session that has not expired comes
      back with the body and request it had when the snapshot began. */
  lemma CapturedComesBack(caps: Caps, t: Table, now: nat, generation: nat, moves: seq<Move>,
                         sha: Bytes -> Digest, z: System,
                          primaryHost: Bytes, later: nat, k: nat)
    requires Inv(caps, t) && AllRecordable(t.sessions) && 0 < generation < Limit(8)
    requires Begin(t, now, generation).Some? && Moves(Begin(t, now, generation).value, moves, sha, z) && z.s.complete
    requires k < |Capture(t, now).1|
    ensures var image := ValidImage(z.s.data, sha); var (u, c) := Capture(t, now);
      && image.Some? && image.value.generation == generation && |image.value.items| == |c| <= CAPACITY
      && var back := Load(image.value.items, image.value.version, primaryHost, later);
         if Stale(c[k], later) then back.sessions[k] == Blank()
         else
           back.sessions[k] == Returned(c[k], k)
           && (c[k].saved.Some? ==>
                 k in back.heap && c[k].saved.value in u.heap && SameContent(u.heap[c[k].saved.value], back.heap[k]))
  {
    var (u, c) := Capture(t, now);
    var items := Captures(c, u.heap);
    SnapshotIsCaptured(caps, t, now, generation, moves, sha, z);
    BeginCaptures(caps, t, now);
    BegunItems(caps, u, c);
    BegunDeclared(c, u.heap, items);
    BeginIs(t, now, generation, u, c);
    LoadPlaces(items, VERSION, primaryHost, later);
    hide Inv, Begin, Moves, Capture, CapturedSessions, Load, LoadedSession, StaleRecord, Stale, Proper, ValidImage,
      Returned, EntriesOf, Whole;
    CapturesAt(c, u.heap, k);
    ReturnedIs(c[k], u.heap, primaryHost, k, later);
    assert LoadedAt(Load(items, VERSION, primaryHost, later), items[k], VERSION, primaryHost, later, k);
  }

  lemma CapturesAt(c: seq<Session>, heap: map<nat, Payload>, k: nat)
    requires k < |c|
    ensures |Captures(c, heap)| == |c| && Captures(c, heap)[k] == ItemAt(EntryOf(c[k], heap), heap)
  {
  }

  // ----- reachable tables -----

  lemma {:induction false} RunRecordable(caps: Caps, t: Table, events: seq<Event>, u: Table)
    requires Inv(caps, t) && AllRecordable(t.sessions) && Runs(t, events, u)
    requires forall i :: 0 <= i < |events| ==> Plausible(events[i])
    ensures Inv(caps, u) && AllRecordable(u.sessions)
    decreases |events|
  {
    hide Inv, AllRecordable, Plausible;
    if events != [] {
      StepKeeps(caps, t, events[0]);
      StepRecordable(t, events[0]);
      RunRecordable(caps, Apply(t, events[0]), events[1..], u);
    }
  }

  /** Every table that a run can reach can be captured. */
  lemma ReachableCaptures(events: seq<Event>, t: Table, now: nat, generation: nat)
    requires Runs(EmptyTable(), events, t) && forall i :: 0 <= i < |events| ==> Plausible(events[i])
    ensures Inv(OWN_CAPS, t) && AllRecordable(t.sessions) && Begin(t, now, generation).Some?
  {
    EmptyInv();
    BlankRecordable();
    RunRecordable(OWN_CAPS, EmptyTable(), events, t);
    BeginWorks(OWN_CAPS, t, now, generation, _ => seq(32, _ => 0));
  }
}
