/**
 * The session table under the protocol: what a snapshot says of the saved POSTs is the id set the protocol puts
 * into its images, and what a restart brings back is the saved map the protocol restarts with.
 */
module Recovery {
  import opened Options
  import opened Bytes
  import opened Ids
  import opened LittleEndian
  import opened Sessions
  import opened SessionSafety
  import opened SessionContents
  import opened SessionImage
  import opened SessionRecords
  import opened SessionSnapshot
  import opened SessionRecovery
  import opened SessionScan
  import opened SessionNames
  import opened SessionAnswers
  import opened SessionRestart
  import Journal
  import Writer
  import Protocol

  // ----- the ids of an image -----

  // What the index of a slot holds.
  function ImageIds(items: seq<Item>): set<Id> {
    set b | b in SavedIds(items) && HexId(b) :: IdText(b)
  }

  // As the program writes them: ids of 32 digits, none of them twice.
  predicate DistinctItems(items: seq<Item>) {
    && (forall i :: 0 <= i < |items| ==> HexId(items[i].record.texts.id))
    && (forall i, j :: 0 <= i < j < |items| ==> items[i].record.texts.id != items[j].record.texts.id)
  }

  lemma {:induction false} SavedIdsAre(items: seq<Item>, b: Bytes)
    ensures b in SavedIds(items) <==>
      exists k :: 0 <= k < |items| && items[k].record.hasPayload == 1 && items[k].record.texts.id == b
    decreases |items|
  {
    if items != [] {
      SavedIdsAre(items[1..], b);
      if k :| 0 <= k < |items| && items[k].record.hasPayload == 1 && items[k].record.texts.id == b && k > 0 {
        assert items[1..][k - 1] == items[k];
      }
      if k :| 0 <= k < |items[1..]| && items[1..][k].record.hasPayload == 1 && items[1..][k].record.texts.id == b {
        assert items[k + 1] == items[1..][k];
      }
    }
  }

  // The ids of the records whose POST has expired.
  function ExpiredIds(items: seq<Item>, now: nat): set<Id> {
    set k | 0 <= k < |items| && !ItemHolds(items[k], now) && HexId(items[k].record.texts.id) ::
      IdText(items[k].record.texts.id)
  }

  // ----- the saved POSTs of a table -----

  function HeldIds(t: Table, now: nat): set<Id> {
    set k | 0 <= k < |t.sessions| && HoldsPost(t.sessions[k], now) && HexId(t.sessions[k].texts.id) ::
      IdText(t.sessions[k].texts.id)
  }

  function PostOf(t: Table, s: Session): Protocol.Post {
    Protocol.Post(IsComplete(t.heap, s.saved), s.reserved)
  }

  // `saved` is what the protocol's main loop would know of this table.
  ghost predicate Represents(t: Table, now: nat, saved: map<Id, Protocol.Post>) {
    && saved.Keys == HeldIds(t, now)
    && forall k :: 0 <= k < |t.sessions| && HoldsPost(t.sessions[k], now) && HexId(t.sessions[k].texts.id) ==>
         IdText(t.sessions[k].texts.id) in saved && saved[IdText(t.sessions[k].texts.id)] == PostOf(t, t.sessions[k])
  }

  // ----- restoring -----

  // A restored POST is the one its record says.
  lemma RestoredSession(image: Image, primaryHost: Bytes, now: nat, file: string, readError: bool, k: nat)
    requires |image.items| <= CAPACITY && k < |image.items|
    ensures var s := Restored(image, primaryHost, now, file, readError).sessions[k];
      HoldsPost(s, now) ==> s == LoadedSession(image.items[k], image.version, primaryHost, k)
  {
    hide Load, ReplayFile, LoadedSession, HoldsPost, StaleRecord;
    var t := Load(image.items, image.version, primaryHost, now);
    ReplayExact(t, file, readError, now, k);
    LoadPlaces(image.items, image.version, primaryHost, now);
    assert LoadedAt(t, image.items[k], image.version, primaryHost, now, k);
    BlankHoldsNone(now);
  }

  lemma DistinctNotShadowed(items: seq<Item>, k: nat, now: nat)
    requires DistinctItems(items) && k < |items|
    ensures !ItemShadowed(items, k, now)
  {
  }

  lemma JournaledIs(b: Bytes, file: string)
    requires HexId(b)
    ensures Journaled(b, file) <==> IdText(b) in Journal.IdSet(file)
  {
    hide IdBytes, IdText, HexId;
    IdSpelling(b, IdText(b));
    if id :| id in Journal.IdSet(file) && b == IdBytes(id) + [0] {
      IdSpelling(b, id);
    }
  }

  // Which POSTs come back from an image whose ids are distinct.
  lemma RestoredWhen(image: Image, primaryHost: Bytes, now: nat, file: string, readError: bool, k: nat)
    requires |image.items| <= CAPACITY && DistinctItems(image.items) && k < CAPACITY
    ensures HoldsPost(Restored(image, primaryHost, now, file, readError).sessions[k], now) <==>
      && k < |image.items| && ItemHolds(image.items[k], now) && !readError && Journal.WellFormed(file)
      && IdText(image.items[k].record.texts.id) !in Journal.IdSet(file)
  {
    hide Restored, HoldsPost, ItemHolds, ItemShadowed, Journaled, IdText, Journal.WellFormed, Journal.IdSet;
    RestoredPosts(image, primaryHost, now, file, readError, k);
    if k < |image.items| {
      DistinctNotShadowed(image.items, k, now);
      JournaledIs(image.items[k].record.texts.id, file);
    }
  }

  // What the protocol restores, for this journal.
  function Kept(ids: set<Id>, file: string, readError: bool): set<Id> {
    if readError then {} else Journal.Recovered(ids, file)
  }

  /** The POSTs in the restored table are the ids of the image without those in the journal
      and without the expired ones: the set that the protocol restores. */
  lemma RestoredIsRecovered(image: Image, primaryHost: Bytes, now: nat, file: string, readError: bool)
    requires |image.items| <= CAPACITY && DistinctItems(image.items)
    ensures HeldIds(Restored(image, primaryHost, now, file, readError), now) ==
      Kept(ImageIds(image.items), file, readError) - ExpiredIds(image.items, now)
  {
    hide Restored, HoldsPost, ItemHolds, IdText, HexId, LoadedSession, Journal.WellFormed, Journal.IdSet;
    var items := image.items;
    var t := Restored(image, primaryHost, now, file, readError);
    forall id | id in HeldIds(t, now)
      ensures id in Kept(ImageIds(items), file, readError) - ExpiredIds(items, now)
    {
      var k :| 0 <= k < |t.sessions| && HoldsPost(t.sessions[k], now) && HexId(t.sessions[k].texts.id)
        && IdText(t.sessions[k].texts.id) == id;
      HeldIsKept(image, primaryHost, now, file, readError, k);
    }
    forall id | id in Kept(ImageIds(items), file, readError) - ExpiredIds(items, now)
      ensures id in HeldIds(t, now)
    {
      KeptIsHeld(image, primaryHost, now, file, readError, id);
    }
  }

  lemma LoadedTextsId(item: Item, version: nat, primaryHost: Bytes, p: nat)
    ensures LoadedSession(item, version, primaryHost, p).texts.id == item.record.texts.id
  {
  }

  lemma HeldIsKept(image: Image, primaryHost: Bytes, now: nat, file: string, readError: bool, k: nat)
    requires |image.items| <= CAPACITY && DistinctItems(image.items) && k < CAPACITY
    requires HoldsPost(Restored(image, primaryHost, now, file, readError).sessions[k], now)
    ensures k < |image.items|
    ensures Restored(image, primaryHost, now, file, readError).sessions[k].texts.id == image.items[k].record.texts.id
    ensures IdText(image.items[k].record.texts.id) in
      Kept(ImageIds(image.items), file, readError) - ExpiredIds(image.items, now)
  {
    hide Restored, HoldsPost, IdText, IdBytes, HexId, LoadedSession, Journal.WellFormed, Journal.IdSet, StaleRecord;
    var items := image.items;
    RestoredWhen(image, primaryHost, now, file, readError, k);
    RestoredSession(image, primaryHost, now, file, readError, k);
    LoadedTextsId(items[k], image.version, primaryHost, k);
    var b := items[k].record.texts.id;
    SavedIdsAre(items, b);
    forall j | 0 <= j < |items| && !ItemHolds(items[j], now)
      ensures IdText(items[j].record.texts.id) != IdText(b)
    {
      IdSpelling(b, SAMPLE_ID);
      IdSpelling(items[j].record.texts.id, SAMPLE_ID);
    }
  }

  lemma KeptIsHeld(image: Image, primaryHost: Bytes, now: nat, file: string, readError: bool, id: Id)
    requires |image.items| <= CAPACITY && DistinctItems(image.items)
    requires id in Kept(ImageIds(image.items), file, readError) - ExpiredIds(image.items, now)
    ensures id in HeldIds(Restored(image, primaryHost, now, file, readError), now)
  {
    hide Restored, HoldsPost, IdText, HexId, ItemHolds, LoadedSession, Journal.WellFormed, Journal.IdSet, StaleRecord;
    var items := image.items;
    var b :| b in SavedIds(items) && HexId(b) && IdText(b) == id;
    SavedIdsAre(items, b);
    var k :| 0 <= k < |items| && items[k].record.hasPayload == 1 && items[k].record.texts.id == b;
    assert ItemHolds(items[k], now);
    RestoredWhen(image, primaryHost, now, file, readError, k);
    RestoredSession(image, primaryHost, now, file, readError, k);
    LoadedTextsId(items[k], image.version, primaryHost, k);
  }

  // A restored POST is complete and reserved by nobody.
  lemma RestoredPost(data: Bytes, sha: Bytes -> Digest, primaryHost: Bytes, now: nat, file: string, readError: bool,
                     k: nat)
    requires ValidImage(data, sha).Some? && k < |ValidImage(data, sha).value.items|
    ensures var t := Restored(ValidImage(data, sha).value, primaryHost, now, file, readError);
      HoldsPost(t.sessions[k], now) ==> PostOf(t, t.sessions[k]) == Protocol.Post(true, false)
  {
    hide ValidImage, Load, ReplayFile, HoldsPost, Inv, LoadedAt;
    var image := ValidImage(data, sha).value;
    var back := Load(image.items, image.version, primaryHost, now);
    var t := Restored(image, primaryHost, now, file, readError);
    if HoldsPost(t.sessions[k], now) {
      RestoredKeeps(data, sha, primaryHost, now, file, readError);
      AcceptedImageLoads(data, sha, primaryHost, now);
      ReplayKeeps(RESTORED_CAPS, back, file, readError, now);
      RestoredSession(image, primaryHost, now, file, readError, k);
      RestoredPosts(image, primaryHost, now, file, readError, k);
      ImageItems(data, sha);
      LoadPlaces(image.items, image.version, primaryHost, now);
      assert LoadedAt(back, image.items[k], image.version, primaryHost, now, k);
      HeldExactly(RESTORED_CAPS, t, k);
      LoadedPost(back, t, image.items[k], image.version, primaryHost, now, k);
    }
  }

  lemma LoadedPost(back: Table, t: Table, item: Item, version: nat, primaryHost: Bytes, now: nat, k: nat)
    requires k < |back.sessions| && LoadedAt(back, item, version, primaryHost, now, k) && ItemHolds(item, now)
    requires k < |t.sessions| && t.sessions[k] == LoadedSession(item, version, primaryHost, k)
    requires Trims(back.heap, t.heap) && WholePost(item)
    requires t.sessions[k].saved == Some(k) ==> k in t.heap
    ensures PostOf(t, t.sessions[k]) == Protocol.Post(true, false)
  {
  }

  /** After any restart every saved POST has one session. */
  lemma RestoredSingle(image: Image, primaryHost: Bytes, now: nat, file: string, readError: bool)
    requires |image.items| <= CAPACITY
    ensures SingleOwner(Restored(image, primaryHost, now, file, readError).sessions)
  {
    var back := Load(image.items, image.version, primaryHost, now);
    LoadPlaces(image.items, image.version, primaryHost, now);
    ReplayTidy(back, file, readError, now);
    BlankIsInactive();
    hide Load, ReplayFile, StaleRecord, Blank;
    var t := Restored(image, primaryHost, now, file, readError);
    forall k | 0 <= k < |t.sessions|
      ensures t.sessions[k].saved.Some? ==> t.sessions[k].saved == Some(k)
    {
      assert k < |image.items| ==> LoadedAt(back, image.items[k], image.version, primaryHost, now, k);
    }
  }

  // ----- the newest snapshot -----

  predicate ReadableAt(d: Protocol.Dir, r: Protocol.Readings, n: nat) {
    n < 2 && Protocol.SlotOf(d, n).Holds? && if n == 0 then r.restore0 else r.restore1
  }

  // The readable slot of the greatest generation, slot 0 on a tie.
  ghost predicate NewestSlot(d: Protocol.Dir, r: Protocol.Readings, n: nat) {
    && ReadableAt(d, r, n)
    && forall m: nat :: ReadableAt(d, r, m) ==>
         && Protocol.SlotOf(d, m).image.generation <= Protocol.SlotOf(d, n).image.generation
         && (m < n ==> Protocol.SlotOf(d, m).image.generation < Protocol.SlotOf(d, n).image.generation)
  }

  /** A restart goes on from the newest readable snapshot: no readable slot is newer than the new
      generation, and the saved POSTs are that slot's without the journaled and the expired ones;
      without a readable slot it starts empty. */
  lemma RestoresNewest(d: Protocol.Dir, disk: Protocol.Disk, r: Protocol.Readings, expired: set<Id>, spent: set<Id>,
                       forwarded: seq<Id>)
    ensures var main := Protocol.Restart(d, disk, r, expired, spent, forwarded).main;
      && (forall n: nat :: ReadableAt(d, r, n) ==> Protocol.SlotOf(d, n).image.generation <= main.generation)
      && (forall n: nat :: NewestSlot(d, r, n) ==>
            && main.generation == Protocol.SlotOf(d, n).image.generation
            && main.saved.Keys == Kept(Protocol.SlotOf(d, n).image.ids, d.journal, !r.replay) - expired)
      && ((exists n: nat :: ReadableAt(d, r, n)) ==> exists n: nat :: NewestSlot(d, r, n))
      && ((forall n: nat :: !ReadableAt(d, r, n)) ==> main.generation == 0 && main.saved == map[])
      && forall id :: id in main.saved ==> main.saved[id] == Protocol.Post(true, false)
  {
    hide Journal.Recovered;
    var main := Protocol.Restart(d, disk, r, expired, spent, forwarded).main;
    if exists n: nat :: ReadableAt(d, r, n) {
      assert NewestSlot(d, r, 0) || NewestSlot(d, r, 1);
    } else {
      assert !ReadableAt(d, r, 0) && !ReadableAt(d, r, 1);
      assert main.saved.Keys == {};
    }
  }

  // The two files are what the protocol's directory says, as far as they could be read.
  ghost predicate Describes(d: Protocol.Dir, r: Protocol.Readings, files: seq<Reading>, sha: Bytes -> Digest) {
    && |files| == 2
    && forall n :: 0 <= n < 2 ==>
         && (ImageOf(files[n], sha).Some? <==> ReadableAt(d, r, n))
         && (ImageOf(files[n], sha).Some? ==>
               var image := ImageOf(files[n], sha).value;
               && DistinctItems(image.items)
               && Protocol.SlotOf(d, n).image == Writer.Image(image.generation, ImageIds(image.items)))
  }

  lemma NewestFile(d: Protocol.Dir, r: Protocol.Readings, files: seq<Reading>, sha: Bytes -> Digest, n: nat)
    requires Describes(d, r, files, sha) && Newest(files, sha, n)
    ensures NewestSlot(d, r, n)
  {
    hide ImageOf, ImageIds, DistinctItems;
    forall m: nat | ReadableAt(d, r, m)
      ensures Protocol.SlotOf(d, m).image.generation <= Protocol.SlotOf(d, n).image.generation
      ensures m < n ==> Protocol.SlotOf(d, m).image.generation < Protocol.SlotOf(d, n).image.generation
    {
      assert ImageOf(files[m], sha).Some?;
    }
  }

  /** A restart of the table is a restart of the protocol: what the table restored from the newest
      valid file holds is the saved map of the protocol's new state, and the generations agree, for
      any files with distinct ids and any journal. */
  lemma RestartRefines(files: seq<Reading>, n: nat, sha: Bytes -> Digest, primaryHost: Bytes, now: nat,
                       d: Protocol.Dir, disk: Protocol.Disk, r: Protocol.Readings, spent: set<Id>, forwarded: seq<Id>)
    requires Describes(d, r, files, sha) && Newest(files, sha, n)
    ensures var image := ImageOf(files[n], sha).value;
      var main := Protocol.Restart(d, disk, r, ExpiredIds(image.items, now), spent, forwarded).main;
      && main.generation == image.generation
      && Represents(Restored(image, primaryHost, now, d.journal, !r.replay), now, main.saved)
  {
    var image := ImageOf(files[n], sha).value;
    var t := Restored(image, primaryHost, now, d.journal, !r.replay);
    NewestFile(d, r, files, sha, n);
    RestoresNewest(d, disk, r, ExpiredIds(image.items, now), spent, forwarded);
    var saved := Protocol.Restart(d, disk, r, ExpiredIds(image.items, now), spent, forwarded).main.saved;
    hide ValidImage, Restored, HoldsPost, IdText, HexId, ImageIds, ExpiredIds, Kept, PostOf, ReadableAt,
      Protocol.Restart, DistinctItems;
    RestoredIsRecovered(image, primaryHost, now, d.journal, !r.replay);
    forall k | 0 <= k < |t.sessions| && HoldsPost(t.sessions[k], now) && HexId(t.sessions[k].texts.id)
      ensures IdText(t.sessions[k].texts.id) in saved
        && saved[IdText(t.sessions[k].texts.id)] == PostOf(t, t.sessions[k])
    {
      assert IdText(t.sessions[k].texts.id) in HeldIds(t, now);
      HeldIsKept(image, primaryHost, now, d.journal, !r.replay, k);
      RestoredPost(files[n].data, sha, primaryHost, now, d.journal, !r.replay, k);
    }
  }

  // ----- capturing -----

  lemma AgedHolds(s: Session, now: nat)
    requires Shaped(s)
    ensures Aged(s, now).saved.Some? <==> HoldsPost(Aged(s, now), now)
  {
    hide Blank;
    BlankIsInactive();
  }

  lemma CapturedHolds(t: Table, now: nat, k: nat)
    requires AllShaped(t.sessions) && k < |t.sessions|
    ensures var u := Capture(t, now).0;
      |u.sessions| == |t.sessions| && (u.sessions[k].saved.Some? <==> HoldsPost(u.sessions[k], now))
  {
    hide Aged, HoldsPost, Shaped;
    var u := ExpireFirst(t, now, |t.sessions|);
    ExpireFirstAges(t, now, |t.sessions|);
    PinAllSessions(u, PayloadsOf(CapturedSessions(u.sessions, u.heap)));
    AgedHolds(t.sessions[k], now);
  }

  // The captured sessions are the sessions that qualify.
  lemma {:induction false} CapturedFrom(sessions: seq<Session>, heap: map<nat, Payload>, s: Session)
    ensures s in CapturedSessions(sessions, heap) <==> s in sessions && Captured(s, heap)
    decreases |sessions|
  {
    hide Captured;
    if sessions != [] {
      var n := |sessions| - 1;
      CapturedFrom(sessions[..n], heap, s);
      LastSplit(sessions);
    }
  }

  /** A snapshot captures every living session, as it is now, except those whose POST is not complete;
      and nothing else. */
  lemma CaptureExactly(t: Table, now: nat, k: nat)
    requires k < |t.sessions|
    ensures var c := Capture(t, now).1;
      && (Alive(t.sessions[k], now) ==>
            (Aged(t.sessions[k], now) in c <==>
               Aged(t.sessions[k], now).saved.None? || CompleteIn(t, now, Aged(t.sessions[k], now).saved.value)))
      && forall s :: s in c ==>
           exists i :: 0 <= i < |t.sessions| && Alive(t.sessions[i], now) && s == Aged(t.sessions[i], now)
  {
    var u := ExpireFirst(t, now, |t.sessions|);
    ExpireFirstAges(t, now, |t.sessions|);
    AgedIs(t.sessions[k], now);
    hide Aged, Alive, CapturedSessions;
    CapturedFrom(u.sessions, u.heap, Aged(t.sessions[k], now));
    assert u.sessions[k] in u.sessions;
    forall s | s in Capture(t, now).1
      ensures exists i :: 0 <= i < |t.sessions| && Alive(t.sessions[i], now) && s == Aged(t.sessions[i], now)
    {
      CapturedFrom(u.sessions, u.heap, s);
      var i :| 0 <= i < |u.sessions| && u.sessions[i] == s;
      AgedIs(t.sessions[i], now);
    }
  }

  // The payload, once the expired ones are gone, has all its bytes.
  predicate CompleteIn(t: Table, now: nat, p: nat) {
    var heap := ExpireFirst(t, now, |t.sessions|).heap;
    p in heap && |heap[p].body| == heap[p].size
  }

  lemma SavedCaptures(c: seq<Session>, heap: map<nat, Payload>, b: Bytes)
    requires AllComplete(c, heap)
    ensures b in SavedIds(Captures(c, heap)) <==> exists s :: s in c && s.saved.Some? && s.texts.id == b
  {
    hide ItemAt;
    var items := Captures(c, heap);
    SavedIdsAre(items, b);
    forall k | 0 <= k < |c|
      ensures (items[k].record.hasPayload == 1 <==> c[k].saved.Some?) && items[k].record.texts.id == c[k].texts.id
    {
      CapturesAt(c, heap, k);
      ItemRecord(EntryOf(c[k], heap), heap);
    }
    if exists s :: s in c && s.saved.Some? && s.texts.id == b {
      var s :| s in c && s.saved.Some? && s.texts.id == b;
      var k :| 0 <= k < |c| && c[k] == s;
      assert items[k].record.texts.id == b;
    }
  }

  lemma CapturedIsSaved(caps: Caps, t: Table, now: nat, saved: map<Id, Protocol.Post>, b: Bytes)
    requires Inv(caps, t) && AllRecordable(t.sessions) && Represents(Capture(t, now).0, now, saved) && HexId(b)
    requires var (u, c) := Capture(t, now); b in SavedIds(Captures(c, u.heap))
    ensures IdText(b) in Protocol.Complete(saved)
  {
    var (u, c) := Capture(t, now);
    BeginCaptures(caps, t, now);
    hide Inv, AllRecordable, Capture, Captures, CapturedSessions, HoldsPost, IdText, HexId, Aged;
    SavedCaptures(c, u.heap, b);
    var s :| s in c && s.saved.Some? && s.texts.id == b;
    CapturedFrom(u.sessions, u.heap, s);
    var k :| 0 <= k < |u.sessions| && u.sessions[k] == s;
    CapturedHolds(t, now, k);
  }

  lemma SavedIsCaptured(caps: Caps, t: Table, now: nat, saved: map<Id, Protocol.Post>, id: Id)
    requires Inv(caps, t) && AllRecordable(t.sessions) && Identified(t.sessions)
    requires Represents(Capture(t, now).0, now, saved) && id in Protocol.Complete(saved)
    ensures var (u, c) := Capture(t, now); id in ImageIds(Captures(c, u.heap))
  {
    var (u, c) := Capture(t, now);
    BeginCaptures(caps, t, now);
    CaptureNarrows(t, now);
    NarrowsKeeps(t.sessions, u.sessions, []);
    hide Inv, AllRecordable, Capture, Captures, CapturedSessions, HoldsPost, IdText, HexId, Aged;
    assert id in HeldIds(u, now);
    var k :| 0 <= k < |u.sessions| && HoldsPost(u.sessions[k], now) && HexId(u.sessions[k].texts.id)
      && IdText(u.sessions[k].texts.id) == id;
    CapturedHolds(t, now, k);
    HoldsIsActive(u.sessions[k], now);
    CapturedFrom(u.sessions, u.heap, u.sessions[k]);
    SavedCaptures(c, u.heap, u.sessions[k].texts.id);
  }

  /** The ids a snapshot names are the complete POSTs: the set that the protocol puts into the
      image it captures. */
  lemma CaptureIds(caps: Caps, t: Table, now: nat, saved: map<Id, Protocol.Post>)
    requires Inv(caps, t) && AllRecordable(t.sessions) && Identified(t.sessions)
    requires Represents(Capture(t, now).0, now, saved)
    ensures var (u, c) := Capture(t, now); ImageIds(Captures(c, u.heap)) == Protocol.Complete(saved)
  {
    var (u, c) := Capture(t, now);
    hide Inv, AllRecordable, Capture, Captures, Identified, Represents, IdText, HexId, Protocol.Complete;
    forall id | id in ImageIds(Captures(c, u.heap))
      ensures id in Protocol.Complete(saved)
    {
      var b :| b in SavedIds(Captures(c, u.heap)) && HexId(b) && IdText(b) == id;
      CapturedIsSaved(caps, t, now, saved, b);
    }
    forall id | id in Protocol.Complete(saved)
      ensures id in ImageIds(Captures(c, u.heap))
    {
      SavedIsCaptured(caps, t, now, saved, id);
    }
  }

  lemma HoldsIsActive(s: Session, now: nat)
    ensures HoldsPost(s, now) ==> s.active
  {
  }

  // ----- out, back and through the journal -----

  lemma {:induction false} CapturedUnique(sessions: seq<Session>, heap: map<nat, Payload>)
    requires Identified(sessions)
    ensures Identified(CapturedSessions(sessions, heap))
    decreases |sessions|
  {
    if sessions != [] {
      var n := |sessions| - 1;
      var last, before := sessions[n], CapturedSessions(sessions[..n], heap);
      CapturedUnique(sessions[..n], heap);
      forall i | 0 <= i < |before|
        ensures last.active ==> before[i].texts.id != last.texts.id || !before[i].active
      {
        CapturedFrom(sessions[..n], heap, before[i]);
        var j :| 0 <= j < n && sessions[..n][j] == before[i];
      }
    }
  }

  lemma CapturesDistinct(c: seq<Session>, heap: map<nat, Payload>)
    requires Identified(c) && AllComplete(c, heap)
    ensures DistinctItems(Captures(c, heap))
  {
    hide ItemAt, HexId;
    var items := Captures(c, heap);
    forall k | 0 <= k < |c|
      ensures items[k].record.texts.id == c[k].texts.id
    {
      CapturesAt(c, heap, k);
      ItemRecord(EntryOf(c[k], heap), heap);
    }
  }

  /** From a finished snapshot through recovery and the journal replay, for any table whose ids
      are distinct: a captured session holds its POST again exactly when that has not expired
      and the journal is whole and does not name it; and then it is the session that was
      captured, with the body and request it had. */
  lemma CapturedRestored(caps: Caps, t: Table, now: nat, generation: nat, moves: seq<Move>,
                         sha: Bytes -> Digest, z: System,
                         primaryHost: Bytes, later: nat, file: string, readError: bool, k: nat)
    requires Inv(caps, t) && AllRecordable(t.sessions) && Identified(t.sessions) && 0 < generation < Limit(8)
    requires Begin(t, now, generation).Some? && Moves(Begin(t, now, generation).value, moves, sha, z) && z.s.complete
    requires k < |Capture(t, now).1|
    ensures var image := ValidImage(z.s.data, sha); var (u, c) := Capture(t, now);
      && image.Some? && DistinctItems(image.value.items) && |image.value.items| == |c| <= CAPACITY
      && var done := Restored(image.value, primaryHost, later, file, readError);
         && (HoldsPost(done.sessions[k], later) <==>
               HoldsPost(c[k], later) && !readError && Journal.WellFormed(file)
               && HexId(c[k].texts.id) && IdText(c[k].texts.id) !in Journal.IdSet(file))
         && (HoldsPost(done.sessions[k], later) ==>
               && done.sessions[k] == Returned(c[k], k) && k in done.heap && c[k].saved.value in u.heap
               && SameContent(u.heap[c[k].saved.value], done.heap[k]))
  {
    var (u, c) := Capture(t, now);
    var items := Captures(c, u.heap);
    SnapshotItems(caps, t, now, generation, moves, sha, z);
    CapturedNames(caps, t, now);
    CapturedComesBack(caps, t, now, generation, moves, sha, z, primaryHost, later, k);
    RestoredKeeps(z.s.data, sha, primaryHost, later, file, readError);
    AcceptedImageLoads(z.s.data, sha, primaryHost, later);
    hide Inv, Identified, Begin, Moves, Capture, Captures, ValidImage, Load, ReplayFile, LoadedSession,
      HoldsPost, ItemHolds,
      StaleRecord, Stale, IdText, HexId, Journal.WellFormed, Journal.IdSet, Returned;
    CapturedItem(c[k], u.heap, primaryHost, k, later);
    CapturesAt(c, u.heap, k);
    var image := ValidImage(z.s.data, sha).value;
    RestoredWhen(image, primaryHost, later, file, readError, k);
    RestoredSession(image, primaryHost, later, file, readError, k);
    ReplayKeeps(RESTORED_CAPS, Load(items, VERSION, primaryHost, later), file, readError, later);
    HeldExactly(RESTORED_CAPS, Restored(image, primaryHost, later, file, readError), k);
  }

  lemma SnapshotItems(caps: Caps, t: Table, now: nat, generation: nat, moves: seq<Move>,
                      sha: Bytes -> Digest, z: System)
    requires Inv(caps, t) && AllRecordable(t.sessions) && 0 < generation < Limit(8)
    requires Begin(t, now, generation).Some? && Moves(Begin(t, now, generation).value, moves, sha, z) && z.s.complete
    ensures var (u, c) := Capture(t, now);
      ValidImage(z.s.data, sha) == Some(Image(generation, VERSION, Captures(c, u.heap)))
  {
    var (u, c) := Capture(t, now);
    SnapshotIsCaptured(caps, t, now, generation, moves, sha, z);
    BeginCaptures(caps, t, now);
    BegunItems(caps, u, c);
    hide Inv, AllRecordable, Moves, Capture, Proper, ValidImage;
    BegunDeclared(c, u.heap, Captures(c, u.heap));
    BeginIs(t, now, generation, u, c);
  }

  lemma CapturedNames(caps: Caps, t: Table, now: nat)
    requires Inv(caps, t) && AllRecordable(t.sessions) && Identified(t.sessions)
    ensures var (u, c) := Capture(t, now);
      Identified(c) && AllComplete(c, u.heap) && DistinctItems(Captures(c, u.heap))
  {
    var (u, c) := Capture(t, now);
    BeginCaptures(caps, t, now);
    CaptureNarrows(t, now);
    hide Inv, AllRecordable, Identified, Capture;
    NarrowsKeeps(t.sessions, u.sessions, []);
    CapturedUnique(u.sessions, u.heap);
    CapturesDistinct(c, u.heap);
  }

  lemma CapturedItem(s: Session, heap: map<nat, Payload>, primaryHost: Bytes, p: nat, later: nat)
    requires s.active && (s.saved.Some? ==> IsComplete(heap, s.saved))
    ensures var item := ItemAt(EntryOf(s, heap), heap);
      && (ItemHolds(item, later) <==> HoldsPost(s, later)) && item.record.texts.id == s.texts.id
      && LoadedSession(item, VERSION, primaryHost, p) == Returned(s, p)
  {
    ReturnedIs(s, heap, primaryHost, p, later);
    ItemRecord(EntryOf(s, heap), heap);
  }

  // ----- the next process -----

  lemma ReplayOneTidy(t: Table, id: Id, now: nat)
    ensures var u := ReplayOne(t, id, now);
      Narrows(t.sessions, u.sessions) && (AllRecordable(t.sessions) ==> AllRecordable(u.sessions))
  {
    hide Narrows, AllRecordable, Release;
    var (u, at) := FindFrom(t, IdBytes(id), now, 0);
    FindFromNarrows(t, IdBytes(id), now);
    if AllRecordable(t.sessions) { FindFromRecordable(t, IdBytes(id), now, 0); }
    if at.Some? {
      ReleaseNarrows(u, at.value);
      NarrowsTwice(t.sessions, u.sessions, Release(u, at.value).sessions);
      if AllRecordable(t.sessions) { ReleaseRecordable(u, at.value); }
    }
  }

  lemma {:induction false} ReplayAllTidy(t: Table, ids: seq<Id>, now: nat)
    ensures var u := ReplayAll(t, ids, now);
      Narrows(t.sessions, u.sessions) && (AllRecordable(t.sessions) ==> AllRecordable(u.sessions))
    decreases |ids|
  {
    hide Narrows, AllRecordable, ReplayOne;
    if ids == [] {
      NarrowsItself(t.sessions);
    } else {
      var n := |ids| - 1;
      ReplayAllTidy(t, ids[..n], now);
      ReplayOneTidy(ReplayAll(t, ids[..n], now), ids[n], now);
      NarrowsTwice(t.sessions, ReplayAll(t, ids[..n], now).sessions, ReplayAll(t, ids, now).sessions);
    }
  }

  lemma ReplayTidy(t: Table, file: string, readError: bool, now: nat)
    ensures var u := ReplayFile(t, file, readError, now);
      Narrows(t.sessions, u.sessions) && (AllRecordable(t.sessions) ==> AllRecordable(u.sessions))
  {
    hide Narrows, AllRecordable, ReplayAll, DiscardSaved;
    var ids := Journal.LeadingIds(file);
    var u := ReplayAll(t, ids, now);
    ReplayAllTidy(t, ids, now);
    DiscardSavedNarrows(u, |u.sessions|);
    NarrowsTwice(t.sessions, u.sessions, DiscardSaved(u, |u.sessions|).sessions);
    if AllRecordable(t.sessions) { DiscardSavedRecordable(u, |u.sessions|); }
  }

  lemma ReturnedTidy(s: Session, p: nat)
    requires s.active && Recordable(s)
    ensures Recordable(Returned(s, p)) && Returned(s, p).texts == s.texts
  {
  }

  // What is loaded from a captured image: the captured sessions that are still alive.
  lemma LoadedTidy(c: seq<Session>, heap: map<nat, Payload>, primaryHost: Bytes, later: nat)
    requires |c| <= CAPACITY && AllComplete(c, heap) && Identified(c)
    requires forall k :: 0 <= k < |c| ==> c[k].active && Recordable(c[k])
    ensures var back := Load(Captures(c, heap), VERSION, primaryHost, later);
      AllRecordable(back.sessions) && Identified(back.sessions)
  {
    var items := Captures(c, heap);
    LoadPlaces(items, VERSION, primaryHost, later);
    BlankRecordable();
    BlankIsInactive();
    hide Load, LoadedSession, StaleRecord, Stale, Returned, Captures, Recordable, Blank, HexId;
    var back := Load(items, VERSION, primaryHost, later);
    forall i | 0 <= i < |back.sessions|
      ensures Recordable(back.sessions[i])
      ensures back.sessions[i].active ==> i < |c| && back.sessions[i].texts.id == c[i].texts.id
    {
      if i < |c| {
        CapturesAt(c, heap, i);
        ReturnedIs(c[i], heap, primaryHost, i, later);
        ReturnedTidy(c[i], i);
        assert LoadedAt(back, items[i], VERSION, primaryHost, later, i);
      }
    }
  }

  /** A restart from a finished snapshot, journal replay included, keeps everything that was
      proved of runs and snapshots, with the wider caps: the next process starts from it. */
  lemma RestartKeeps(caps: Caps, t: Table, now: nat, generation: nat, moves: seq<Move>, sha: Bytes -> Digest, z: System,
                     primaryHost: Bytes, later: nat, file: string, readError: bool)
    requires Inv(caps, t) && AllRecordable(t.sessions) && Identified(t.sessions) && 0 < generation < Limit(8)
    requires Begin(t, now, generation).Some? && Moves(Begin(t, now, generation).value, moves, sha, z) && z.s.complete
    ensures var image := ValidImage(z.s.data, sha);
      && image.Some?
      && var done := Restored(image.value, primaryHost, later, file, readError);
         Inv(RESTORED_CAPS, done) && AllRecordable(done.sessions) && Identified(done.sessions)
  {
    var (u, c) := Capture(t, now);
    SnapshotItems(caps, t, now, generation, moves, sha, z);
    CapturedNames(caps, t, now);
    BeginCaptures(caps, t, now);
    CapturedSound(caps, u);
    RestoredKeeps(z.s.data, sha, primaryHost, later, file, readError);
    hide Inv, AllRecordable, Identified, Begin, Moves, Capture, Captures, CapturedSessions,
      ValidImage, Load, ReplayFile,
      Recordable;
    LoadedTidy(c, u.heap, primaryHost, later);
    var back := Load(Captures(c, u.heap), VERSION, primaryHost, later);
    ReplayTidy(back, file, readError, later);
    NarrowsKeeps(back.sessions, ReplayFile(back, file, readError, later).sessions, []);
  }

  lemma CapturedSound(caps: Caps, u: Table)
    requires Inv(caps, u) && AllRecordable(u.sessions)
    ensures var c := CapturedSessions(u.sessions, u.heap);
      |c| <= CAPACITY && forall k :: 0 <= k < |c| ==> c[k].active && Recordable(c[k])
  {
    hide Recordable, TotalWeight, Captures;
    CapturedWeight(u.sessions, u.heap);
  }
}
