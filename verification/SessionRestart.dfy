/** What a new process recovers into its table: the records of an accepted image, and then
    the replay of the journal over them. */
module SessionRestart {
  import opened Options
  import opened Bytes
  import opened LittleEndian
  import opened Ids
  import Journal
  import opened Sessions
  import opened SessionSafety
  import opened SessionContents
  import opened SessionImage
  import opened SessionRecovery
  import opened SessionScan
  import opened SessionNames

  // ----- any accepted image -----

  lemma {:induction false} ParsedItems(rest: Bytes, count: nat, version: nat, total: nat)
    requires ParseItems(rest, count, version, total).Some? && total <= PENDING_BYTES
    ensures var items := ParseItems(rest, count, version, total).value;
      && |items| == count && total + TotalWeight(items) <= PENDING_BYTES
      && forall k :: 0 <= k < count ==> Acceptable(items[k]) && WholePost(items[k])
    decreases count
  {
    hide ParseItems, ItemOf, Acceptable, WholePost, ValidRecord, ValidPayload, TotalWeight, Weight, Extra;
    if count == 0 {
      ParsedNone(rest, version, total);
    } else {
      var r, after := ParsedHead(rest, count, version, total);
      ItemAccepted(r, version, after, total);
      ParsedItems(after[Extra(r)..], count - 1, version, total + Weight(r));
      WeightCons(ItemOf(r, after), ParseItems(after[Extra(r)..], count - 1, version, total + Weight(r)).value);
    }
  }

  lemma ParsedNone(rest: Bytes, version: nat, total: nat)
    requires ParseItems(rest, 0, version, total).Some?
    ensures var items := ParseItems(rest, 0, version, total).value; items == [] && TotalWeight(items) == 0
  {
  }

  // The first record and what follows it.
  lemma ParsedHead(rest: Bytes, count: nat, version: nat, total: nat) returns (r: Record, after: Bytes)
    requires count > 0 && ParseItems(rest, count, version, total).Some?
    ensures ValidRecord(r, version) && Extra(r) <= |after| && ValidPayload(r, total)
    ensures var more := ParseItems(after[Extra(r)..], count - 1, version, total + Weight(r));
      more.Some? && ParseItems(rest, count, version, total).value == [ItemOf(r, after)] + more.value
  {
    hide ReadRecord, ItemOf, ValidRecord, ValidPayload, Weight, Extra;
    r, after := ReadRecord(rest[..RecordSize(version)], version), rest[RecordSize(version)..];
  }

  lemma WeightCons(item: Item, items: seq<Item>)
    ensures TotalWeight([item] + items) == Weight(item.record) + TotalWeight(items)
  {
    assert ([item] + items)[1..] == items;
  }

  // Recovery's items have whole POSTs.
  predicate WholePost(item: Item) {
    item.record.hasPayload == 1 ==> |item.body| == item.record.size
  }

  lemma ItemAccepted(r: Record, version: nat, after: Bytes, total: nat)
    requires ValidRecord(r, version) && Extra(r) <= |after| && ValidPayload(r, total) && total <= PENDING_BYTES
    ensures Acceptable(ItemOf(r, after)) && WholePost(ItemOf(r, after)) && ItemOf(r, after).record == r
    ensures total + Weight(r) <= PENDING_BYTES
  {
  }

  lemma ImageItems(data: Bytes, sha: Bytes -> Digest)
    requires ValidImage(data, sha).Some?
    ensures var items := ValidImage(data, sha).value.items;
      && |items| <= CAPACITY && TotalWeight(items) <= PENDING_BYTES
      && forall k :: 0 <= k < |items| ==> Acceptable(items[k]) && WholePost(items[k])
  {
    hide ParseItems, TotalWeight, Acceptable, WholePost;
    var h, end := GetHeader(data), |data| - 32;
    ParsedItems(data[HEADER..end], h.count, h.version, 0);
  }

  lemma WideCaps(sessions: seq<Session>)
    requires |sessions| == CAPACITY
    ensures Capped(RESTORED_CAPS, sessions)
  {
    CountAtMost(sessions, Unsolved);
    forall peer ensures Count(sessions, UnsolvedFrom(peer)) <= CAPACITY {
      CountAtMost(sessions, UnsolvedFrom(peer));
    }
  }

  lemma {:induction false} CountAtMost(sessions: seq<Session>, q: Query)
    ensures Count(sessions, q) <= |sessions|
    decreases |sessions|
  {
    if sessions != [] {
      CountAtMost(sessions[..|sessions| - 1], q);
    }
  }

  lemma LoadedShaped(items: seq<Item>, version: nat, primaryHost: Bytes, now: nat)
    requires |items| <= CAPACITY
    ensures AllShaped(Load(items, version, primaryHost, now).sessions)
  {
    LoadPlaces(items, version, primaryHost, now);
    hide Load;
    var t := Load(items, version, primaryHost, now);
    forall i | 0 <= i < CAPACITY
      ensures Shaped(t.sessions[i])
    {
      if i < |items| {
        assert LoadedAt(t, items[i], version, primaryHost, now, i);
      }
    }
  }

  /** Whatever image recovery accepts, of either version and wherever it came from, loading
      it leaves the accounting, the pins and the shapes exact. */
  lemma AcceptedImageLoads(data: Bytes, sha: Bytes -> Digest, primaryHost: Bytes, now: nat)
    requires ValidImage(data, sha).Some?
    ensures var image := ValidImage(data, sha).value;
      |image.items| <= CAPACITY && Inv(RESTORED_CAPS, Load(image.items, image.version, primaryHost, now))
  {
    hide ValidImage, Acceptable, WholePost, TotalWeight, Load;
    ImageItems(data, sha);
    var image := ValidImage(data, sha).value;
    LoadAccounts(image.items, image.version, primaryHost, now);
    LoadedShaped(image.items, image.version, primaryHost, now);
    WideCaps(Load(image.items, image.version, primaryHost, now).sessions);
  }

  // ----- the replay -----

  // One good line: find the session and release its POST.
  function ReplayOne(t: Table, id: Id, now: nat): (u: Table)
    ensures |u.sessions| == |t.sessions|
  {
    var (u, at) := FindFrom(t, IdBytes(id), now, 0);
    if at.Some? then Release(u, at.value) else u
  }

  function ReplayAll(t: Table, ids: seq<Id>, now: nat): (u: Table)
    ensures |u.sessions| == |t.sessions|
    decreases |ids|
  {
    if ids == [] then t else ReplayOne(ReplayAll(t, ids[..|ids| - 1], now), ids[|ids| - 1], now)
  }

  // The journal replay of ankah_session_restore. A line that is bad, or a file that cannot
  // be read to its end, costs every saved POST.
  function ReplayFile(t: Table, file: string, readError: bool, now: nat): (u: Table)
    ensures |u.sessions| == |t.sessions|
  {
    var u := ReplayAll(t, Journal.LeadingIds(file), now);
    if readError || !Journal.WellFormed(file) then DiscardSaved(u, |u.sessions|) else u
  }

  // Session k is the one that one of the ids finds.
  predicate Dropped(sessions: seq<Session>, k: nat, ids: seq<Id>, now: nat) {
    exists j :: 0 <= j < |ids| && FirstNamed(sessions, IdBytes(ids[j]), now, 0) == Some(k)
  }

  // How a session may have changed.
  predicate Came(before: Session, after: Session, dropped: bool, now: nat) {
    && (Alive(after, now) <==> Alive(before, now))
    && (Alive(before, now) ==> after.texts.id == before.texts.id)
    && (HoldsPost(before, now) ==> after == if dropped then Emptied(before) else before)
    && (HoldsPost(after, now) ==> HoldsPost(before, now))
    && (dropped ==> after.saved.None?)
    && (after.saved.Some? ==> after.saved == before.saved)
  }

  lemma CameAged(s: Session, u: Session, dropped: bool, now: nat)
    requires Came(s, u, dropped, now)
    ensures Came(s, Aged(u, now), dropped, now)
  {
    hide Blank;
    BlankIsInactive();
  }

  lemma CameReleased(s: Session, u: Session, dropped: bool, now: nat)
    requires Came(s, u, dropped, now) && Alive(u, now)
    ensures Came(s, if Aged(u, now).saved.Some? then Emptied(Aged(u, now)) else Aged(u, now), true, now)
  {
    hide Blank;
    EmptiedTwice(s);
  }

  lemma EmptiedTwice(s: Session)
    ensures Emptied(Emptied(s)) == Emptied(s)
  {
  }

  ghost predicate AllCame(before: seq<Session>, after: seq<Session>, ids: seq<Id>, now: nat) {
    && |after| == |before|
    && forall k :: 0 <= k < |before| ==> Came(before[k], after[k], Dropped(before, k, ids, now), now)
  }

  lemma DroppedSnoc(sessions: seq<Session>, k: nat, ids: seq<Id>, id: Id, now: nat)
    ensures Dropped(sessions, k, ids + [id], now) <==>
      Dropped(sessions, k, ids, now) || FirstNamed(sessions, IdBytes(id), now, 0) == Some(k)
  {
    hide FirstNamed;
    if Dropped(sessions, k, ids, now) {
      var j :| 0 <= j < |ids| && FirstNamed(sessions, IdBytes(ids[j]), now, 0) == Some(k);
      assert (ids + [id])[j] == ids[j];
    }
    assert (ids + [id])[|ids|] == id;
  }

  lemma ReplayOneCame(before: seq<Session>, t: Table, ids: seq<Id>, id: Id, now: nat)
    requires AllCame(before, t.sessions, ids, now)
    ensures AllCame(before, ReplayOne(t, id, now).sessions, ids + [id], now)
  {
    hide Blank, Emptied, Stale, FirstNamed, Dropped, Came, Aged;
    var b := IdBytes(id);
    FindIs(t, b, now, 0);
    var (u, at) := FindFrom(t, b, now, 0);
    forall k | 0 <= k < |before| ensures Named(before[k], b, now) <==> Named(t.sessions[k], b, now) {
      SameName(before[k], t.sessions[k], Dropped(before, k, ids, now), b, now);
    }
    FirstNamedSame(before, t.sessions, b, now, 0);
    var v := ReplayOne(t, id, now);
    forall k | 0 <= k < |before|
      ensures Came(before[k], v.sessions[k], Dropped(before, k, ids + [id], now), now)
    {
      DroppedSnoc(before, k, ids, id, now);
      CameAged(before[k], t.sessions[k], Dropped(before, k, ids, now), now);
      if at == Some(k) {
        CameReleased(before[k], t.sessions[k], Dropped(before, k, ids, now), now);
      }
    }
  }

  lemma SameName(s: Session, u: Session, dropped: bool, id: Bytes, now: nat)
    requires Came(s, u, dropped, now)
    ensures Named(s, id, now) <==> Named(u, id, now)
  {
  }

  lemma {:induction false} ReplayAllCame(t: Table, ids: seq<Id>, now: nat)
    ensures AllCame(t.sessions, ReplayAll(t, ids, now).sessions, ids, now)
    decreases |ids|
  {
    if ids == [] {
      NothingDropped(t.sessions, now);
    } else {
      hide AllCame, ReplayOne;
      var n := |ids| - 1;
      ReplayAllCame(t, ids[..n], now);
      ReplayOneCame(t.sessions, ReplayAll(t, ids[..n], now), ids[..n], ids[n], now);
      assert ids == ids[..n] + [ids[n]];
    }
  }

  lemma NothingDropped(sessions: seq<Session>, now: nat)
    ensures AllCame(sessions, sessions, [], now)
  {
    hide Emptied, FirstNamed;
  }

  lemma {:induction false} DiscardSavedLeavesNone(t: Table, n: nat)
    requires n <= |t.sessions|
    ensures var u := DiscardSaved(t, n);
      && (forall k :: 0 <= k < n ==> u.sessions[k].saved.None?)
      && (forall k :: n <= k < |t.sessions| ==> u.sessions[k] == t.sessions[k])
    decreases n
  {
    if n > 0 { DiscardSavedLeavesNone(t, n - 1); }
  }

  lemma BadFileLeavesNone(t: Table, file: string, readError: bool, now: nat, k: nat)
    requires k < |t.sessions| && (readError || !Journal.WellFormed(file))
    ensures ReplayFile(t, file, readError, now).sessions[k].saved.None?
  {
    var u := ReplayAll(t, Journal.LeadingIds(file), now);
    DiscardSavedLeavesNone(u, |u.sessions|);
    assert DiscardSaved(u, |u.sessions|).sessions[k].saved == None;
  }

  // The journal names the session with this id.
  predicate Journaled(b: Bytes, file: string) {
    exists id :: id in Journal.IdSet(file) && b == IdBytes(id) + [0]
  }

  // A living session before k has the same id, so find never gets to k.
  predicate Shadowed(sessions: seq<Session>, k: nat, now: nat)
    requires k < |sessions|
  {
    exists i :: 0 <= i < k && Alive(sessions[i], now) && sessions[i].texts.id == sessions[k].texts.id
  }

  lemma DroppedWhen(sessions: seq<Session>, k: nat, file: string, now: nat)
    requires k < |sessions| && Alive(sessions[k], now) && Journal.WellFormed(file)
    ensures Dropped(sessions, k, Journal.LeadingIds(file), now) <==>
      Journaled(sessions[k].texts.id, file) && !Shadowed(sessions, k, now)
  {
    Journal.LeadingIsAll(file);
    hide Journal.LeadingIds, Journal.Parse, IdBytes, Alive;
    var ids := Journal.LeadingIds(file);
    if Dropped(sessions, k, ids, now) {
      var j :| 0 <= j < |ids| && FirstNamed(sessions, IdBytes(ids[j]), now, 0) == Some(k);
      assert ids[j] in Journal.IdSet(file);
      assert !Shadowed(sessions, k, now);
    }
    if Journaled(sessions[k].texts.id, file) && !Shadowed(sessions, k, now) {
      var id :| id in Journal.IdSet(file) && sessions[k].texts.id == IdBytes(id) + [0];
      var j :| 0 <= j < |ids| && ids[j] == id;
      assert Named(sessions[k], IdBytes(id), now);
      assert FirstNamed(sessions, IdBytes(id), now, 0) == Some(k);
    }
  }

  /** The replay over any table: a session still holds its POST exactly when it held one, the
      journal was readable and whole, and it is not both named in the journal and the first
      living session with its id. Sessions that keep their POST are not touched at all. */
  lemma ReplayExact(t: Table, file: string, readError: bool, now: nat, k: nat)
    requires k < |t.sessions|
    ensures var s, u := t.sessions[k], ReplayFile(t, file, readError, now).sessions[k];
      && (HoldsPost(u, now) <==>
            HoldsPost(s, now) && !readError && Journal.WellFormed(file)
            && (Journaled(s.texts.id, file) ==> Shadowed(t.sessions, k, now)))
      && (HoldsPost(u, now) ==> u == s)
  {
    hide Emptied, Stale, Journaled, Shadowed, Dropped, Journal.WellFormed;
    var v := ReplayAll(t, Journal.LeadingIds(file), now);
    ReplayAllCame(t, Journal.LeadingIds(file), now);
    assert Came(t.sessions[k], v.sessions[k], Dropped(t.sessions, k, Journal.LeadingIds(file), now), now);
    if readError || !Journal.WellFormed(file) {
      BadFileLeavesNone(t, file, readError, now, k);
    } else {
      assert ReplayFile(t, file, readError, now) == v;
      if HoldsPost(t.sessions[k], now) {
        DroppedWhen(t.sessions, k, file, now);
        EmptiedHoldsNone(t.sessions[k], now);
      }
    }
  }

  lemma EmptiedHoldsNone(s: Session, now: nat)
    ensures !HoldsPost(Emptied(s), now)
  {
  }

  // ----- what every replay keeps -----

  lemma ReplayOneKeeps(caps: Caps, t: Table, id: Id, now: nat)
    requires Inv(caps, t)
    ensures var u := ReplayOne(t, id, now); Inv(caps, u) && Trims(t.heap, u.heap)
  {
    hide Inv, Release;
    var (u, at) := FindFrom(t, IdBytes(id), now, 0);
    FindFromKeeps(caps, t, IdBytes(id), now, 0);
    FindFromTrims(t, IdBytes(id), now, 0);
    if at.Some? {
      ReleaseKeeps(caps, u, at.value);
      ReleaseTrims(u, at.value);
    }
  }

  lemma {:induction false} ReplayAllKeeps(caps: Caps, t: Table, ids: seq<Id>, now: nat)
    requires Inv(caps, t)
    ensures var u := ReplayAll(t, ids, now); Inv(caps, u) && Trims(t.heap, u.heap)
    decreases |ids|
  {
    hide Inv, ReplayOne;
    if ids != [] {
      var n := |ids| - 1;
      ReplayAllKeeps(caps, t, ids[..n], now);
      ReplayOneKeeps(caps, ReplayAll(t, ids[..n], now), ids[n], now);
    }
  }

  /** The replay keeps the accounting and the pins exact, and the content of what it keeps. */
  lemma ReplayKeeps(caps: Caps, t: Table, file: string, readError: bool, now: nat)
    requires Inv(caps, t)
    ensures var u := ReplayFile(t, file, readError, now); Inv(caps, u) && Trims(t.heap, u.heap)
  {
    hide Inv, ReplayAll, DiscardSaved;
    var u := ReplayAll(t, Journal.LeadingIds(file), now);
    ReplayAllKeeps(caps, t, Journal.LeadingIds(file), now);
    DiscardSavedKeeps(caps, u, |u.sessions|);
    DiscardSavedTrims(u, |u.sessions|);
  }

  // ankah_session_restore, from the image it chose on.
  function Restored(image: Image, primaryHost: Bytes, now: nat, file: string, readError: bool): (t: Table)
    requires |image.items| <= CAPACITY
    ensures |t.sessions| == CAPACITY
  {
    ReplayFile(Load(image.items, image.version, primaryHost, now), file, readError, now)
  }

  // ----- which of the two files -----

  // What came of reading one snapshot file.
  datatype Reading = Missing | Failed | Read(data: Bytes)

  function ImageOf(f: Reading, sha: Bytes -> Digest): (r: Option<Image>)
    ensures r.Some? ==> |r.value.items| <= CAPACITY
  {
    if f.Read? then ValidImage(f.data, sha) else None
  }

  // The valid image of the greatest generation, the first one on a tie.
  predicate Newest(files: seq<Reading>, sha: Bytes -> Digest, n: nat) {
    && n < |files| && ImageOf(files[n], sha).Some?
    && forall m :: 0 <= m < |files| && ImageOf(files[m], sha).Some? ==>
         && ImageOf(files[m], sha).value.generation <= ImageOf(files[n], sha).value.generation
         && (m < n ==> ImageOf(files[m], sha).value.generation < ImageOf(files[n], sha).value.generation)
  }

  predicate Unreadable(files: seq<Reading>, sha: Bytes -> Digest) {
    forall n :: 0 <= n < |files| ==> ImageOf(files[n], sha).None?
  }

  lemma NewestExists(files: seq<Reading>, sha: Bytes -> Digest)
    requires |files| == 2 && !Unreadable(files, sha)
    ensures exists n: nat :: Newest(files, sha, n)
  {
    hide ImageOf;
    assert Newest(files, sha, 0) || Newest(files, sha, 1);
  }

  /** Whatever image recovery accepts and whatever the journal holds, the new process starts
      with exact accounting and pins. */
  lemma RestoredKeeps(data: Bytes, sha: Bytes -> Digest, primaryHost: Bytes, now: nat, file: string, readError: bool)
    requires ValidImage(data, sha).Some?
    ensures Inv(RESTORED_CAPS, Restored(ValidImage(data, sha).value, primaryHost, now, file, readError))
  {
    hide Inv, ValidImage, Load, ReplayFile;
    var image := ValidImage(data, sha).value;
    AcceptedImageLoads(data, sha, primaryHost, now);
    ReplayKeeps(RESTORED_CAPS, Load(image.items, image.version, primaryHost, now), file, readError, now);
  }

  /** In every run after any restart the pending bytes are exactly the saved bodies and
      requests, and a payload exists exactly while its owner or an outside holder has it. */
  lemma AfterRestart(data: Bytes, sha: Bytes -> Digest, primaryHost: Bytes, now: nat, file: string, readError: bool,
                     events: seq<Event>, u: Table, p: nat)
    requires ValidImage(data, sha).Some?
    requires Runs(Restored(ValidImage(data, sha).value, primaryHost, now, file, readError), events, u)
    ensures u.pending == CostSum(u.sessions, u.heap) <= PENDING_BYTES
    ensures p in u.heap <==> (p in u.pinned || exists i :: 0 <= i < |u.sessions| && u.sessions[i].saved == Some(p))
  {
    hide ValidImage, Restored;
    RestoredKeeps(data, sha, primaryHost, now, file, readError);
    RunKeeps(RESTORED_CAPS, Restored(ValidImage(data, sha).value, primaryHost, now, file, readError), events, u);
    HeldExactly(RESTORED_CAPS, u, p);
  }

  // ----- which POSTs come back -----

  predicate ItemAlive(item: Item, now: nat) {
    !StaleRecord(item.record, now)
  }

  // The record has a POST that has not expired.
  predicate ItemHolds(item: Item, now: nat) {
    var r := item.record;
    ItemAlive(item, now) && r.hasPayload == 1 && !(r.solvedUntil != 0 && now > r.bodyUntil)
  }

  // An earlier record that has not expired has the same id.
  predicate ItemShadowed(items: seq<Item>, k: nat, now: nat)
    requires k < |items|
  {
    exists i :: 0 <= i < k && ItemAlive(items[i], now) && items[i].record.texts.id == items[k].record.texts.id
  }

  lemma LoadedItem(items: seq<Item>, version: nat, primaryHost: Bytes, now: nat, k: nat)
    requires |items| <= CAPACITY && k < |items|
    ensures var s := Load(items, version, primaryHost, now).sessions[k];
      && (HoldsPost(s, now) <==> ItemHolds(items[k], now)) && (Alive(s, now) <==> ItemAlive(items[k], now))
      && (Alive(s, now) ==> s.texts.id == items[k].record.texts.id)
  {
    LoadPlaces(items, version, primaryHost, now);
    hide Load, Blank;
    BlankIsInactive();
    assert LoadedAt(Load(items, version, primaryHost, now), items[k], version, primaryHost, now, k);
  }

  lemma LoadedBeyond(items: seq<Item>, version: nat, primaryHost: Bytes, now: nat, k: nat)
    requires |items| <= k < CAPACITY
    ensures Load(items, version, primaryHost, now).sessions[k] == Blank()
  {
    hide Load, Blank;
    LoadPlaces(items, version, primaryHost, now);
  }

  lemma LoadedShadow(items: seq<Item>, version: nat, primaryHost: Bytes, now: nat, k: nat)
    requires |items| <= CAPACITY && k < |items| && ItemAlive(items[k], now)
    ensures Shadowed(Load(items, version, primaryHost, now).sessions, k, now) <==> ItemShadowed(items, k, now)
  {
    hide Load, Alive, ItemAlive, HoldsPost, ItemHolds;
    var t := Load(items, version, primaryHost, now);
    forall i | 0 <= i <= k
      ensures (Alive(t.sessions[i], now) <==> ItemAlive(items[i], now))
      ensures Alive(t.sessions[i], now) ==> t.sessions[i].texts.id == items[i].record.texts.id
    {
      LoadedItem(items, version, primaryHost, now, i);
    }
  }

  /** For every image and every journal: the POST of record k comes back exactly when it has
      not expired, the journal is readable and whole, and the journal does not name it; or it
      does, but an earlier living record has the same id, so that find stops there. */
  lemma RestoredPosts(image: Image, primaryHost: Bytes, now: nat, file: string, readError: bool, k: nat)
    requires |image.items| <= CAPACITY && k < CAPACITY
    ensures var s := Restored(image, primaryHost, now, file, readError).sessions[k];
      HoldsPost(s, now) <==>
        && k < |image.items| && ItemHolds(image.items[k], now) && !readError && Journal.WellFormed(file)
        && (Journaled(image.items[k].record.texts.id, file) ==> ItemShadowed(image.items, k, now))
  {
    hide Load, ReplayFile, Alive, HoldsPost, ItemHolds, Journaled, Shadowed, ItemShadowed, Journal.WellFormed;
    var t := Load(image.items, image.version, primaryHost, now);
    ReplayExact(t, file, readError, now, k);
    if k < |image.items| {
      LoadedItem(image.items, image.version, primaryHost, now, k);
      HoldersLive(t.sessions[k], image.items[k], now);
      if ItemHolds(image.items[k], now) {
        LoadedShadow(image.items, image.version, primaryHost, now, k);
      }
    } else {
      LoadedBeyond(image.items, image.version, primaryHost, now, k);
      BlankHoldsNone(now);
    }
  }

  lemma HoldersLive(s: Session, item: Item, now: nat)
    ensures HoldsPost(s, now) ==> Alive(s, now)
    ensures ItemHolds(item, now) ==> ItemAlive(item, now)
  {
  }

  lemma BlankHoldsNone(now: nat)
    ensures !HoldsPost(Blank(), now)
  {
    hide Blank;
    BlankIsInactive();
  }

  // ----- when the journal is obeyed -----

  predicate KeepsOut(image: Image, primaryHost: Bytes, now: nat, file: string, k: nat)
    requires |image.items| <= CAPACITY
  {
    k < |image.items| && Journaled(image.items[k].record.texts.id, file) ==>
      !HoldsPost(Restored(image, primaryHost, now, file, false).sessions[k], now)
  }

  predicate Unambiguous(image: Image, now: nat, k: nat) {
    k < |image.items| && ItemHolds(image.items[k], now) && HexId(image.items[k].record.texts.id) ==>
      !ItemShadowed(image.items, k, now)
  }

  /** The exact condition on an image: every journal keeps out every POST it names if and only
      if no unexpired POST record with a well-formed id has an earlier living namesake. */
  lemma JournalIsObeyed(image: Image, primaryHost: Bytes, now: nat)
    requires |image.items| <= CAPACITY
    ensures (forall file: string, k: nat :: KeepsOut(image, primaryHost, now, file, k)) <==>
      (forall k: nat :: Unambiguous(image, now, k))
  {
    hide KeepsOut, Unambiguous;
    if forall k: nat :: Unambiguous(image, now, k) {
      forall file: string, k: nat
        ensures KeepsOut(image, primaryHost, now, file, k)
      {
        UnambiguousKeepsOut(image, primaryHost, now, file, k);
      }
    }
    if forall file: string, k: nat :: KeepsOut(image, primaryHost, now, file, k) {
      forall k: nat
        ensures Unambiguous(image, now, k)
      {
        ShadowedComesBack(image, primaryHost, now, k);
      }
    }
  }

  lemma UnambiguousKeepsOut(image: Image, primaryHost: Bytes, now: nat, file: string, k: nat)
    requires |image.items| <= CAPACITY && Unambiguous(image, now, k)
    ensures KeepsOut(image, primaryHost, now, file, k)
  {
    hide Restored, HoldsPost, ItemHolds, ItemShadowed, HexId, Journal.WellFormed;
    if k < |image.items| {
      RestoredPosts(image, primaryHost, now, file, false, k);
      JournaledIsHex(image.items[k].record.texts.id, file);
    }
  }

  lemma JournaledIsHex(b: Bytes, file: string)
    ensures Journaled(b, file) ==> HexId(b)
  {
    if id :| id in Journal.IdSet(file) && b == IdBytes(id) + [0] {
      IdSpelling(b, id);
    }
  }

  // A shadowed POST survives the journal that names it and nothing else.
  lemma ShadowedComesBack(image: Image, primaryHost: Bytes, now: nat, k: nat)
    requires |image.items| <= CAPACITY
    requires forall file: string :: KeepsOut(image, primaryHost, now, file, k)
    ensures Unambiguous(image, now, k)
  {
    hide Restored, HoldsPost, ItemHolds, ItemShadowed, HexId, Journal.WellFormed;
    if k < |image.items| && HexId(image.items[k].record.texts.id) {
      var b := image.items[k].record.texts.id;
      var file := Journal.Record(IdText(b));
      OneRecord(b);
      assert KeepsOut(image, primaryHost, now, file, k);
      RestoredPosts(image, primaryHost, now, file, false, k);
    }
  }

  lemma OneRecord(b: Bytes)
    requires HexId(b)
    ensures Journal.WellFormed(Journal.Record(IdText(b))) && Journaled(b, Journal.Record(IdText(b)))
  {
    hide Journal.Record, IdBytes, IdText;
    var id := IdText(b);
    IdSpelling(b, id);
    Journal.ParseOne(id);
    assert id in Journal.IdSet(Journal.Record(id));
  }

  // ----- a concrete image that breaks the rule -----

  const SAMPLE_ID: Id := "00000000000000000000000000000000"

  // A solved-in-time record with an empty POST.
  function Sample(): Item {
    var texts := Texts(IdBytes(SAMPLE_ID) + [0], Zeros(33), Zeros(160),
                       [47] + Zeros(2047), Zeros(64), [97] + Zeros(255));
    Item(Record(texts, 0, 0, 0, 1, 0, 1, 0, 0), Zeros(REQUEST_SIZE), [])
  }

  lemma SampleProper()
    ensures Proper(Sample()) && ItemHolds(Sample(), 0) && Sample().record.texts.id == IdBytes(SAMPLE_ID) + [0]
    ensures Weight(Sample().record) == REQUEST_SIZE
  {
    var t := Sample().record.texts;
    assert t.id[32] == 0 && t.token[32] == 0;
    assert t.challenge[0] == 0 && t.target[1] == 0 && t.peer[0] == 0 && t.host[1] == 0;
  }

  function Samples(): Image {
    Image(1, VERSION, [Sample(), Sample()])
  }

  lemma SamplesAccepted(sha: Bytes -> Digest)
    ensures ValidImage(Sealed(Body(Samples().items, 1), sha), sha) == Some(Samples())
  {
    SampleProper();
    hide Sample, Proper, ValidImage, Body;
    SampleSizes(Samples().items);
    WrittenAccepted(Samples().items, 1, sha);
  }

  lemma SecondComesBack(primaryHost: Bytes, file: string)
    requires Journal.WellFormed(file)
    ensures HoldsPost(Restored(Samples(), primaryHost, 0, file, false).sessions[1], 0)
  {
    SampleProper();
    hide Sample, Proper, Restored, HoldsPost, Journal.WellFormed, ItemHolds;
    var image := Samples();
    HoldersLive(Blank(), image.items[0], 0);
    assert ItemAlive(image.items[0], 0) && image.items[0].record.texts.id == image.items[1].record.texts.id;
    assert ItemShadowed(image.items, 1, 0);
    RestoredPosts(image, primaryHost, 0, file, false, 1);
  }

  /** Two records with one id are accepted, and the second POST comes back although the
      journal names it. */
  lemma DuplicateComesBack(primaryHost: Bytes, sha: Bytes -> Digest)
    ensures ValidImage(Sealed(Body(Samples().items, 1), sha), sha) == Some(Samples())
    ensures Journaled(Samples().items[1].record.texts.id, Journal.Record(SAMPLE_ID))
    ensures HoldsPost(Restored(Samples(), primaryHost, 0, Journal.Record(SAMPLE_ID), false).sessions[1], 0)
  {
    SampleProper();
    hide Sample, Restored, HoldsPost, Journal.WellFormed, ValidImage, Body, Journaled, HexId;
    SamplesAccepted(sha);
    IdSpelling(Sample().record.texts.id, SAMPLE_ID);
    OneRecord(Sample().record.texts.id);
    SecondComesBack(primaryHost, Journal.Record(SAMPLE_ID));
  }

  lemma SampleSizes(items: seq<Item>)
    requires |items| == 2 && Proper(items[0]) && Proper(items[1])
    requires Weight(items[0].record) == Weight(items[1].record) == REQUEST_SIZE
    ensures TotalWeight(items) == 2 * REQUEST_SIZE && |ItemsBytes(items)| == RECORD * 2 + 2 * REQUEST_SIZE
    ensures HEADER + |ItemsBytes(items)| + 32 < Limit(8)
  {
    hide Proper, Weight, ItemBytes;
    BytesBySize(items);
    var rest := items[1..];
    assert rest[0] == items[1] && rest[1..] == [];
    assert TotalWeight(rest) == Weight(rest[0].record) + TotalWeight(rest[1..]);
  }
}
