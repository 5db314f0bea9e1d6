/** The session snapshot file: fixed-size records, each followed by its saved POST, under
    a header and a digest; how recovery validates it and what it loads from it. */
module SessionImage {
  import opened Options
  import opened Bytes
  import opened LittleEndian
  import opened Sessions

  const HEADER := 40
  const RECORD := 2648
  const RECORD_V1 := 2392
  const VERSION := 2
  const MAGIC: Bytes := [0x41, 0x4E, 0x4B, 0x48, 0x53, 0x45, 0x53, 0x53]

  // A record as it lies in the file; the flags are read back as integers.
  datatype Record = Record(
    texts: Texts, issued: nat, solvedUntil: nat, bodyUntil: nat,
    isPost: nat, proved: nat, hasPayload: nat, size: nat, received: nat)

  // A record and the saved POST after it.
  datatype Item = Item(record: Record, request: Bytes, body: Bytes)

  // ----- one record -----

  predicate SizedTexts(t: Texts) {
    |t.id| == 33 && |t.token| == 33 && |t.challenge| == 160 && |t.target| == 2048 && |t.peer| == 64 && |t.host| == 256
  }

  function TextBytes(t: Texts): Bytes {
    t.id + t.token + t.challenge + t.target + t.peer
  }

  function Times(r: Record): seq<nat> {
    [r.issued, r.solvedUntil, r.bodyUntil]
  }

  function Flags(r: Record): seq<nat> {
    [r.isPost, r.proved, r.hasPayload, r.size, r.received]
  }

  // Texts, three times, five flags and sizes, and the host, with the gaps that align them.
  function PutRecord(r: Record): Bytes {
    TextBytes(r.texts) + Zeros(6) + PutMany(8, Times(r)) + PutMany(4, Flags(r)) + r.texts.host + Zeros(4)
  }

  function GetTexts(b: Bytes): Texts
    requires |b| == RECORD
  {
    Texts(b[..33], b[33..66], b[66..226], b[226..2274], b[2274..2338], b[2388..2644])
  }

  function GetRecord(b: Bytes): Record
    requires |b| == RECORD
  {
    GetManyFits(8, 3, b[2344..2368]);
    GetManyFits(4, 5, b[2368..2388]);
    var times, flags := GetMany(8, b[2344..2368]), GetMany(4, b[2368..2388]);
    Record(GetTexts(b), times[0], times[1], times[2], flags[0], flags[1], flags[2], flags[3], flags[4])
  }

  predicate Fits(r: Record) {
    && SizedTexts(r.texts)
    && (forall i :: 0 <= i < 3 ==> Times(r)[i] < Limit(8))
    && (forall i :: 0 <= i < 5 ==> Flags(r)[i] < Limit(4))
  }

  lemma TextSlices(t: Texts, rest: Bytes)
    requires SizedTexts(t)
    ensures |TextBytes(t)| == 2338
    ensures var b := TextBytes(t) + rest;
      b[..33] == t.id && b[33..66] == t.token && b[66..226] == t.challenge && b[226..2274] == t.target
      && b[2274..2338] == t.peer
  {
    var b := TextBytes(t);
    assert b[..33] == t.id && b[33..66] == t.token && b[66..226] == t.challenge;
    assert b[226..2274] == t.target && b[2274..2338] == t.peer;
    FrontSlices(b, rest);
  }

  lemma FrontSlices(b: Bytes, rest: Bytes)
    ensures forall lo, hi :: 0 <= lo <= hi <= |b| ==> (b + rest)[lo..hi] == b[lo..hi]
  {
  }

  lemma NumberSlices(texts: Bytes, times: Bytes, flags: Bytes, host: Bytes)
    requires |texts| == 2338 && |times| == 24 && |flags| == 20 && |host| == 256
    ensures var b := texts + Zeros(6) + times + flags + host + Zeros(4);
      |b| == RECORD && b[2344..2368] == times && b[2368..2388] == flags && b[2388..2644] == host
      && b == texts + (Zeros(6) + times + flags + host + Zeros(4))
  {
  }

  lemma RecordRoundTrip(r: Record)
    requires Fits(r)
    ensures |PutRecord(r)| == RECORD && GetRecord(PutRecord(r)) == r
  {
    GetPutMany(8, Times(r));
    GetPutMany(4, Flags(r));
    var times, flags := PutMany(8, Times(r)), PutMany(4, Flags(r));
    TextSlices(r.texts, Zeros(6) + times + flags + r.texts.host + Zeros(4));
    NumberSlices(TextBytes(r.texts), times, flags, r.texts.host);
  }

  function RecordSize(version: nat): nat {
    if version == 1 then RECORD_V1 else RECORD
  }

  // An older record is shorter; what it lacks is zero.
  function ReadRecord(b: Bytes, version: nat): Record
    requires |b| == RecordSize(version)
  {
    GetRecord(b + Zeros(RECORD - RecordSize(version)))
  }

  // ----- validation -----

  // NUL-terminated text fields.
  predicate Spelled(t: Texts, version: nat) {
    && |t.id| == 33 && t.id[32] == 0 && |t.token| == 33 && t.token[32] == 0
    && 0 in t.challenge && 0 in t.target && 0 in t.peer
    && (version == 2 ==> t.host != [] && t.host[0] != 0 && 0 in t.host)
  }

  predicate ValidRecord(r: Record, version: nat) {
    && Spelled(r.texts, version) && r.size <= REPLAY_MAX && r.received <= r.size
    && r.isPost <= 1 && r.proved <= 1 && r.hasPayload <= 1
  }

  function Extra(r: Record): nat {
    if r.hasPayload == 1 then REQUEST_SIZE + r.received else 0
  }

  function Weight(r: Record): nat {
    if r.hasPayload == 1 then REQUEST_SIZE + r.size else 0
  }

  predicate ValidPayload(r: Record, total: nat) {
    r.hasPayload == 1 ==> r.isPost == 1 && r.received == r.size && total + REQUEST_SIZE + r.size <= PENDING_BYTES
  }

  function ItemOf(r: Record, after: Bytes): Item
    requires Extra(r) <= |after|
  {
    if r.hasPayload == 1 then Item(r, after[..REQUEST_SIZE], after[REQUEST_SIZE..Extra(r)]) else Item(r, [], [])
  }

  // The record loop of valid_image, collecting what it accepts.
  function ParseItems(rest: Bytes, count: nat, version: nat, total: nat): (r: Option<seq<Item>>)
    ensures r.Some? ==> |r.value| == count
    decreases count
  {
    if count == 0 then if rest == [] then Some([]) else None
    else if |rest| < RecordSize(version) then None
    else
      var r, after := ReadRecord(rest[..RecordSize(version)], version), rest[RecordSize(version)..];
      if !ValidRecord(r, version) || Extra(r) > |after| || !ValidPayload(r, total) then None
      else match ParseItems(after[Extra(r)..], count - 1, version, total + Weight(r))
        case None => None
        case Some(items) => Some([ItemOf(r, after)] + items)
  }

  datatype Header = Header(version: nat, requestSize: nat, recordSize: nat, count: nat, generation: nat, size: nat)

  function PutHeader(h: Header): Bytes {
    MAGIC + PutMany(4, [h.version, h.requestSize, h.recordSize, h.count]) + PutMany(8, [h.generation, h.size])
  }

  function GetHeader(data: Bytes): Header
    requires |data| >= HEADER
  {
    GetManyFits(4, 4, data[8..24]);
    GetManyFits(8, 2, data[24..40]);
    var a, b := GetMany(4, data[8..24]), GetMany(8, data[24..40]);
    Header(a[0], a[1], a[2], a[3], b[0], b[1])
  }

  predicate HeaderAccepted(h: Header, size: nat) {
    && (h.version == 1 || h.version == VERSION) && h.requestSize == REQUEST_SIZE
    && h.recordSize == RecordSize(h.version) && h.count <= CAPACITY && h.size == size && h.generation != 0
  }

  datatype Image = Image(generation: nat, version: nat, items: seq<Item>)

  // valid_image
  function ValidImage(data: Bytes, sha: Bytes -> Digest): (r: Option<Image>)
    ensures r.Some? ==> |r.value.items| <= CAPACITY
  {
    if |data| < HEADER + 32 || data[..8] != MAGIC then None
    else
      var h, end := GetHeader(data), |data| - 32;
      if !HeaderAccepted(h, |data|) || sha(data[..end]) != data[end..] then None
      else match ParseItems(data[HEADER..end], h.count, h.version, 0)
        case None => None
        case Some(items) => Some(Image(h.generation, h.version, items))
  }

  // ankah_session_snapshot_saved_ids
  function SavedIds(items: seq<Item>): seq<Bytes> {
    if items == [] then []
    else (if items[0].record.hasPayload == 1 then [items[0].record.texts.id] else []) + SavedIds(items[1..])
  }

  // ----- what is written -----

  function ItemBytes(item: Item): Bytes {
    PutRecord(item.record) + item.request + item.body
  }

  function ItemsBytes(items: seq<Item>): Bytes {
    if items == [] then [] else ItemBytes(items[0]) + ItemsBytes(items[1..])
  }

  function TotalWeight(items: seq<Item>): nat {
    if items == [] then 0 else Weight(items[0].record) + TotalWeight(items[1..])
  }

  // An item that a table can produce.
  predicate Proper(item: Item) {
    var r := item.record;
    && Fits(r) && ValidRecord(r, VERSION)
    && (if r.hasPayload == 1
        then r.isPost == 1 && r.received == r.size && |item.request| == REQUEST_SIZE && |item.body| == r.received
        else item.request == [] && item.body == [])
  }

  lemma ReadPut(r: Record)
    requires Fits(r)
    ensures |PutRecord(r)| == RECORD && ReadRecord(PutRecord(r), VERSION) == r
  {
    RecordRoundTrip(r);
    assert PutRecord(r) + Zeros(0) == PutRecord(r);
  }

  lemma ItemHead(item: Item, rest: Bytes)
    requires |PutRecord(item.record)| == RECORD
    ensures var bytes := ItemBytes(item) + rest;
      |bytes| >= RECORD && bytes[..RECORD] == PutRecord(item.record)
      && bytes[RECORD..] == item.request + item.body + rest
  {
    hide PutRecord;
  }

  lemma ItemTail(item: Item, rest: Bytes)
    requires Proper(item)
    ensures var after := item.request + item.body + rest;
      Extra(item.record) <= |after| && ItemOf(item.record, after) == item && after[Extra(item.record)..] == rest
  {
    hide PutRecord, Fits, ValidRecord;
    var after := item.request + item.body + rest;
    if item.record.hasPayload == 1 {
      assert after[..REQUEST_SIZE] == item.request;
      assert after[REQUEST_SIZE..REQUEST_SIZE + |item.body|] == item.body;
    }
  }

  // One turn of the record loop, over one written item.
  lemma ParseOne(item: Item, rest: Bytes, count: nat, total: nat)
    requires Proper(item) && total + Weight(item.record) <= PENDING_BYTES
    ensures ParseItems(ItemBytes(item) + rest, count + 1, VERSION, total) ==
      match ParseItems(rest, count, VERSION, total + Weight(item.record))
      case None => None
      case Some(items) => Some([item] + items)
  {
    hide PutRecord, ItemBytes, ReadRecord, ItemOf, Fits;
    ReadPut(item.record);
    ItemHead(item, rest);
    ItemTail(item, rest);
  }

  lemma {:induction false} ItemsParse(items: seq<Item>, total: nat)
    requires forall i :: 0 <= i < |items| ==> Proper(items[i])
    requires total + TotalWeight(items) <= PENDING_BYTES
    ensures ParseItems(ItemsBytes(items), |items|, VERSION, total) == Some(items)
    decreases |items|
  {
    hide Proper, ItemBytes, ParseItems;
    if items == [] {
      ParseNone(total);
    } else {
      ParseOne(items[0], ItemsBytes(items[1..]), |items| - 1, total);
      ItemsParse(items[1..], total + Weight(items[0].record));
      HeadTail(items, []);
    }
  }

  lemma ParseNone(total: nat)
    ensures ParseItems([], 0, VERSION, total) == Some([])
  {
  }

  // The whole file for some items.
  function Body(items: seq<Item>, generation: nat): Bytes {
    PutHeader(Header(VERSION, REQUEST_SIZE, RECORD, |items|, generation, HEADER + |ItemsBytes(items)| + 32))
      + ItemsBytes(items)
  }

  function Sealed(body: Bytes, sha: Bytes -> Digest): Bytes {
    body + sha(body)
  }

  predicate HeaderFits(h: Header) {
    && h.version < Limit(4) && h.requestSize < Limit(4) && h.recordSize < Limit(4) && h.count < Limit(4)
    && h.generation < Limit(8) && h.size < Limit(8)
  }

  lemma HeaderRoundTrip(h: Header, rest: Bytes)
    requires HeaderFits(h)
    ensures |PutHeader(h)| == HEADER && (PutHeader(h) + rest)[..8] == MAGIC && GetHeader(PutHeader(h) + rest) == h
  {
    var a, b := [h.version, h.requestSize, h.recordSize, h.count], [h.generation, h.size];
    GetPutMany(4, a);
    GetPutMany(8, b);
    HeaderSlices(PutMany(4, a), PutMany(8, b), rest);
  }

  lemma HeaderSlices(a: Bytes, b: Bytes, rest: Bytes)
    requires |a| == 16 && |b| == 16
    ensures var data := MAGIC + a + b + rest;
      |MAGIC + a + b| == HEADER && data[..8] == MAGIC && data[8..24] == a && data[24..40] == b
  {
  }

  /** Whatever a table can write is accepted by recovery, item for item. */
  lemma WrittenAccepted(items: seq<Item>, generation: nat, sha: Bytes -> Digest)
    requires forall i :: 0 <= i < |items| ==> Proper(items[i])
    requires |items| <= CAPACITY && 0 < generation < Limit(8) && TotalWeight(items) <= PENDING_BYTES
    requires HEADER + |ItemsBytes(items)| + 32 < Limit(8)
    ensures ValidImage(Sealed(Body(items, generation), sha), sha) == Some(Image(generation, VERSION, items))
  {
    hide PutHeader, GetHeader, ItemsBytes, ParseItems, Proper;
    var bytes := ItemsBytes(items);
    var size := HEADER + |bytes| + 32;
    var h := Header(VERSION, REQUEST_SIZE, RECORD, |items|, generation, size);
    var body := PutHeader(h) + bytes;
    HeaderRoundTrip(h, bytes + sha(body));
    SealedSlices(PutHeader(h), bytes, sha);
    ItemsParse(items, 0);
  }

  lemma SealedSlices(header: Bytes, bytes: Bytes, sha: Bytes -> Digest)
    requires |header| == HEADER
    ensures var data := Sealed(header + bytes, sha); var end := |data| - 32;
      && |data| == HEADER + |bytes| + 32 && data == header + (bytes + sha(header + bytes))
      && data[..end] == header + bytes && data[end..] == sha(header + bytes) && data[HEADER..end] == bytes
  {
  }
}
