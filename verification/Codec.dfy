/** The binary statistics snapshot: its encoder, its decoder with the consistency
    check, and the round trip between them. The digest is any 32-byte function. */
module Codec {
  import opened Options
  import opened Bytes
  import opened LittleEndian
  import opened Records
  import opened History

  // get_record: a record of an older version has fewer fields; the others are zero.
  function GetRecord(s: Bytes, n: nat): Record
    requires |s| == 8 * n && n <= FIELDS
  {
    GetManyFits(8, n, s);
    GetMany(8, s) + seq(FIELDS - n, _ => 0)
  }

  function PutRows(rows: seq<Record>): Bytes {
    if rows == [] then [] else PutMany(8, rows[0]) + PutRows(rows[1..])
  }

  function GetRows(s: Bytes, count: nat, n: nat): (rows: seq<Record>)
    requires n <= FIELDS && |s| == 8 * n * count
    ensures |rows| == count
    decreases count
  {
    if count == 0 then []
    else
      assert 8 * n * count == 8 * n + 8 * n * (count - 1);
      [GetRecord(s[..8 * n], n)] + GetRows(s[8 * n..], count - 1, n)
  }

  lemma GetPutRecord(r: Record)
    ensures |PutMany(8, r)| == 8 * FIELDS && GetRecord(PutMany(8, r), FIELDS) == r
  {
    GetPutMany(8, r);
    var s: Bytes := PutMany(8, r);
    assert GetRecord(s, FIELDS) == GetMany(8, s) + [];
  }

  lemma GetRowsStep(head: Bytes, rest: Bytes, count: nat, n: nat)
    requires n <= FIELDS && |head| == 8 * n && |rest| == 8 * n * count
    ensures |head + rest| == 8 * n * (count + 1)
    ensures GetRows(head + rest, count + 1, n) == [GetRecord(head, n)] + GetRows(rest, count, n)
  {
    assert 8 * n * (count + 1) == 8 * n + 8 * n * count;
    assert (head + rest)[..8 * n] == head && (head + rest)[8 * n..] == rest;
  }

  lemma {:induction false} GetPutRows(rows: seq<Record>)
    ensures |PutRows(rows)| == 8 * FIELDS * |rows|
    ensures GetRows(PutRows(rows), |rows|, FIELDS) == rows
  {
    if rows != [] {
      var head, tail := rows[0], rows[1..];
      GetPutRecord(head);
      GetPutRows(tail);
      GetRowsStep(PutMany(8, head), PutRows(tail), |tail|, FIELDS);
      assert rows == [head] + tail;
    }
  }

  // ----- the image -----

  const HEADER := 80
  const DIGEST := 32
  const VERSION := 3
  const MAGIC: Bytes := [0x41, 0x4E, 0x4B, 0x48, 0x53, 0x54, 0x41, 0x54]

  datatype Ints = Ints(shape: seq<nat>, clock: seq<nat>, counts: seq<nat>)

  // The header's integers: the format's shape, the clock of the history, the ring counts.
  function WrittenInts(v: View, generation: nat, wall: nat): Ints {
    Ints([VERSION, FIELDS, HOURS, DAYS],
         [generation, wall, v.epoch, v.hourIndex, v.dayIndex, v.evictedDays],
         [|v.hours|, |v.days|])
  }

  function Header(h: Ints): Bytes {
    MAGIC + PutMany(4, h.shape) + PutMany(8, h.clock) + PutMany(4, h.counts)
  }

  // The records of an image in order: four summaries, then both rings oldest first.
  function ImageRows(v: View): seq<Record> {
    [v.cumulative, v.hour, v.day, v.evicted] + v.hours + v.days
  }

  function Sealed(body: Bytes, sha: Bytes -> Digest): Bytes {
    body + sha(body)
  }

  // encode_snapshot
  function Encode(v: View, generation: nat, wall: nat, sha: Bytes -> Digest): Bytes {
    Sealed(Header(WrittenInts(v, generation, wall)) + PutRows(ImageRows(v)), sha)
  }

  // totals_valid
  predicate TotalsValid(v: View) {
    && v.epoch / 3600 <= v.hourIndex && v.epoch / 86400 <= v.dayIndex
    && |v.hours| == Min(v.hourIndex - v.epoch / 3600, HOURS)
    && v.evictedDays <= v.dayIndex - v.epoch / 86400
    && |v.days| == v.dayIndex - v.epoch / 86400 - v.evictedDays
    && Total([v.evicted, v.day] + v.days) == v.cumulative
  }

  datatype Decoded = Decoded(view: View, generation: nat)

  predicate KnownVersion(version: nat, fields: nat) {
    (version == 1 && fields == 32) || (version == 2 && fields == 40) || (version == VERSION && fields == FIELDS)
  }

  // The integers of a header as they are read back.
  function HeaderInts(data: Bytes): (h: Ints)
    requires |data| >= HEADER
    ensures |h.shape| == 4 && |h.clock| == 6 && |h.counts| == 2
  {
    GetManyFits(4, 4, data[8..24]);
    GetManyFits(8, 6, data[24..72]);
    GetManyFits(4, 2, data[72..80]);
    Ints(GetMany(4, data[8..24]), GetMany(8, data[24..72]), GetMany(4, data[72..80]))
  }

  predicate HeaderAccepted(h: Ints, size: nat)
    requires |h.shape| == 4 && |h.clock| == 6 && |h.counts| == 2
  {
    && KnownVersion(h.shape[0], h.shape[1]) && h.shape[2] == HOURS && h.shape[3] == DAYS
    && h.clock[0] != 0 && h.counts[0] <= HOURS && h.counts[1] <= DAYS
    && size == HEADER + 8 * h.shape[1] * (4 + h.counts[0] + h.counts[1]) + DIGEST
  }

  function DecodedView(clock: seq<nat>, hours: nat, rows: seq<Record>): View
    requires |clock| == 6 && |rows| >= 4 + hours
  {
    View(clock[2], clock[3], clock[4], clock[5], rows[0], rows[1], rows[2], rows[3],
         rows[4..4 + hours], rows[4 + hours..])
  }

  function DecodeBody(data: Bytes, h: Ints): View
    requires |h.shape| == 4 && |h.clock| == 6 && |h.counts| == 2 && HeaderAccepted(h, |data|)
  {
    DecodedView(h.clock, h.counts[0],
                GetRows(data[HEADER..|data| - DIGEST], 4 + h.counts[0] + h.counts[1], h.shape[1]))
  }

  // decode_snapshot
  function Decode(data: Bytes, sha: Bytes -> Digest): Option<Decoded> {
    if |data| < HEADER + DIGEST || data[..8] != MAGIC then None
    else
      var h := HeaderInts(data);
      if !HeaderAccepted(h, |data|) then None
      else if sha(data[..|data| - DIGEST]) != data[|data| - DIGEST..] then None
      else
        var v := DecodeBody(data, h);
        if TotalsValid(v) then Some(Decoded(v, h.clock[0])) else None
  }

  // ----- the round trip -----

  predicate Encodable(v: View, generation: nat, wall: nat) {
    && 0 < generation < U64 && wall < U64 && v.epoch < U64 && v.hourIndex < U64 && v.dayIndex < U64
    && v.evictedDays < U64 && |v.hours| <= HOURS && |v.days| <= DAYS
  }

  // Integers a header can hold.
  predicate Fits(h: Ints) {
    && |h.shape| == 4 && |h.clock| == 6 && |h.counts| == 2
    && (forall i :: 0 <= i < 4 ==> h.shape[i] < Limit(4))
    && (forall i :: 0 <= i < 6 ==> h.clock[i] < Limit(8))
    && (forall i :: 0 <= i < 2 ==> h.counts[i] < Limit(4))
  }

  lemma HeaderRoundTrip(h: Ints, data: Bytes)
    requires Fits(h) && Header(h) <= data
    ensures |Header(h)| == HEADER && |data| >= HEADER && data[..8] == MAGIC
    ensures HeaderInts(data) == h
  {
    GetPutMany(4, h.shape);
    GetPutMany(8, h.clock);
    GetPutMany(4, h.counts);
    HeaderSlices(PutMany(4, h.shape), PutMany(8, h.clock), PutMany(4, h.counts), data);
  }

  lemma HeaderSlices(a: Bytes, b: Bytes, c: Bytes, data: Bytes)
    requires |a| == 16 && |b| == 48 && |c| == 8 && MAGIC + a + b + c <= data
    ensures |data| >= HEADER && data[..8] == MAGIC
    ensures data[8..24] == a && data[24..72] == b && data[72..80] == c
  {
    var header := MAGIC + a + b + c;
    assert data[..HEADER] == header;
    assert header[..8] == MAGIC && header[8..24] == a && header[24..72] == b && header[72..80] == c;
  }

  lemma Slices(header: Bytes, rows: Bytes, sha: Bytes -> Digest)
    ensures var data := Sealed(header + rows, sha);
      && |data| == |header| + |rows| + DIGEST && header <= data
      && data[|header|..|data| - DIGEST] == rows
      && sha(data[..|data| - DIGEST]) == data[|data| - DIGEST..]
  {
    var data := Sealed(header + rows, sha);
    assert data[..|data| - DIGEST] == header + rows;
  }

  lemma DecodeAccepts(data: Bytes, sha: Bytes -> Digest, h: Ints)
    requires |data| >= HEADER + DIGEST && data[..8] == MAGIC && HeaderInts(data) == h
    requires HeaderAccepted(h, |data|) && sha(data[..|data| - DIGEST]) == data[|data| - DIGEST..]
    requires TotalsValid(DecodeBody(data, h))
    ensures Decode(data, sha) == Some(Decoded(DecodeBody(data, h), h.clock[0]))
  {
  }

  // Whatever fits in the header and is followed by its rows is read back.
  lemma SealedDecodes(h: Ints, rows: seq<Record>, sha: Bytes -> Digest)
    requires Fits(h) && h.shape[1] == FIELDS && |rows| == 4 + h.counts[0] + h.counts[1]
    requires HeaderAccepted(h, HEADER + 8 * FIELDS * |rows| + DIGEST)
    requires TotalsValid(DecodedView(h.clock, h.counts[0], rows))
    ensures Decode(Sealed(Header(h) + PutRows(rows), sha), sha)
      == Some(Decoded(DecodedView(h.clock, h.counts[0], rows), h.clock[0]))
  {
    var data := Sealed(Header(h) + PutRows(rows), sha);
    Slices(Header(h), PutRows(rows), sha);
    HeaderRoundTrip(h, data);
    GetPutRows(rows);
    BodyDecodes(h, rows, data);
    DecodeAccepts(data, sha, h);
  }

  lemma BodyDecodes(h: Ints, rows: seq<Record>, data: Bytes)
    requires |h.shape| == 4 && |h.clock| == 6 && |h.counts| == 2 && HeaderAccepted(h, |data|)
    requires h.shape[1] == FIELDS && |rows| == 4 + h.counts[0] + h.counts[1]
    requires data[HEADER..|data| - DIGEST] == PutRows(rows)
    ensures DecodeBody(data, h) == DecodedView(h.clock, h.counts[0], rows)
  {
    GetPutRows(rows);
  }

  lemma WrittenFits(v: View, generation: nat, wall: nat)
    requires Encodable(v, generation, wall)
    ensures var h := WrittenInts(v, generation, wall);
      Fits(h) && HeaderAccepted(h, HEADER + 8 * FIELDS * (4 + |v.hours| + |v.days|) + DIGEST)
  {
  }

  lemma DecodedIsWritten(v: View, generation: nat, wall: nat)
    ensures DecodedView(WrittenInts(v, generation, wall).clock, |v.hours|, ImageRows(v)) == v
  {
    var rows := ImageRows(v);
    assert rows[4..4 + |v.hours|] == v.hours && rows[4 + |v.hours|..] == v.days;
  }

  /** A valid history survives encoding and decoding exactly. */
  lemma RoundTrip(v: View, generation: nat, wall: nat, sha: Bytes -> Digest)
    requires Encodable(v, generation, wall) && TotalsValid(v)
    ensures Decode(Encode(v, generation, wall, sha), sha) == Some(Decoded(v, generation))
  {
    WrittenFits(v, generation, wall);
    DecodedIsWritten(v, generation, wall);
    SealedDecodes(WrittenInts(v, generation, wall), ImageRows(v), sha);
  }

  // ----- reachable histories are valid -----

  // The log by its evicted days, its listed days and its current day.
  lemma LogByDays(log: Log, e: nat, first: nat, d: nat)
    requires first <= d && e + |log| <= 24 * d + 24
    ensures Total(log) ==
      Merge(Merge(Range(log, e, 0, 24 * first), Total(DayRanges(log, e, first, d - first))), DayRange(log, e, d))
  {
    DayRangesTotal(log, e, first, d - first);
    RangeSplit(log, e, 0, 24 * first, 24 * d);
    RangeSplit(log, e, 0, 24 * d, 24 * d + 24);
    assert Stretch(log, e, 0, 24 * d + 24) == log;
  }

  lemma DayLast(evicted: Record, day: Record, days: seq<Record>)
    ensures Total([evicted, day] + days) == Merge(Merge(evicted, Total(days)), day)
  {
    PairTotal(evicted, day, days);
    MergeAssociative(evicted, day, Total(days));
    MergeCommutes(day, Total(days));
    MergeAssociative(evicted, Total(days), day);
  }

  lemma ReflectTotals(epoch: nat, log: Log)
    ensures var v := Reflect(epoch, log); Total([v.evicted, v.day] + v.days) == v.cumulative
  {
    var v, e := Reflect(epoch, log), epoch / 3600;
    ReflectParts(epoch, log);
    hide Total, Merge, Range, DayRange;
    LogByDays(log, e, FirstDay(e, v.dayIndex), v.dayIndex);
    DayLast(v.evicted, v.day, v.days);
  }

  lemma PairTotal(a: Record, b: Record, rows: seq<Record>)
    ensures Total([a, b] + rows) == Merge(Merge(a, b), Total(rows))
  {
    TotalConcat([a, b], rows);
    assert [a, b] == [a] + [b] && [a] == [] + [a];
    TotalSnoc([a], b);
    TotalSnoc([], a);
    MergeZero(a);
  }

  /** Every history the program can reach passes the decoder's consistency check. */
  lemma ReflectValid(epoch: nat, log: Log)
    ensures TotalsValid(Reflect(epoch, log))
  {
    ReflectTotals(epoch, log);
    assert epoch / 86400 == epoch / 3600 / 24;
  }

  /** So every snapshot taken of any history, on any clock, is accepted by recovery and
      brings back the same rings and totals; rolling it forward afterwards continues as
      if the process had never stopped. */
  lemma AnySnapshotRestores(epoch: nat, ops: seq<Op>, generation: nat, wall: nat, sha: Bytes -> Digest)
    requires forall i :: 0 <= i < |ops| ==> ProperOp(ops[i])
    requires 0 < generation < U64 && wall < U64 && epoch < U64
    requires Performed(Init(epoch), ops).hourIndex < U64
    ensures var v := Performed(Init(epoch), ops);
      Decode(Encode(v, generation, wall, sha), sha) == Some(Decoded(v, generation))
  {
    HistoryReflects(epoch, ops);
    ReflectRoundTrip(epoch, LogOf(epoch, ops), generation, wall, sha);
  }

  lemma ReflectRoundTrip(epoch: nat, log: Log, generation: nat, wall: nat, sha: Bytes -> Digest)
    requires 0 < generation < U64 && wall < U64 && epoch < U64 && HourNow(epoch, log) < U64
    ensures var v := Reflect(epoch, log); Decode(Encode(v, generation, wall, sha), sha) == Some(Decoded(v, generation))
  {
    ReflectValid(epoch, log);
    RoundTrip(Reflect(epoch, log), generation, wall, sha);
  }
}
