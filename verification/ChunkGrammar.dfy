/** What the decoder accepts: exactly the chunked grammar of section 7.1 of RFC 9112,
    restated as a structure that is written out, with the decoder's own limits. */
module ChunkGrammar {
  import opened Options
  import opened Bytes
  import opened Chunked

  datatype Chunk = Chunk(line: Bytes, data: Bytes)

  datatype Message = Message(chunks: seq<Chunk>, last: Bytes, trailers: seq<Bytes>)

  predicate Line(s: Bytes) {
    |s| < LINE_LIMIT && CR !in s && LF !in s
  }

  predicate ProperChunk(c: Chunk) {
    Line(c.line) && c.data != [] && SizeOf(c.line) == Some(|c.data|)
  }

  predicate ProperTrailer(line: Bytes) {
    Line(line) && line != [] && GoodTrailer(line)
  }

  function TrailerBytes(trailers: seq<Bytes>): nat {
    if trailers == [] then 0 else |trailers[0]| + TrailerBytes(trailers[1..])
  }

  predicate Proper(m: Message) {
    && (forall i :: 0 <= i < |m.chunks| ==> ProperChunk(m.chunks[i]))
    && Line(m.last) && SizeOf(m.last) == Some(0)
    && (forall i :: 0 <= i < |m.trailers| ==> ProperTrailer(m.trailers[i]))
    && TrailerBytes(m.trailers) <= TRAILER_LIMIT
  }

  function TotalData(chunks: seq<Chunk>): nat {
    if chunks == [] then 0 else |chunks[0].data| + TotalData(chunks[1..])
  }

  function WriteChunk(c: Chunk): Bytes {
    c.line + CRLF + c.data + CRLF
  }

  function WriteChunks(chunks: seq<Chunk>): Bytes {
    if chunks == [] then [] else WriteChunk(chunks[0]) + WriteChunks(chunks[1..])
  }

  function WriteTrailers(trailers: seq<Bytes>): Bytes {
    if trailers == [] then CRLF else trailers[0] + CRLF + WriteTrailers(trailers[1..])
  }

  function Write(m: Message): Bytes {
    WriteChunks(m.chunks) + (m.last + CRLF + WriteTrailers(m.trailers))
  }

  // Between chunks, and between trailer lines.
  function AtSize(decoded: nat): Body {
    Body(Size, 0, decoded, [], 0, false)
  }

  function AtTrailer(decoded: nat, trailerSize: nat): Body {
    Body(Trailer, 0, decoded, [], trailerSize, false)
  }

  predicate Completes(b: Body, bytes: Bytes, max: nat) {
    var v := Run(b, bytes, max); v.More? && v.body.complete
  }

  // ----- everything that is written is accepted -----

  function WithLine(b: Body, s: Bytes): Body {
    b.(line := b.line + s, trailerSize := b.trailerSize + if b.stage == Trailer then |s| else 0)
  }

  predicate InLine(b: Body) {
    !b.complete && (b.stage == Size || b.stage == Trailer)
  }

  lemma {:induction false} RunLine(b: Body, s: Bytes, max: nat)
    requires InLine(b) && Line(b.line + s)
    requires b.stage == Trailer ==> b.trailerSize + |s| <= TRAILER_LIMIT
    ensures Run(b, s, max) == More(WithLine(b, s))
    decreases |s|
  {
    if s == [] {
      assert b.line + s == b.line;
    } else {
      assert s[0] in b.line + s;
      var step := Step(b, s[0], max);
      assert b.line + s == (b.line + [s[0]]) + s[1..];
      assert step == More(WithLine(b, [s[0]]));
      RunLine(step.body, s[1..], max);
    }
  }

  lemma RunCrLf(b: Body, max: nat)
    ensures Run(b, CRLF, max) ==
      match Step(b, CR, max) case Reject(limit) => Reject(limit) case More(next) => Step(next, LF, max)
  {
    assert CRLF[1..] == [LF] && [LF][1..] == [];
  }

  // A line and its end, from an empty line.
  lemma RunWholeLine(b: Body, s: Bytes, rest: Bytes, max: nat)
    requires InLine(b) && b.line == [] && Line(s)
    requires b.stage == Trailer ==> b.trailerSize + |s| <= TRAILER_LIMIT
    ensures var ended := Run(WithLine(b, s), CRLF, max);
      ended.More? ==> Run(b, s + CRLF + rest, max) == Run(ended.body, rest, max)
  {
    assert b.line + s == s;
    RunLine(b, s, max);
    RunConcat(b, s, CRLF, max);
    RunConcat(b, s + CRLF, rest, max);
  }

  lemma RunSize(decoded: nat, line: Bytes, rest: Bytes, max: nat)
    requires Line(line) && SizeOf(line).Some?
    ensures var n := SizeOf(line).value;
      Run(AtSize(decoded), line + CRLF + rest, max) ==
        Run(if n > 0 then AtSize(decoded).(stage := Data, remaining := n) else AtTrailer(decoded, 0), rest, max)
  {
    var b := AtSize(decoded);
    RunWholeLine(b, line, rest, max);
    RunCrLf(WithLine(b, line), max);
    assert [] + line == line;
  }

  lemma RunChunk(decoded: nat, c: Chunk, rest: Bytes, max: nat)
    requires ProperChunk(c) && decoded + |c.data| <= max
    ensures Run(AtSize(decoded), WriteChunk(c) + rest, max) == Run(AtSize(decoded + |c.data|), rest, max)
  {
    var more := c.data + (CRLF + rest);
    assert WriteChunk(c) + rest == c.line + CRLF + more;
    RunSize(decoded, c.line, more, max);
    var b := AtSize(decoded).(stage := Data, remaining := |c.data|);
    TakeData(b, more, |c.data|, max);
    assert more[|c.data|..] == CRLF + rest;
    var after := AtSize(decoded + |c.data|).(stage := DataCr);
    RunConcat(after, CRLF, rest, max);
    RunCrLf(after, max);
  }

  lemma ChunksHead(chunks: seq<Chunk>, rest: Bytes)
    requires chunks != []
    ensures WriteChunks(chunks) + rest == WriteChunk(chunks[0]) + (WriteChunks(chunks[1..]) + rest)
    ensures TotalData(chunks) == |chunks[0].data| + TotalData(chunks[1..])
  {
    Regroup(WriteChunk(chunks[0]), WriteChunks(chunks[1..]), rest);
  }

  lemma NoChunksHead(rest: Bytes)
    ensures WriteChunks([]) + rest == rest && TotalData([]) == 0
  {
  }

  lemma {:induction false} RunChunks(decoded: nat, chunks: seq<Chunk>, bytes: Bytes, rest: Bytes, max: nat)
    requires forall i :: 0 <= i < |chunks| ==> ProperChunk(chunks[i])
    requires decoded + TotalData(chunks) <= max && bytes == WriteChunks(chunks) + rest
    ensures Run(AtSize(decoded), bytes, max) == Run(AtSize(decoded + TotalData(chunks)), rest, max)
    decreases |chunks|
  {
    hide Run, WriteChunk;
    if chunks == [] {
      NoChunksHead(rest);
    } else {
      ChunksHead(chunks, rest);
      var tail := WriteChunks(chunks[1..]) + rest;
      RunChunk(decoded, chunks[0], tail, max);
      RunChunks(decoded + |chunks[0].data|, chunks[1..], tail, rest, max);
    }
  }

  lemma RunTrailer(decoded: nat, size: nat, line: Bytes, rest: Bytes, max: nat)
    requires ProperTrailer(line) && size + |line| <= TRAILER_LIMIT
    ensures Run(AtTrailer(decoded, size), line + CRLF + rest, max) == Run(AtTrailer(decoded, size + |line|), rest, max)
  {
    var b := AtTrailer(decoded, size);
    RunWholeLine(b, line, rest, max);
    RunCrLf(WithLine(b, line), max);
    assert [] + line == line;
  }

  lemma RunEnd(decoded: nat, size: nat, max: nat)
    ensures Run(AtTrailer(decoded, size), CRLF, max) ==
      More(AtTrailer(decoded, size).(stage := TrailerLf, complete := true))
  {
    RunCrLf(AtTrailer(decoded, size), max);
  }

  lemma {:induction false} RunTrailers(decoded: nat, size: nat, trailers: seq<Bytes>, bytes: Bytes, max: nat)
    requires forall i :: 0 <= i < |trailers| ==> ProperTrailer(trailers[i])
    requires size + TrailerBytes(trailers) <= TRAILER_LIMIT && bytes == WriteTrailers(trailers)
    ensures Completes(AtTrailer(decoded, size), bytes, max)
    ensures Run(AtTrailer(decoded, size), bytes, max).body.decoded == decoded
    decreases |trailers|
  {
    if trailers == [] {
      RunEnd(decoded, size, max);
    } else {
      var tail := WriteTrailers(trailers[1..]);
      RunTrailer(decoded, size, trailers[0], tail, max);
      RunTrailers(decoded, size + |trailers[0]|, trailers[1..], tail, max);
    }
  }

  lemma WrittenAccepted(m: Message, max: nat)
    requires Proper(m) && TotalData(m.chunks) <= max
    ensures Completes(START, Write(m), max) && Run(START, Write(m), max).body.decoded == TotalData(m.chunks)
  {
    var total := TotalData(m.chunks);
    RunChunks(0, m.chunks, Write(m), m.last + CRLF + WriteTrailers(m.trailers), max);
    RunSize(total, m.last, WriteTrailers(m.trailers), max);
    RunTrailers(total, 0, m.trailers, WriteTrailers(m.trailers), max);
  }

  // ----- everything that is accepted was written -----

  lemma EmptyWaits(b: Body, bytes: Bytes, max: nat)
    requires !b.complete && Completes(b, bytes, max)
    ensures bytes != [] && Step(b, bytes[0], max).More? && Completes(Step(b, bytes[0], max).body, bytes[1..], max)
  {
  }

  // A byte of a line that is not its end joins the line.
  lemma LineStep(b: Body, byte: Byte, max: nat)
    requires InLine(b) && byte != CR && Step(b, byte, max).More?
    requires |b.line| < LINE_LIMIT && b.trailerSize <= TRAILER_LIMIT
    ensures var next := Step(b, byte, max).body;
      next == WithLine(b, [byte]) && byte != LF && |next.line| < LINE_LIMIT && next.trailerSize <= TRAILER_LIMIT
  {
  }

  lemma WithLineTwice(b: Body, x: Bytes, y: Bytes)
    ensures WithLine(WithLine(b, x), y) == WithLine(b, x + y)
  {
    assert (b.line + x) + y == b.line + (x + y);
  }

  function EndStage(b: Body): Stage {
    if b.stage == Size then SizeLf else TrailerLf
  }

  lemma {:induction false} LineSplits(b: Body, bytes: Bytes, max: nat) returns (k: nat)
    requires InLine(b) && |b.line| < LINE_LIMIT && Completes(b, bytes, max)
    requires b.trailerSize <= TRAILER_LIMIT
    ensures k < |bytes| && bytes[k] == CR && CR !in bytes[..k] && LF !in bytes[..k]
    ensures |b.line| + k < LINE_LIMIT
    ensures b.stage == Trailer ==> b.trailerSize + k <= TRAILER_LIMIT
    ensures Completes(WithLine(b, bytes[..k]).(stage := EndStage(b)), bytes[k + 1..], max)
    decreases |bytes|
  {
    EmptyWaits(b, bytes, max);
    if bytes[0] == CR {
      k := 0;
      assert b.line + bytes[..0] == b.line;
    } else {
      LineStep(b, bytes[0], max);
      var j := LineSplits(WithLine(b, [bytes[0]]), bytes[1..], max);
      k := j + 1;
      assert bytes[..k] == [bytes[0]] + bytes[1..][..j];
      WithLineTwice(b, [bytes[0]], bytes[1..][..j]);
      assert bytes[1..][j + 1..] == bytes[k + 1..];
    }
  }

  lemma SizeSplits(decoded: nat, bytes: Bytes, max: nat) returns (line: Bytes, rest: Bytes)
    requires Completes(AtSize(decoded), bytes, max)
    ensures Line(line) && SizeOf(line).Some? && bytes == line + CRLF + rest
  {
    var k := LineSplits(AtSize(decoded), bytes, max);
    line := bytes[..k];
    assert [] + line == line;
    var b := AtSize(decoded).(line := line, stage := SizeLf);
    EmptyWaits(b, bytes[k + 1..], max);
    rest := bytes[k + 2..];
    assert bytes[k + 1] == LF;
    assert bytes == bytes[..k] + CRLF + bytes[k + 2..];
  }

  // Too little data leaves the decoder waiting.
  lemma DataLong(b: Body, n: nat, bytes: Bytes, max: nat)
    requires !b.complete && b.stage == Data && b.remaining == n > 0 && Completes(b, bytes, max)
    ensures |bytes| >= n
  {
    EmptyWaits(b, bytes, max);
    if |bytes| < n { RunData(b, bytes, max); }
  }

  lemma DataSplits(decoded: nat, n: nat, bytes: Bytes, max: nat) returns (data: Bytes, rest: Bytes)
    requires n > 0 && Completes(AtSize(decoded).(stage := Data, remaining := n), bytes, max)
    ensures |data| == n && decoded + n <= max && bytes == data + CRLF + rest
  {
    var b := AtSize(decoded).(stage := Data, remaining := n);
    DataLong(b, n, bytes, max);
    TakeData(b, bytes, n, max);
    data, rest := bytes[..n], bytes[n..];
    var after := AtSize(decoded + n).(stage := DataCr);
    EmptyWaits(after, rest, max);
    EmptyWaits(after.(stage := DataLf), rest[1..], max);
    assert rest == CRLF + rest[2..];
    rest := rest[2..];
    assert bytes == bytes[..n] + CRLF + rest;
  }

  // Either the empty line that ends the message, or one trailer and more to come.
  lemma TrailerSplits(decoded: nat, size: nat, bytes: Bytes, max: nat) returns (line: Bytes, rest: Bytes)
    requires size <= TRAILER_LIMIT && Completes(AtTrailer(decoded, size), bytes, max)
    ensures bytes == line + CRLF + rest && size + |line| <= TRAILER_LIMIT
    ensures line == [] ==> rest == []
    ensures line != [] ==> ProperTrailer(line) && Completes(AtTrailer(decoded, size + |line|), rest, max)
  {
    var k := LineSplits(AtTrailer(decoded, size), bytes, max);
    line, rest := bytes[..k], bytes[k + 2..];
    assert [] + line == line;
    var b := AtTrailer(decoded, size + k).(line := line, stage := TrailerLf);
    EmptyWaits(b, bytes[k + 1..], max);
    assert bytes[k + 1] == LF && bytes[k + 1..][1..] == rest;
    assert bytes == line + CRLF + rest;
    if k == 0 { CompleteEnds(b.(complete := true), rest, max); }
  }

  lemma TrailersJoin(line: Bytes, more: seq<Bytes>)
    ensures WriteTrailers([line] + more) == line + CRLF + WriteTrailers(more)
    ensures TrailerBytes([line] + more) == |line| + TrailerBytes(more)
  {
    assert ([line] + more)[1..] == more;
  }

  lemma {:induction false} TrailersParse(decoded: nat, size: nat, bytes: Bytes, max: nat) returns (trailers: seq<Bytes>)
    requires size <= TRAILER_LIMIT && Completes(AtTrailer(decoded, size), bytes, max)
    ensures forall i :: 0 <= i < |trailers| ==> ProperTrailer(trailers[i])
    ensures size + TrailerBytes(trailers) <= TRAILER_LIMIT && bytes == WriteTrailers(trailers)
    decreases |bytes|
  {
    var line, rest := TrailerSplits(decoded, size, bytes, max);
    if line == [] {
      trailers := [];
    } else {
      var more := TrailersParse(decoded, size + |line|, rest, max);
      trailers := [line] + more;
      TrailersJoin(line, more);
    }
  }

  lemma CompleteEnds(b: Body, bytes: Bytes, max: nat)
    requires b.complete && Run(b, bytes, max).More?
    ensures bytes == []
  {
  }

  lemma ChunkJoin(c: Chunk, tail: Message)
    requires ProperChunk(c) && Proper(tail)
    ensures var m := Message([c] + tail.chunks, tail.last, tail.trailers);
      Proper(m) && Write(m) == WriteChunk(c) + Write(tail) && TotalData(m.chunks) == |c.data| + TotalData(tail.chunks)
  {
    assert ([c] + tail.chunks)[1..] == tail.chunks;
  }

  lemma NoChunks(last: Bytes, trailers: seq<Bytes>)
    ensures Write(Message([], last, trailers)) == last + CRLF + WriteTrailers(trailers)
  {
    assert WriteChunks([]) + (last + CRLF + WriteTrailers(trailers)) == last + CRLF + WriteTrailers(trailers);
  }

  lemma FirstChunk(decoded: nat, line: Bytes, n: nat, rest: Bytes, max: nat) returns (c: Chunk, after: Bytes)
    requires n > 0 && Line(line) && SizeOf(line) == Some(n)
    requires Completes(AtSize(decoded).(stage := Data, remaining := n), rest, max)
    ensures ProperChunk(c) && |c.data| == n && decoded + n <= max && line + CRLF + rest == WriteChunk(c) + after
    ensures Completes(AtSize(decoded), line + CRLF + rest, max) ==> Completes(AtSize(decoded + n), after, max)
  {
    var data, more := DataSplits(decoded, n, rest, max);
    c, after := Chunk(line, data), more;
    assert line + CRLF + rest == WriteChunk(c) + after;
    RunChunk(decoded, c, after, max);
  }

  lemma {:induction false} Parses(decoded: nat, bytes: Bytes, max: nat) returns (m: Message)
    requires Completes(AtSize(decoded), bytes, max)
    ensures Proper(m) && Write(m) == bytes && (m.chunks != [] ==> decoded + TotalData(m.chunks) <= max)
    decreases |bytes|
  {
    var line, rest := SizeSplits(decoded, bytes, max);
    RunSize(decoded, line, rest, max);
    var n := SizeOf(line).value;
    if n == 0 {
      var trailers := TrailersParse(decoded, 0, rest, max);
      m := Message([], line, trailers);
      NoChunks(line, trailers);
    } else {
      var chunk, after := FirstChunk(decoded, line, n, rest, max);
      var tail := Parses(decoded + n, after, max);
      m := Message([chunk] + tail.chunks, tail.last, tail.trailers);
      ChunkJoin(chunk, tail);
    }
  }

  /** The decoder accepts an input exactly when it is some proper message written out
      whose data fits the limit; its decoded total is that message's. */
  lemma Grammar(bytes: Bytes, max: nat)
    ensures Completes(START, bytes, max) <==>
      exists m :: Proper(m) && TotalData(m.chunks) <= max && Write(m) == bytes
    ensures forall m :: Proper(m) && TotalData(m.chunks) <= max && Write(m) == bytes ==>
      Run(START, bytes, max).body.decoded == TotalData(m.chunks)
  {
    if Completes(START, bytes, max) {
      var m := Parses(0, bytes, max);
      assert Proper(m) && TotalData(m.chunks) <= max && Write(m) == bytes;
    }
    forall m | Proper(m) && TotalData(m.chunks) <= max && Write(m) == bytes
      ensures Completes(START, bytes, max) && Run(START, bytes, max).body.decoded == TotalData(m.chunks)
    {
      WrittenAccepted(m, max);
    }
  }

  /** The same for input that arrives in pieces. */
  lemma PiecesGrammar(pieces: seq<Bytes>, max: nat)
    requires forall i :: 0 <= i < |pieces| ==> pieces[i] != []
    ensures var v := RunPieces(START, pieces, max);
      (v.More? && v.body.complete) <==>
        exists m :: Proper(m) && TotalData(m.chunks) <= max && Write(m) == Flatten(pieces)
  {
    SplitIndependent(START, pieces, max);
    Grammar(Flatten(pieces), max);
  }
}
