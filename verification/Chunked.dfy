/** The incremental decoder of the chunked coding (section 7.1 of RFC 9112), with the
    gateway's own limits on lines, trailers and the decoded body. */
module Chunked {
  import opened Options
  import opened Bytes

  const CR: Byte := 13
  const LF: Byte := 10
  const CRLF: Bytes := [13, 10]
  const LINE_LIMIT := 4096
  const TRAILER_LIMIT := 16384
  const SIZE_MAX := 0xFFFF_FFFF_FFFF_FFFF

  // ----- one size line -----

  predicate IsHex(b: Byte) {
    48 <= b <= 57 || 97 <= b <= 102 || 65 <= b <= 70
  }

  // chunk_hex of a digit
  function HexDigit(b: Byte): (d: nat)
    requires IsHex(b)
    ensures d < 16
  {
    if b <= 57 then b - 48 else if b <= 70 then b - 55 else b - 87
  }

  // How many hex digits a line starts with.
  function Digits(line: Bytes): (k: nat)
    ensures k <= |line|
    ensures forall i :: 0 <= i < k ==> IsHex(line[i])
    ensures k < |line| ==> !IsHex(line[k])
  {
    if line == [] || !IsHex(line[0]) then 0 else 1 + Digits(line[1..])
  }

  function HexValue(digits: Bytes): nat
    requires forall i :: 0 <= i < |digits| ==> IsHex(digits[i])
  {
    if digits == [] then 0
    else 16 * HexValue(digits[..|digits| - 1]) + HexDigit(digits[|digits| - 1])
  }

  // Anything printable may follow a semicolon.
  predicate Extension(s: Bytes) {
    s == [] || (s[0] == 59 && forall i :: 0 < i < |s| ==> 0x20 <= s[i] <= 0x7e)
  }

  function SizeOf(line: Bytes): Option<nat> {
    var k := Digits(line);
    if k == 0 || HexValue(line[..k]) > SIZE_MAX || !Extension(line[k..]) then None
    else Some(HexValue(line[..k]))
  }

  lemma {:induction false} HexGrows(digits: Bytes, k: nat)
    requires k <= |digits| && forall i :: 0 <= i < |digits| ==> IsHex(digits[i])
    ensures HexValue(digits[..k]) <= HexValue(digits)
    decreases |digits|
  {
    if k < |digits| {
      var init := digits[..|digits| - 1];
      HexGrows(init, k);
      assert init[..k] == digits[..k];
    } else {
      assert digits[..k] == digits;
    }
  }

  lemma DigitsPrefix(line: Bytes, k: nat)
    requires k <= |line| && forall i :: 0 <= i < k ==> IsHex(line[i])
    requires k < |line| ==> !IsHex(line[k])
    ensures Digits(line) == k
  {
  }

  /** parse_chunk_size: one pass, with the overflow test before each digit. */
  method ParseChunkSize(line: Bytes) returns (size: Option<nat>)
    ensures size == SizeOf(line)
  {
    var value, digits, i, extension := 0, 0, 0, false;
    ghost var k := Digits(line);
    while i < |line|
      invariant i <= |line|
      invariant !extension ==> i <= k && digits == i && value == HexValue(line[..i]) <= SIZE_MAX
      invariant extension ==> 0 < k < i && digits == k && value == HexValue(line[..k]) <= SIZE_MAX
      invariant extension ==> line[k] == 59 && forall j :: k < j < i ==> 0x20 <= line[j] <= 0x7e
    {
      var byte := line[i];
      i := i + 1;
      if !extension && byte == 59 {
        if digits == 0 { return None; }
        extension := true;
      } else if extension {
        if byte < 0x20 || byte > 0x7e { return None; }
      } else {
        if !IsHex(byte) { return None; }
        var digit := HexDigit(byte);
        assert line[..i][..i - 1] == line[..i - 1];
        if value > (SIZE_MAX - digit) / 16 {
          HexGrows(line[..k], i);
          assert line[..k][..i] == line[..i];
          return None;
        }
        value, digits := value * 16 + digit, digits + 1;
      }
    }
    size := if digits == 0 then None else Some(value);
  }

  // ----- one trailer line -----

  function Colon(line: Bytes): (k: nat)
    ensures k <= |line| && (k < |line| ==> line[k] == 58)
    ensures forall i :: 0 <= i < k ==> line[i] != 58
  {
    if line == [] || line[0] == 58 then 0 else 1 + Colon(line[1..])
  }

  predicate AlphaNumeric(b: Byte) {
    48 <= b <= 57 || 65 <= b <= 90 || 97 <= b <= 122
  }

  // tchar, section 5.6.2 of RFC 9110.
  predicate TokenChar(b: Byte) {
    AlphaNumeric(b) || b in {33, 35, 36, 37, 38, 39, 42, 43, 45, 46, 94, 95, 96, 124, 126}
  }

  // chunk_token: the search through the symbols also finds their terminating NUL.
  predicate ChunkToken(b: Byte) {
    TokenChar(b) || b == 0
  }

  function Lower(b: Byte): Byte {
    if 65 <= b <= 90 then b + 32 else b
  }

  predicate SameName(a: Bytes, b: Bytes) {
    |a| == |b| && forall i :: 0 <= i < |a| ==> Lower(a[i]) == Lower(b[i])
  }

  // content-length, transfer-encoding, host, connection and trailer.
  const CONTENT_LENGTH: Bytes := [99, 111, 110, 116, 101, 110, 116, 45, 108, 101, 110, 103, 116, 104]
  const TRANSFER_ENCODING: Bytes := [116, 114, 97, 110, 115, 102, 101, 114, 45, 101, 110, 99, 111, 100, 105, 110, 103]
  const HOST: Bytes := [104, 111, 115, 116]
  const CONNECTION: Bytes := [99, 111, 110, 110, 101, 99, 116, 105, 111, 110]
  const TRAILER: Bytes := [116, 114, 97, 105, 108, 101, 114]

  predicate Forbidden(name: Bytes) {
    || SameName(name, CONTENT_LENGTH) || SameName(name, TRANSFER_ENCODING) || SameName(name, HOST)
    || SameName(name, CONNECTION) || SameName(name, TRAILER)
  }

  predicate FieldByte(b: Byte) {
    (b >= 0x20 || b == 9) && b != 0x7f
  }

  predicate GoodTrailer(line: Bytes) {
    var k := Colon(line);
    && 0 < k < |line|
    && (forall i :: 0 <= i < k ==> ChunkToken(line[i]))
    && (forall i :: k < i < |line| ==> FieldByte(line[i]))
    && !Forbidden(line[..k])
  }

  /** chunk_name_is */
  method NameIs(value: Bytes, name: Bytes) returns (same: bool)
    ensures same <==> SameName(value, name)
  {
    if |value| != |name| { return false; }
    for i := 0 to |value|
      invariant forall j :: 0 <= j < i ==> Lower(value[j]) == Lower(name[j])
    {
      if Lower(value[i]) != Lower(name[i]) { return false; }
    }
    same := true;
  }

  /** parse_chunk_trailer */
  method ParseChunkTrailer(line: Bytes) returns (ok: bool)
    ensures ok <==> GoodTrailer(line)
  {
    var colon := 0;
    while colon < |line| && line[colon] != 58
      invariant colon <= Colon(line)
    {
      colon := colon + 1;
    }
    if colon == 0 || colon == |line| { return false; }
    for i := 0 to colon
      invariant forall j :: 0 <= j < i ==> ChunkToken(line[j])
    {
      if !ChunkToken(line[i]) { return false; }
    }
    for i := colon + 1 to |line|
      invariant forall j :: colon < j < i ==> FieldByte(line[j])
    {
      if (line[i] < 0x20 && line[i] != 9) || line[i] == 0x7f { return false; }
    }
    var name := line[..colon];
    var length := NameIs(name, CONTENT_LENGTH);
    var encoding := NameIs(name, TRANSFER_ENCODING);
    var host := NameIs(name, HOST);
    var connection := NameIs(name, CONNECTION);
    var trailer := NameIs(name, TRAILER);
    ok := !length && !encoding && !host && !connection && !trailer;
  }

  /** An accepted trailer's name is a token exactly when it holds no NUL. */
  lemma TrailerNameToken(line: Bytes)
    requires GoodTrailer(line)
    ensures (forall i :: 0 <= i < Colon(line) ==> TokenChar(line[i])) <==> 0 !in line[..Colon(line)]
  {
  }

  // A NUL before a colon is accepted.
  lemma NulNameAccepted()
    ensures GoodTrailer([0, 58])
  {
    assert Colon([0, 58]) == 1 by { assert [0, 58][1..] == [58]; }
  }

  // ----- the decoder, one byte at a time -----

  datatype Stage = Size | SizeLf | Data | DataCr | DataLf | Trailer | TrailerLf

  datatype Body = Body(stage: Stage, remaining: nat, decoded: nat, line: Bytes, trailerSize: nat, complete: bool)

  datatype Verdict = More(body: Body) | Reject(limit: bool)

  const START := Body(Size, 0, 0, [], 0, false)

  predicate Ready(b: Body) {
    (b.stage == Data ==> b.remaining > 0) && |b.line| < LINE_LIMIT && b.trailerSize <= TRAILER_LIMIT
  }

  function Step(b: Body, byte: Byte, max: nat): Verdict {
    if b.complete then Reject(false)
    else match b.stage
      case Size =>
        if byte == CR then More(b.(stage := SizeLf))
        else if byte == LF || |b.line| == LINE_LIMIT - 1 then Reject(false)
        else More(b.(line := b.line + [byte]))
      case SizeLf =>
        if byte != LF || SizeOf(b.line).None? then Reject(false)
        else
          var n := SizeOf(b.line).value;
          More(b.(stage := if n > 0 then Data else Trailer, remaining := n, line := []))
      case Data =>
        if b.decoded >= max then Reject(true)
        else More(b.(stage := if b.remaining > 1 then Data else DataCr,
                     remaining := if b.remaining > 0 then b.remaining - 1 else 0, decoded := b.decoded + 1))
      case DataCr => if byte != CR then Reject(false) else More(b.(stage := DataLf))
      case DataLf => if byte != LF then Reject(false) else More(b.(stage := Size))
      case Trailer =>
        if byte == CR then More(b.(stage := TrailerLf))
        else if byte == LF || |b.line| == LINE_LIMIT - 1 || b.trailerSize == TRAILER_LIMIT then Reject(false)
        else More(b.(line := b.line + [byte], trailerSize := b.trailerSize + 1))
      case TrailerLf =>
        if byte != LF then Reject(false)
        else if b.line == [] then More(b.(complete := true))
        else if GoodTrailer(b.line) then More(b.(line := [], stage := Trailer))
        else Reject(false)
  }

  function Run(b: Body, bytes: Bytes, max: nat): Verdict
    decreases |bytes|
  {
    if bytes == [] then More(b)
    else match Step(b, bytes[0], max)
      case Reject(limit) => Reject(limit)
      case More(next) => Run(next, bytes[1..], max)
  }

  lemma {:induction false} RunConcat(b: Body, x: Bytes, y: Bytes, max: nat)
    ensures Run(b, x + y, max) ==
      match Run(b, x, max) case Reject(limit) => Reject(limit) case More(next) => Run(next, y, max)
    decreases |x|
  {
    if x == [] {
      assert x + y == y;
    } else {
      assert (x + y)[1..] == x[1..] + y;
      var step := Step(b, x[0], max);
      if step.More? { RunConcat(step.body, x[1..], y, max); }
    }
  }

  // A whole amount of data at once, as the decoder takes it.
  lemma {:induction false} RunData(b: Body, bytes: Bytes, max: nat)
    requires !b.complete && b.stage == Data && 0 < |bytes| <= b.remaining
    ensures Run(b, bytes, max) ==
      if b.decoded > max || |bytes| > max - b.decoded then Reject(true)
      else More(b.(stage := if |bytes| == b.remaining then DataCr else Data,
                   remaining := b.remaining - |bytes|, decoded := b.decoded + |bytes|))
    decreases |bytes|
  {
    if b.decoded < max {
      var step := Step(b, bytes[0], max);
      if |bytes| == 1 { assert bytes[1..] == []; } else { RunData(step.body, bytes[1..], max); }
    }
  }

  // ----- the decoder, one piece at a time -----

  /** What the callers see of a sequence of pieces; each piece is one call. */
  function RunPieces(b: Body, pieces: seq<Bytes>, max: nat): Verdict
    decreases |pieces|
  {
    if pieces == [] then More(b)
    else if b.complete then Reject(false)
    else match Run(b, pieces[0], max)
      case Reject(limit) => Reject(limit)
      case More(next) => RunPieces(next, pieces[1..], max)
  }

  /** The verdict, the limit flag and the decoded total do not depend on how the input
      is split into non-empty pieces. */
  lemma {:induction false} SplitIndependent(b: Body, pieces: seq<Bytes>, max: nat)
    requires forall i :: 0 <= i < |pieces| ==> pieces[i] != []
    ensures RunPieces(b, pieces, max) == Run(b, Flatten(pieces), max)
    decreases |pieces|
  {
    if pieces != [] {
      RunConcat(b, pieces[0], Flatten(pieces[1..]), max);
      var v := Run(b, pieces[0], max);
      if v.More? { SplitIndependent(v.body, pieces[1..], max); }
    }
  }

  /** ankah_chunked_body */
  lemma RunNext(b: Body, bytes: Bytes, max: nat)
    requires bytes != []
    ensures Run(b, bytes, max) ==
      match Step(b, bytes[0], max)
      case Reject(limit) => Reject(limit)
      case More(c) => Run(c, bytes[1..], max)
  {
    hide Step;
  }

  // Nothing may follow a complete body.
  lemma RunPastEnd(b: Body, bytes: Bytes, max: nat)
    requires b.complete && bytes != []
    ensures Run(b, bytes, max) == Reject(false)
  {
  }

  lemma RunNothing(b: Body, bytes: Bytes, max: nat)
    ensures bytes == [] ==> Run(b, bytes, max) == More(b)
  {
  }

  class ChunkedBody {
    var stage: Stage
    var remaining: nat
    var decoded: nat
    var line: Bytes
    var trailerSize: nat
    var complete: bool
    var limitExceeded: bool

    function View(): Body
      reads this
    {
      Body(stage, remaining, decoded, line, trailerSize, complete)
    }

    /** ankah_chunked_body_init */
    constructor ()
      ensures View() == START && !limitExceeded
    {
      stage, remaining, decoded, line, trailerSize, complete, limitExceeded := Size, 0, 0, [], 0, false, false;
    }

    /** ankah_chunked_body_consume: one piece, data bytes taken in bulk. */
    method Consume(bytes: Bytes, max: nat) returns (result: int, added: nat)
      requires Ready(View())
      modifies this
      ensures old(complete) ==>
        result == -1 && added == 0 && View() == old(View()) && limitExceeded == old(limitExceeded)
      ensures !old(complete) ==>
        match Run(old(View()), bytes, max)
        case Reject(limit) => result == -1 && added == 0 && limitExceeded == (old(limitExceeded) || limit)
        case More(b) =>
          && View() == b && Ready(b) && result == (if b.complete then 1 else 0)
          && added == b.decoded - old(decoded) && limitExceeded == old(limitExceeded)
    {
      hide Run, Step;
      if complete { return -1, 0; }
      var offset, sum := 0, 0;
      ghost var verdict := Run(View(), bytes, max);
      while offset < |bytes|
        invariant offset <= |bytes| && Ready(View()) && sum == decoded - old(decoded)
        invariant limitExceeded == old(limitExceeded) && (complete ==> offset == |bytes|)
        invariant verdict == Run(View(), bytes[offset..], max)
      {
        ghost var before := View();
        var byte := bytes[offset];
        if stage == Data {
          var amount := |bytes| - offset;
          if amount > remaining { amount := remaining; }
          TakeData(before, bytes[offset..], amount, max);
          assert bytes[offset..][amount..] == bytes[offset + amount..];
          if decoded > max || amount > max - decoded {
            limitExceeded := true;
            return -1, 0;
          }
          remaining, decoded, sum, offset := remaining - amount, decoded + amount, sum + amount, offset + amount;
          if remaining == 0 { stage := DataCr; }
        } else {
          offset := offset + 1;
          assert bytes[offset - 1..][1..] == bytes[offset..];
          RunNext(before, bytes[offset - 1..], max);
          var ok := Advance(byte, max);
          if !ok { return -1, 0; }
          if complete && offset != |bytes| {
            RunPastEnd(View(), bytes[offset..], max);
            return -1, 0;
          }
        }
      }
      RunNothing(View(), bytes[offset..], max);
      result, added := if complete then 1 else 0, sum;
    }

    // The byte states of the decoder's loop.
    method Advance(byte: Byte, max: nat) returns (ok: bool)
      requires Ready(View()) && !complete && stage != Data
      modifies this
      ensures limitExceeded == old(limitExceeded) && decoded == old(decoded)
      ensures ok ==> Step(old(View()), byte, max) == More(View()) && Ready(View())
      ensures !ok ==> Step(old(View()), byte, max) == Reject(false)
    {
      ok := true;
      match stage
      case Size =>
        if byte == CR { stage := SizeLf; }
        else if byte == LF || |line| == LINE_LIMIT - 1 { ok := false; }
        else { line := line + [byte]; }
      case SizeLf =>
        if byte != LF { return false; }
        var size := ParseChunkSize(line);
        if size.None? { return false; }
        remaining, line := size.value, [];
        stage := if remaining > 0 then Data else Trailer;
      case DataCr => if byte != CR { ok := false; } else { stage := DataLf; }
      case DataLf => if byte != LF { ok := false; } else { stage := Size; }
      case Trailer =>
        if byte == CR { stage := TrailerLf; }
        else if byte == LF || |line| == LINE_LIMIT - 1 || trailerSize == TRAILER_LIMIT { ok := false; }
        else { line, trailerSize := line + [byte], trailerSize + 1; }
      case TrailerLf =>
        if byte != LF { return false; }
        if line == [] {
          complete := true;
        } else {
          ok := ParseChunkTrailer(line);
          if ok { line, stage := [], Trailer; }
        }
    }
  }

  lemma TakeData(b: Body, bytes: Bytes, amount: nat, max: nat)
    requires !b.complete && b.stage == Data && 0 < amount <= |bytes| && amount <= b.remaining
    ensures Run(b, bytes, max) ==
      if b.decoded > max || amount > max - b.decoded then Reject(true)
      else Run(b.(stage := if amount == b.remaining then DataCr else Data,
                  remaining := b.remaining - amount, decoded := b.decoded + amount), bytes[amount..], max)
  {
    RunData(b, bytes[..amount], max);
    RunConcat(b, bytes[..amount], bytes[amount..], max);
    assert bytes[..amount] + bytes[amount..] == bytes;
  }
}
