/** HTTP/2 uploads bridged to HTTP/1.1: each DATA payload becomes one chunk of the
    chunked coding, queued, written and credited one at a time. */
module Upload {
  import opened Options
  import opened Bytes
  import opened Chunked
  import opened ChunkGrammar

  // ----- the chunk encoder -----

  function HexByte(d: nat): Byte
    requires d < 16
  {
    if d < 10 then 48 + d else 87 + d
  }

  // printf's %zx
  function HexText(n: nat): Bytes {
    if n < 16 then [HexByte(n)] else HexText(n / 16) + [HexByte(n % 16)]
  }

  function Encoded(payload: Bytes): Bytes {
    HexText(|payload|) + CRLF + payload + CRLF
  }

  lemma {:induction false} HexTextValue(n: nat)
    ensures HexText(n) != [] && forall i :: 0 <= i < |HexText(n)| ==> IsHex(HexText(n)[i])
    ensures HexValue(HexText(n)) == n
  {
    var t := HexText(n);
    if n >= 16 {
      HexTextValue(n / 16);
      assert t[..|t| - 1] == HexText(n / 16);
    } else {
      assert t[..0] == [];
    }
  }

  lemma {:induction false} HexTextShort(n: nat, k: nat, bound: nat)
    requires n < bound && bound == Power16(k) && k > 0
    ensures |HexText(n)| <= k
  {
    if n >= 16 {
      assert k > 1;
      HexTextShort(n / 16, k - 1, Power16(k - 1));
    }
  }

  function Power16(k: nat): nat {
    if k == 0 then 1 else 16 * Power16(k - 1)
  }

  lemma SizeLine(n: nat)
    requires n <= SIZE_MAX
    ensures |HexText(n)| <= 16 && Line(HexText(n)) && SizeOf(HexText(n)) == Some(n)
  {
    var t := HexText(n);
    HexTextValue(n);
    assert Power16(16) == SIZE_MAX + 1 by {
      assert Power16(4) == 0x1_0000;
      assert Power16(8) == 0x1_0000_0000;
      assert Power16(12) == 0x1_0000_0000_0000;
    }
    HexTextShort(n, 16, SIZE_MAX + 1);
    DigitsPrefix(t, |t|);
    assert t[..|t|] == t && t[|t|..] == [];
  }

  function Wire(payloads: seq<Bytes>): Bytes {
    if payloads == [] then [] else Encoded(payloads[0]) + Wire(payloads[1..])
  }

  function TotalSize(payloads: seq<Bytes>): nat {
    if payloads == [] then 0 else |payloads[0]| + TotalSize(payloads[1..])
  }

  function ChunksOf(payloads: seq<Bytes>): seq<Chunk> {
    if payloads == [] then [] else [Chunk(HexText(|payloads[0]|), payloads[0])] + ChunksOf(payloads[1..])
  }

  predicate Sized(payloads: seq<Bytes>) {
    forall i :: 0 <= i < |payloads| ==> |payloads[i]| <= SIZE_MAX
  }

  predicate NoneEmpty(payloads: seq<Bytes>) {
    forall i :: 0 <= i < |payloads| ==> payloads[i] != []
  }

  lemma {:induction false} ChunksOfProper(payloads: seq<Bytes>)
    requires Sized(payloads) && NoneEmpty(payloads)
    ensures forall i :: 0 <= i < |ChunksOf(payloads)| ==> ProperChunk(ChunksOf(payloads)[i])
    ensures WriteChunks(ChunksOf(payloads)) == Wire(payloads) && TotalData(ChunksOf(payloads)) == TotalSize(payloads)
  {
    if payloads != [] {
      SizeLine(|payloads[0]|);
      ChunksOfProper(payloads[1..]);
      var chunks := ChunksOf(payloads);
      assert chunks[1..] == ChunksOf(payloads[1..]);
      assert WriteChunk(chunks[0]) == Encoded(payloads[0]);
    }
  }

  lemma EndMessage()
    ensures Encoded([]) == HexText(0) + CRLF + WriteTrailers([])
  {
  }

  lemma NonEmptyAccepted(payloads: seq<Bytes>, max: nat)
    requires Sized(payloads) && NoneEmpty(payloads) && TotalSize(payloads) <= max
    ensures Completes(START, Wire(payloads) + Encoded([]), max)
    ensures Run(START, Wire(payloads) + Encoded([]), max).body.decoded == TotalSize(payloads)
  {
    ChunksOfProper(payloads);
    SizeLine(0);
    EndMessage();
    WrittenAccepted(Message(ChunksOf(payloads), HexText(0), []), max);
  }

  lemma {:induction false} WireConcat(a: seq<Bytes>, b: seq<Bytes>)
    ensures Wire(a + b) == Wire(a) + Wire(b)
  {
    if a == [] {
      assert a + b == b;
    } else {
      WireConcat(a[1..], b);
      WireHead(a[0], a[1..] + b);
      assert a + b == [a[0]] + (a[1..] + b);
      Regroup(Encoded(a[0]), Wire(a[1..]), Wire(b));
    }
  }

  lemma {:induction false} SizeGrows(payloads: seq<Bytes>, k: nat)
    requires k <= |payloads|
    ensures TotalSize(payloads[..k]) <= TotalSize(payloads)
    decreases |payloads|
  {
    if k > 0 {
      SizeGrows(payloads[1..], k - 1);
      assert payloads[..k][1..] == payloads[1..][..k - 1];
    }
  }

  lemma WireHead(payload: Bytes, rest: seq<Bytes>)
    ensures Wire([payload] + rest) == Encoded(payload) + Wire(rest)
  {
    assert ([payload] + rest)[1..] == rest;
  }

  lemma RegroupFour(a: Bytes, b: Bytes, c: Bytes, d: Bytes)
    ensures (a + (b + c)) + d == (a + b) + (c + d)
  {
  }

  lemma WireAt(payloads: seq<Bytes>, k: nat, end: Bytes)
    requires k < |payloads|
    ensures Wire(payloads) + end ==
      (Wire(payloads[..k]) + Encoded(payloads[k])) + (Wire(payloads[k + 1..]) + end)
  {
    var before, one, after := payloads[..k], payloads[k], payloads[k + 1..];
    Around(payloads, k);
    WireConcat(before, [one] + after);
    WireHead(one, after);
    RegroupFour(Wire(before), Encoded(one), Wire(after), end);
  }

  lemma CompleteRefusesMore(bytes: Bytes, rest: Bytes, max: nat)
    requires Completes(START, bytes, max) && rest != []
    ensures Run(START, bytes + rest, max) == Reject(false)
  {
    RunConcat(START, bytes, rest, max);
  }

  // The first empty payload reads as the end of the body, and what follows is refused.
  lemma EmptyPayloadRefused(payloads: seq<Bytes>, k: nat, max: nat)
    requires Sized(payloads) && TotalSize(payloads) <= max
    requires k < |payloads| && payloads[k] == [] && NoneEmpty(payloads[..k])
    ensures !Completes(START, Wire(payloads) + Encoded([]), max)
  {
    SizeGrows(payloads, k);
    NonEmptyAccepted(payloads[..k], max);
    WireAt(payloads, k, Encoded([]));
    CompleteRefusesMore(Wire(payloads[..k]) + Encoded([]), Wire(payloads[k + 1..]) + Encoded([]), max);
  }

  /** An upload ended by END_STREAM is accepted by the chunked decoder exactly when none
      of its payloads was empty, and then with its whole length. */
  lemma UploadAccepted(payloads: seq<Bytes>, max: nat)
    requires Sized(payloads) && TotalSize(payloads) <= max
    ensures Completes(START, Wire(payloads) + Encoded([]), max) <==> NoneEmpty(payloads)
    ensures NoneEmpty(payloads) ==>
      Run(START, Wire(payloads) + Encoded([]), max).body.decoded == TotalSize(payloads)
  {
    if NoneEmpty(payloads) {
      NonEmptyAccepted(payloads, max);
    } else {
      var k := FirstEmpty(payloads);
      EmptyPayloadRefused(payloads, k, max);
    }
  }

  lemma FirstEmpty(payloads: seq<Bytes>) returns (k: nat)
    requires !NoneEmpty(payloads)
    ensures k < |payloads| && payloads[k] == [] && NoneEmpty(payloads[..k])
  {
    k := 0;
    while payloads[k] != []
      invariant k < |payloads| && NoneEmpty(payloads[..k])
      decreases |payloads| - k
    {
      k := k + 1;
    }
  }

  /** One empty payload: its size line already ends the body, so the end of the upload is
      more than the decoder takes. */
  lemma EmptyPayloadEndsBody(max: nat)
    ensures !Completes(START, Wire([[]]) + Encoded([]), max) && Completes(START, Wire([[]]), max)
  {
    var one: seq<Bytes>, none: seq<Bytes> := [[]], [];
    WireHead([], none);
    assert [[]] + none == one;
    UploadAccepted(one, max);
    UploadAccepted(none, max);
    assert Wire(none) + Encoded([]) == Encoded([]) && Wire(one) == Encoded([]) + Wire(none) == Encoded([]);
  }
}
