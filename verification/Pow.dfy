/**
 * The proof of work. The browser hashes nonce ":" counter with a SHA-256 that only knows messages of one block and
 * only computes the first word of the digest; the server hashes the same text in full and looks at bytes. This
 * module proves that both ask whether the digest starts with the required number of zero bits, and that a
 * batch search returns the smallest counter of its range that passes.
 */
module Pow {
  import opened Sha256
  import opened PowBits
  import opened Decimals

  const UINT32_MAX: nat := 0xFFFF_FFFF

  function Ascii(s: string): (o: Octets)
    ensures |o| == |s|
    ensures forall i | 0 <= i < |s| :: o[i] == Octet(s[i] as nat)
  {
    seq(|s|, i requires 0 <= i < |s| => Octet(s[i] as nat))
  }

  /** The text that is hashed. */
  function Candidate(nonce: Octets, counter: nat): Octets {
    nonce + [Octet(':' as nat)] + Ascii(Decimal(counter))
  }

  /** The counter answers the challenge. */
  predicate Solves(nonce: Octets, counter: nat, bits: nat)
    requires bits <= 256
  {
    LeadingZeros(Digest(Candidate(nonce, counter)), bits)
  }

  // ----- the padded block -----

  lemma {:induction false} BigEndianZero(k: nat)
    ensures BigEndian(k, 0) == Zeros(k)
  {
    if k > 0 {
      BigEndianZero(k - 1);
    }
  }

  lemma BigEndianShort(n: nat)
    requires n < 65536
    ensures BigEndian(8, n) == Zeros(6) + [Octet(n / 256), Octet(n)]
  {
    hide Octet;
    BigEndianZero(6);
    var six: nat := 6;
    BigEndianTwo(six, n);
  }

  lemma BigEndianTwo(k: nat, n: nat)
    requires n < 65536
    ensures BigEndian(k + 2, n) == BigEndian(k, 0) + [Octet(n / 256), Octet(n)]
  {
    hide Octet;
    assert n / 256 / 256 == 0;
    assert BigEndian(k + 1, n / 256) == BigEndian(k, 0) + [Octet(n / 256)];
  }

  // What a padded message of at most 55 bytes looks like.
  lemma ShortPadded(message: Octets)
    requires |message| <= 55
    ensures |Padded(message)| == 64
    ensures Padded(message) == message + [0x80] + Zeros(61 - |message|)
      + [Octet(8 * |message| / 256), Octet(8 * |message|)]
  {
    hide Octet, BigEndian;
    PaddedLength(message);
    var n := |message|;
    BigEndianShort(8 * n);
    assert n % 64 == n;
    assert (119 - n) % 64 == 55 - n;
    assert Zeros(61 - n) == Zeros(55 - n) + Zeros(6);
  }

  // The decimal digits of the counter, last digit first.
  method TakeDigits(counter: nat) returns (digits: array<char>, length: nat)
    requires counter <= UINT32_MAX
    ensures fresh(digits) && digits.Length == 10
    ensures 1 <= length <= 10 && length == |Decimal(counter)|
    ensures forall k | 0 <= k < length :: digits[k] == Decimal(counter)[length - 1 - k]
  {
    digits := new char[10];
    ghost var text := Decimal(counter);
    assert counter < Pow10(10);
    DecimalShort(counter, 10);
    length := 0;
    var rest, more := counter, true;
    while more
      invariant length <= |text|
      invariant forall k | 0 <= k < length :: digits[k] == text[|text| - 1 - k]
      invariant more ==> length < |text| && text[..|text| - length] == Decimal(rest)
      invariant !more ==> length == |text|
      decreases |text| - length, more
    {
      digits[length] := Digit(rest % 10);
      length := length + 1;
      LastDigit(text, length, rest);
      rest := rest / 10;
      more := rest != 0;
    }
  }

  // The digits turned round behind the separator.
  method PlaceDigits(digits: array<char>, length: nat, ghost text: string, block: array<bv8>)
    requires digits.Length == 10 && block.Length == 64 && length == |text| <= 10
    requires forall k | 0 <= k < length :: digits[k] == text[length - 1 - k]
    modifies block
    ensures block[33..33 + length] == Ascii(text)
    ensures block[..33] == old(block[..33]) && block[33 + length..] == old(block[33 + length..])
  {
    hide Octet;
    var i := 0;
    while i < length
      invariant 0 <= i <= length
      invariant forall k | 33 <= k < 33 + i :: block[k] == Octet(text[k - 33] as nat)
      invariant block[..33] == old(block[..33]) && block[33 + length..] == old(block[33 + length..])
    {
      block[33 + i] := Octet(digits[length - i - 1] as nat);
      i := i + 1;
    }
  }

  lemma LastDigit(text: string, taken: nat, rest: nat)
    requires 1 <= taken <= |text|
    requires text[..|text| - taken + 1] == Decimal(rest)
    ensures text[|text| - taken] == Digit(rest % 10)
    ensures rest / 10 == 0 ==> taken == |text|
    ensures rest / 10 != 0 ==> taken < |text| && text[..|text| - taken] == Decimal(rest / 10)
  {
    var d := Decimal(rest);
    assert d[|d| - 1] == text[|text| - taken];
    if rest >= 10 {
      assert d == Decimal(rest / 10) + [Digit(rest % 10)];
      assert d[..|d| - 1] == text[..|text| - taken];
      assert 1 <= |Decimal(rest / 10)|;
    }
  }

  lemma FilledBlock(block: Octets, message: Octets)
    requires |block| == 64 && |message| <= 55 && block[..|message|] == message && block[|message|] == 0x80
    requires forall k | |message| < k < 62 :: block[k] == 0
    requires block[62] == Octet(8 * |message| / 256) && block[63] == Octet(8 * |message|)
    ensures block == Padded(message)
  {
    hide Octet, Padded;
    ShortPadded(message);
    var n := |message|;
    assert block[n + 1..62] == Zeros(61 - n);
    assert block == block[..n] + [block[n]] + block[n + 1..62] + [block[62], block[63]];
  }

  method StartBlock(nonce: array<bv8>) returns (block: array<bv8>)
    requires nonce.Length == 32
    ensures fresh(block) && block.Length == 64
    ensures block[..33] == nonce[..] + [Octet(':' as nat)]
    ensures forall k | 33 <= k < 64 :: block[k] == 0
  {
    hide Octet;
    block := new bv8[64](_ => 0);
    var i := 0;
    while i < 32
      invariant 0 <= i <= 32
      invariant block[..i] == nonce[..i]
      invariant forall k | i <= k < 64 :: block[k] == 0
    {
      block[i] := nonce[i];
      i := i + 1;
    }
    block[32] := Octet(':' as nat);
  }

  method FillBlock(nonce: array<bv8>, counter: nat) returns (block: array<bv8>)
    requires nonce.Length == 32 && counter <= UINT32_MAX
    ensures fresh(block) && block.Length == 64
    ensures |Candidate(nonce[..], counter)| <= 43
    ensures block[..] == Padded(Candidate(nonce[..], counter))
  {
    hide Octet, Padded;
    block := StartBlock(nonce);
    var digits, length := TakeDigits(counter);
    PlaceDigits(digits, length, Decimal(counter), block);
    var size := 33 + length;
    ghost var message := Candidate(nonce[..], counter);
    assert block[..size] == block[..33] + block[33..size];
    ghost var text := block[..size];
    assert text == message;
    assert forall k | size <= k < 64 :: block[k] == block[size..][k - size] == 0;
    block[size] := 0x80;
    block[63] := Octet(size * 8);
    block[62] := Octet(size * 8 / 256);
    assert block[..size] == text;
    FilledBlock(block[..], message);
  }

  // ----- the compression -----

  method LoadWords(block: array<bv8>, words: array<bv32>)
    requires block.Length == 64 && words.Length == 64
    modifies words
    ensures forall t | 0 <= t < 16 :: words[t] == Schedule(block[..], t)
  {
    hide Expand;
    var i: nat := 0;
    while i < 16
      invariant i <= 16
      invariant forall t | 0 <= t < i :: words[t] == Schedule(block[..], t)
    {
      var j := i * 4;
      words[i] := ((block[j] as bv32) << 24) | ((block[j + 1] as bv32) << 16)
        | ((block[j + 2] as bv32) << 8) | (block[j + 3] as bv32);
      assert words[i] == Word(block[..], i);
      i := i + 1;
    }
  }

  method FillWords(block: array<bv8>) returns (words: array<bv32>)
    requires block.Length == 64
    ensures fresh(words) && words.Length == 64
    ensures forall t | 0 <= t < 64 :: words[t] == Schedule(block[..], t)
  {
    hide NextWord, Schedule, Expand;
    words := new bv32[64];
    LoadWords(block, words);
    var i: nat := 16;
    while i < 64
      invariant 16 <= i <= 64
      invariant forall t | 0 <= t < i :: words[t] == Schedule(block[..], t)
    {
      ExpandedWord(words[i - 2], words[i - 7], words[i - 15], words[i - 16]);
      NextScheduled(block[..], i);
      words[i] := NextWord(words[i - 15], words[i - 2], words[i - 16], words[i - 7]);
      i := i + 1;
    }
  }

  // The body of the loop that expands the message: a is W(i - 15), b is W(i - 2).
  function NextWord(a: bv32, b: bv32, w16: bv32, w7: bv32): bv32 {
    var s0 := Rotr(a, 7) ^ Rotr(a, 18) ^ (a >> 3);
    var s1 := Rotr(b, 17) ^ Rotr(b, 19) ^ (b >> 10);
    Sum4(w16, s0, w7, s1)
  }

  lemma NextScheduled(block: Octets, t: nat)
    requires |block| == 64 && 16 <= t < 64
    ensures Schedule(block, t)
      == Expand(Schedule(block, t - 2), Schedule(block, t - 7), Schedule(block, t - 15), Schedule(block, t - 16))
  {
    hide Expand, Word;
  }

  lemma ExpandedWord(w2: bv32, w7: bv32, w15: bv32, w16: bv32)
    ensures NextWord(w15, w2, w16, w7) == Expand(w2, w7, w15, w16)
  {
    hide Rotr, Sum4;
    Reordered(w16, SmallSigma0(w15), w7, SmallSigma1(w2));
  }

  lemma Reordered(p: bv32, q: bv32, r: bv32, s: bv32)
    ensures Sum4(p, q, r, s) == Sum4(s, r, q, p)
  {
    assert s + r + q + p == p + q + r + s;
  }

  lemma AnotherRound(w: Words, block: Octets, n: nat)
    requires |block| == 64 && n < 64
    ensures Rounds(w, block, n + 1) == Round(Rounds(w, block, n), Constants()[n], Schedule(block, n))
  {
    hide Constants, Round, Schedule;
  }

  lemma NoRounds(w: Words, block: Octets)
    requires |block| == 64
    ensures Rounds(w, block, 0) == w
  {
  }

  /** The first word of the compression of a block, from the initial hash value. */
  method FirstWord(block: array<bv8>) returns (word: bv32)
    requires block.Length == 64
    ensures word == Compress(Initial(), block[..]).a
  {
    hide *;
    var words := FillWords(block);
    ghost var view := block[..];
    var start := Initial();
    NoRounds(start, view);
    var a, b, c, d := start.a, start.b, start.c, start.d;
    var e, f, g, h := start.e, start.f, start.g, start.h;
    var i: nat := 0;
    while i < 64
      invariant i <= 64
      invariant forall t | 0 <= t < 64 :: words[t] == Schedule(view, t)
      invariant Words(a, b, c, d, e, f, g, h) == Rounds(start, view, i)
    {
      var t1 := Sum5(h, BigSigma1(e), Ch(e, f, g), Constants()[i], words[i]);
      var t2 := Sum2(BigSigma0(a), Maj(a, b, c));
      AnotherRound(start, view, i);
      OneRound(Words(a, b, c, d, e, f, g, h), Constants()[i], words[i]);
      h, g, f, e := g, f, e, Sum2(d, t1);
      d, c, b, a := c, b, a, Sum2(t1, t2);
      i := i + 1;
    }
    word := Sum2(start.a, a);
    FirstOfSum(start, view);
  }

  lemma OneRound(w: Words, k: bv32, m: bv32)
    ensures var t1 := Sum5(w.h, BigSigma1(w.e), Ch(w.e, w.f, w.g), k, m);
      Round(w, k, m) == Words(Sum2(t1, Sum2(BigSigma0(w.a), Maj(w.a, w.b, w.c))),
                             w.a, w.b, w.c, Sum2(w.d, t1), w.e, w.f, w.g)
  {
    hide BigSigma0, BigSigma1, Ch, Maj, Sum2, Sum5;
  }

  lemma FirstOfSum(h: Words, block: Octets)
    requires |block| == 64
    ensures Compress(h, block).a == Sum2(h.a, Rounds(h, block, 64).a)
  {
    hide Rounds, Sum2;
    Commute(h.a, Rounds(h, block, 64).a);
  }

  lemma Commute(p: bv32, q: bv32)
    ensures Sum2(p, q) == Sum2(q, p)
  {
    assert p + q == q + p;
  }

  /** passes: the specialised hash and the word test answer whether the counter solves the challenge. */
  method Passes(nonce: array<bv8>, counter: nat, bits: nat) returns (ok: bool)
    requires nonce.Length == 32 && counter <= UINT32_MAX && 8 <= bits <= 24
    ensures ok <==> Solves(nonce[..], counter, bits)
  {
    hide Compress, Initial, Padded, WordTop, LeadingZeros, WordOctets, Digest, Candidate;
    var block := FillBlock(nonce, counter);
    var word := FirstWord(block);
    ghost var message := Candidate(nonce[..], counter);
    OneBlock(message);
    WordMeans(word, Digest(message), bits);
    ok := WordTop(word, bits) == 0;
  }

  // The conversion of an unsigned 32-bit result to the signed type it is returned in.
  function Signed32(n: nat): (r: int)
    requires n <= UINT32_MAX
  {
    if n < 0x8000_0000 then n else n - 0x1_0000_0000
  }

  predicate Refused(start: nat, count: nat, bits: nat) {
    bits < 8 || bits > 24 || count > 16384 || start == UINT32_MAX || count > UINT32_MAX - start
  }

  /**
   * search_batch: -1 exactly when the arguments are refused or no counter of the range passes, otherwise the
   * smallest counter that passes, which the conversion never turns into -1.
   */
  method SearchBatch(nonce: array<bv8>, start: nat, count: nat, bits: nat) returns (r: int)
    requires nonce.Length == 32 && start <= UINT32_MAX && count <= UINT32_MAX && bits <= UINT32_MAX
    ensures Refused(start, count, bits) ==> r == -1
    ensures !Refused(start, count, bits) ==>
      (r == -1 <==> forall c: nat | start <= c < start + count :: !Solves(nonce[..], c, bits))
    ensures r != -1 ==>
      exists c: nat :: start <= c < start + count && r == Signed32(c) && First(nonce[..], start, c, bits)
  {
    hide Solves;
    if Refused(start, count, bits) {
      return -1;
    }
    var i: nat := 0;
    while i < count
      invariant i <= count
      invariant forall c: nat | start <= c < start + i :: !Solves(nonce[..], c, bits)
    {
      var ok := Passes(nonce, start + i, bits);
      if ok {
        assert First(nonce[..], start, start + i, bits);
        return Signed32(start + i);
      }
      i := i + 1;
    }
    return -1;
  }

  // c passes and nothing from `start` up to it does.
  predicate First(nonce: Octets, start: nat, c: nat, bits: nat) {
    bits <= 256 && Solves(nonce, c, bits) && forall b: nat | start <= b < c :: !Solves(nonce, b, bits)
  }

  /** The server's check of the digest, for every difficulty it reads from a challenge. */
  method CheckDifficulty(digest: array<bv8>, bits: nat) returns (ok: bool)
    requires digest.Length == 32
    ensures ok <==> 8 <= bits <= 24 && LeadingZeros(digest[..], bits)
  {
    hide ByteTop, LeadingZeros;
    if bits < 8 || bits > 24 {
      return false;
    }
    ghost var d := digest[..];
    BytesMean(d, bits);
    var full, remaining := bits / 8, bits % 8;
    var i := 0;
    while i < full
      invariant 0 <= i <= full
      invariant forall k | 0 <= k < i :: d[k] == 0
    {
      if digest[i] != 0 {
        return false;
      }
      i := i + 1;
    }
    return remaining == 0 || ByteTop(digest[full], remaining) == 0;
  }
}
