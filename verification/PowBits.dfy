/**
 * Two ways to ask whether a digest starts with enough zero bits: the server looks at whole bytes and then at
 * the top of one more, the browser shifts one 32-bit word. Both mean that the first `bits` bits are zero.
 */
module PowBits {
  import opened Sha256

  // Bit k of a byte, counted from the top.
  function ByteBit(b: bv8, k: nat): bv8
    requires k < 8
  {
    (b >> (7 - k)) & 1
  }

  /** What the difficulty means: the first `bits` bits of the digest, most significant first, are zero. */
  predicate LeadingZeros(d: Octets, bits: nat)
    requires bits <= 8 * |d|
  {
    forall k | 0 <= k < bits :: ByteBit(d[k / 8], k % 8) == 0
  }

  // The top r bits of a byte, and the top n bits of a word, as a number.
  function ByteTop(b: bv8, r: nat): bv8
    requires r <= 8
  {
    b >> (8 - r)
  }

  function WordTop(w: bv32, n: nat): bv32
    requires n <= 32
  {
    w >> (32 - n)
  }

  predicate TopZeros(b: bv8, r: nat)
    requires r <= 8
  {
    forall k | 0 <= k < r :: ByteBit(b, k) == 0
  }

  // The server's test.
  predicate BytesPass(d: Octets, bits: nat)
    requires bits < 8 * |d|
  {
    (forall i | 0 <= i < bits / 8 :: d[i] == 0) && (bits % 8 != 0 ==> ByteTop(d[bits / 8], bits % 8) == 0)
  }

  // ----- one byte -----

  lemma LowStep(b: bv8, r: nat)
    requires 1 <= r <= 4
    ensures ByteTop(b, r) == 0 <==> ByteTop(b, r - 1) == 0 && ByteBit(b, r - 1) == 0
  {
    if r == 1 {
      assert ByteTop(b, 1) == 0 <==> ByteTop(b, 0) == 0 && ByteBit(b, 0) == 0;
    } else if r == 2 {
      assert ByteTop(b, 2) == 0 <==> ByteTop(b, 1) == 0 && ByteBit(b, 1) == 0;
    } else if r == 3 {
      assert ByteTop(b, 3) == 0 <==> ByteTop(b, 2) == 0 && ByteBit(b, 2) == 0;
    } else {
      assert ByteTop(b, 4) == 0 <==> ByteTop(b, 3) == 0 && ByteBit(b, 3) == 0;
    }
  }

  lemma HighStep(b: bv8, r: nat)
    requires 5 <= r <= 8
    ensures ByteTop(b, r) == 0 <==> ByteTop(b, r - 1) == 0 && ByteBit(b, r - 1) == 0
  {
    if r == 5 {
      assert ByteTop(b, 5) == 0 <==> ByteTop(b, 4) == 0 && ByteBit(b, 4) == 0;
    } else if r == 6 {
      assert ByteTop(b, 6) == 0 <==> ByteTop(b, 5) == 0 && ByteBit(b, 5) == 0;
    } else if r == 7 {
      assert ByteTop(b, 7) == 0 <==> ByteTop(b, 6) == 0 && ByteBit(b, 6) == 0;
    } else {
      assert ByteTop(b, 8) == 0 <==> ByteTop(b, 7) == 0 && ByteBit(b, 7) == 0;
    }
  }

  lemma NoBits(b: bv8)
    ensures ByteTop(b, 0) == 0
  {
  }

  lemma AllBits(b: bv8)
    ensures ByteTop(b, 8) == b
  {
  }

  lemma {:induction false} TopMeans(b: bv8, r: nat)
    requires r <= 8
    ensures ByteTop(b, r) == 0 <==> TopZeros(b, r)
  {
    hide ByteTop, ByteBit;
    if r == 0 {
      NoBits(b);
    } else {
      TopMeans(b, r - 1);
      if r <= 4 { LowStep(b, r); } else { HighStep(b, r); }
      assert TopZeros(b, r) <==> TopZeros(b, r - 1) && ByteBit(b, r - 1) == 0;
    }
  }

  // ----- a run of bytes -----

  /** The server's byte-wise test means that the first `bits` bits are zero. */
  lemma BytesMean(d: Octets, bits: nat)
    requires bits < 8 * |d|
    ensures BytesPass(d, bits) <==> LeadingZeros(d, bits)
  {
    hide ByteTop, ByteBit;
    var full, rest := bits / 8, bits % 8;
    TopMeans(d[full], rest);
    NoBits(d[full]);
    if BytesPass(d, bits) {
      forall k | 0 <= k < bits
        ensures ByteBit(d[k / 8], k % 8) == 0
      {
        WholeByte(d[k / 8]);
        assert k / 8 == full ==> k % 8 < rest;
      }
    }
    if LeadingZeros(d, bits) {
      forall i | 0 <= i < full
        ensures d[i] == 0
      {
        WholeByte(d[i]);
        forall k | 0 <= k < 8
          ensures ByteBit(d[i], k) == 0
        {
          assert (8 * i + k) / 8 == i && (8 * i + k) % 8 == k;
        }
      }
      forall k | 0 <= k < rest
        ensures ByteBit(d[full], k) == 0
      {
        assert (8 * full + k) / 8 == full && (8 * full + k) % 8 == k;
      }
    }
  }

  lemma WholeByte(b: bv8)
    ensures b == 0 <==> TopZeros(b, 8)
  {
    hide ByteTop, ByteBit;
    TopMeans(b, 8);
    AllBits(b);
  }

  // ----- one word -----

  predicate OneThen(w: bv32, r: nat)
    requires r <= 8
  {
    WordTop(w, 8 + r) == 0 <==> (w >> 24) as bv8 == 0 && ByteTop(((w >> 16) & 0xff) as bv8, r) == 0
  }

  predicate TwoThen(w: bv32, r: nat)
    requires r <= 8
  {
    WordTop(w, 16 + r) == 0 <==>
      (w >> 24) as bv8 == 0 && ((w >> 16) & 0xff) as bv8 == 0 && ByteTop(((w >> 8) & 0xff) as bv8, r) == 0
  }

  lemma OneAndPart(w: bv32, r: nat)
    requires r <= 7
    ensures OneThen(w, r)
  {
    if r <= 3 {
      if r == 0 {
        assert OneThen(w, 0);
      } else if r == 1 {
        assert OneThen(w, 1);
      } else if r == 2 {
        assert OneThen(w, 2);
      } else {
        assert OneThen(w, 3);
      }
    } else if r == 4 {
      assert OneThen(w, 4);
    } else if r == 5 {
      assert OneThen(w, 5);
    } else if r == 6 {
      assert OneThen(w, 6);
    } else {
      assert OneThen(w, 7);
    }
  }

  lemma TwoAndFew(w: bv32, r: nat)
    requires r <= 4
    ensures TwoThen(w, r)
  {
    if r == 0 {
      assert TwoThen(w, 0);
    } else if r == 1 {
      assert TwoThen(w, 1);
    } else if r == 2 {
      assert TwoThen(w, 2);
    } else if r == 3 {
      assert TwoThen(w, 3);
    } else {
      assert TwoThen(w, 4);
    }
  }

  lemma TwoAndMany(w: bv32, r: nat)
    requires 5 <= r <= 8
    ensures TwoThen(w, r)
  {
    if r == 5 {
      assert TwoThen(w, 5);
    } else if r == 6 {
      assert TwoThen(w, 6);
    } else if r == 7 {
      assert TwoThen(w, 7);
    } else {
      assert TwoThen(w, 8);
    }
  }

  lemma Parts(w: bv32, n: nat)
    requires 8 <= n <= 24
    ensures n < 16 ==> OneThen(w, n - 8)
    ensures n >= 16 ==> TwoThen(w, n - 16)
  {
    hide OneThen, TwoThen;
    if n < 16 {
      OneAndPart(w, n - 8);
    } else if n <= 20 {
      TwoAndFew(w, n - 16);
    } else {
      TwoAndMany(w, n - 16);
    }
  }

  /** Shifting the first word of a digest asks the server's question, for every difficulty the server issues. */
  lemma WordMeansBytes(w: bv32, d: Octets, bits: nat)
    requires |d| == 32 && d[..4] == WordOctets(w)
    requires 8 <= bits <= 24
    ensures WordTop(w, bits) == 0 <==> BytesPass(d, bits)
  {
    hide ByteTop, WordTop;
    Parts(w, bits);
    var o := WordOctets(w);
    assert d[0] == o[0] && d[1] == o[1] && d[2] == o[2] && d[3] == o[3];
    NoBits(d[1]);
    NoBits(d[2]);
    AllBits(d[2]);
  }

  lemma WordMeans(w: bv32, d: Octets, bits: nat)
    requires |d| == 32 && d[..4] == WordOctets(w)
    requires 8 <= bits <= 24
    ensures WordTop(w, bits) == 0 <==> LeadingZeros(d, bits)
  {
    hide WordTop, BytesPass, LeadingZeros, WordOctets;
    WordMeansBytes(w, d, bits);
    BytesMean(d, bits);
  }
}
