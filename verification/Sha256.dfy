/** SHA-256 as sections 5 and 6.2 of FIPS 180-4 define it, over bytes and 32-bit words. */
module Sha256 {

  type Octets = seq<bv8>

  // ----- section 4.1.2 -----

  function Rotr(x: bv32, n: nat): bv32
    requires 0 < n < 32
  {
    (x >> n) | (x << (32 - n))
  }

  function Ch(x: bv32, y: bv32, z: bv32): bv32 {
    (x & y) ^ (!x & z)
  }

  function Maj(x: bv32, y: bv32, z: bv32): bv32 {
    (x & y) ^ (x & z) ^ (y & z)
  }

  function BigSigma0(x: bv32): bv32 {
    Rotr(x, 2) ^ Rotr(x, 13) ^ Rotr(x, 22)
  }

  function BigSigma1(x: bv32): bv32 {
    Rotr(x, 6) ^ Rotr(x, 11) ^ Rotr(x, 25)
  }

  function SmallSigma0(x: bv32): bv32 {
    Rotr(x, 7) ^ Rotr(x, 18) ^ (x >> 3)
  }

  function SmallSigma1(x: bv32): bv32 {
    Rotr(x, 17) ^ Rotr(x, 19) ^ (x >> 10)
  }

  // Section 4.2.2.
  function Constants(): (k: seq<bv32>)
    ensures |k| == 64
  {
    [0x428a2f98, 0x71374491, 0xb5c0fbcf, 0xe9b5dba5, 0x3956c25b, 0x59f111f1,
     0x923f82a4, 0xab1c5ed5, 0xd807aa98, 0x12835b01, 0x243185be, 0x550c7dc3,
     0x72be5d74, 0x80deb1fe, 0x9bdc06a7, 0xc19bf174, 0xe49b69c1, 0xefbe4786,
     0x0fc19dc6, 0x240ca1cc, 0x2de92c6f, 0x4a7484aa, 0x5cb0a9dc, 0x76f988da,
     0x983e5152, 0xa831c66d, 0xb00327c8, 0xbf597fc7, 0xc6e00bf3, 0xd5a79147,
     0x06ca6351, 0x14292967, 0x27b70a85, 0x2e1b2138, 0x4d2c6dfc, 0x53380d13,
     0x650a7354, 0x766a0abb, 0x81c2c92e, 0x92722c85, 0xa2bfe8a1, 0xa81a664b,
     0xc24b8b70, 0xc76c51a3, 0xd192e819, 0xd6990624, 0xf40e3585, 0x106aa070,
     0x19a4c116, 0x1e376c08, 0x2748774c, 0x34b0bcb5, 0x391c0cb3, 0x4ed8aa4a,
     0x5b9cca4f, 0x682e6ff3, 0x748f82ee, 0x78a5636f, 0x84c87814, 0x8cc70208,
     0x90befffa, 0xa4506ceb, 0xbef9a3f7, 0xc67178f2]
  }

  datatype Words = Words(a: bv32, b: bv32, c: bv32, d: bv32, e: bv32, f: bv32, g: bv32, h: bv32)

  // Section 5.3.3.
  function Initial(): Words {
    Words(0x6a09e667, 0xbb67ae85, 0x3c6ef372, 0xa54ff53a, 0x510e527f, 0x9b05688c, 0x1f83d9ab, 0x5be0cd19)
  }

  // ----- section 5.1.1: padding -----

  function Octet(n: nat): bv8 {
    (n % 256) as bv8
  }

  // Big-endian, k bytes.
  function BigEndian(k: nat, n: nat): Octets {
    if k == 0 then [] else BigEndian(k - 1, n / 256) + [Octet(n)]
  }

  function Zeros(n: nat): (z: Octets)
    ensures |z| == n
  {
    seq(n, _ => 0)
  }

  // A one bit, the fewest zero bits that fill the last block, and the length in bits.
  function Padding(size: nat): Octets {
    [0x80] + Zeros((119 - size % 64) % 64) + BigEndian(8, 8 * size)
  }

  function Padded(message: Octets): Octets {
    message + Padding(|message|)
  }

  // ----- section 6.2.2: hashing -----

  function Word(block: Octets, i: nat): bv32
    requires |block| == 64 && i < 16
  {
    var j := 4 * i;
    ((block[j] as bv32) << 24) | ((block[j + 1] as bv32) << 16) | ((block[j + 2] as bv32) << 8) | (block[j + 3] as bv32)
  }

  // W(t) from W(t - 2), W(t - 7), W(t - 15) and W(t - 16).
  function Expand(w2: bv32, w7: bv32, w15: bv32, w16: bv32): bv32 {
    Sum4(SmallSigma1(w2), w7, SmallSigma0(w15), w16)
  }

  // Addition modulo 2^32.
  function Sum4(p: bv32, q: bv32, r: bv32, s: bv32): bv32 {
    p + q + r + s
  }

  function Schedule(block: Octets, t: nat): bv32
    requires |block| == 64 && t < 64
  {
    if t < 16 then Word(block, t)
    else Expand(Schedule(block, t - 2), Schedule(block, t - 7), Schedule(block, t - 15), Schedule(block, t - 16))
  }

  function Sum2(p: bv32, q: bv32): bv32 {
    p + q
  }

  function Sum5(p: bv32, q: bv32, r: bv32, s: bv32, t: bv32): bv32 {
    p + q + r + s + t
  }

  function Turn(w: Words, t1: bv32, t2: bv32): Words {
    Words(Sum2(t1, t2), w.a, w.b, w.c, Sum2(w.d, t1), w.e, w.f, w.g)
  }

  function Round(w: Words, k: bv32, m: bv32): Words {
    Turn(w, Sum5(w.h, BigSigma1(w.e), Ch(w.e, w.f, w.g), k, m), Sum2(BigSigma0(w.a), Maj(w.a, w.b, w.c)))
  }

  function Rounds(w: Words, block: Octets, n: nat): Words
    requires |block| == 64 && n <= 64
  {
    if n == 0 then w else Round(Rounds(w, block, n - 1), Constants()[n - 1], Schedule(block, n - 1))
  }

  function Plus(x: Words, y: Words): Words {
    Words(Sum2(x.a, y.a), Sum2(x.b, y.b), Sum2(x.c, y.c), Sum2(x.d, y.d),
          Sum2(x.e, y.e), Sum2(x.f, y.f), Sum2(x.g, y.g), Sum2(x.h, y.h))
  }

  function Compress(h: Words, block: Octets): Words
    requires |block| == 64
  {
    Plus(Rounds(h, block, 64), h)
  }

  function HashBlocks(h: Words, blocks: Octets): Words
    requires |blocks| % 64 == 0
    decreases |blocks|
  {
    if blocks == [] then h else HashBlocks(Compress(h, blocks[..64]), blocks[64..])
  }

  function WordOctets(w: bv32): (o: Octets)
    ensures |o| == 4
  {
    [(w >> 24) as bv8, ((w >> 16) & 0xff) as bv8, ((w >> 8) & 0xff) as bv8, (w & 0xff) as bv8]
  }

  lemma {:induction false} BigEndianLength(k: nat, n: nat)
    ensures |BigEndian(k, n)| == k
  {
    if k > 0 { BigEndianLength(k - 1, n / 256); }
  }

  lemma PaddingFills(n: nat)
    ensures (n + 1 + (119 - n % 64) % 64 + 8) % 64 == 0
    ensures n <= 55 ==> n + 1 + (119 - n % 64) % 64 + 8 == 64
  {
    var q, r := n / 64, n % 64;
    assert n == 64 * q + r;
    assert (119 - r) % 64 == if r <= 55 then 55 - r else 119 - r;
  }

  lemma PaddedLength(message: Octets)
    ensures |Padded(message)| % 64 == 0
    ensures |message| <= 55 ==> |Padded(message)| == 64
  {
    hide BigEndian, Zeros, Octet;
    var n := |message|;
    BigEndianLength(8, 8 * n);
    PaddingFills(n);
    assert |Padded(message)| == n + 1 + (119 - n % 64) % 64 + 8;
  }

  function Digest(message: Octets): (d: Octets)
    ensures |d| == 32
  {
    PaddedLength(message);
    var h := HashBlocks(Initial(), Padded(message));
    WordOctets(h.a) + WordOctets(h.b) + WordOctets(h.c) + WordOctets(h.d)
      + WordOctets(h.e) + WordOctets(h.f) + WordOctets(h.g) + WordOctets(h.h)
  }

  /** A message of at most 55 bytes is one block. */
  lemma OneBlock(message: Octets)
    requires |message| <= 55
    ensures |Padded(message)| == 64
    ensures Digest(message)[..4] == WordOctets(Compress(Initial(), Padded(message)).a)
  {
    hide Compress, Initial, WordOctets, Padded;
    PaddedLength(message);
    var block := Padded(message);
    assert block[..64] == block && block[64..] == [];
    HashOne(Initial(), block);
  }

  lemma HashOne(h: Words, block: Octets)
    requires |block| == 64
    ensures HashBlocks(h, block) == Compress(h, block)
  {
    hide Compress;
    assert block[..64] == block && block[64..] == [];
  }
}
