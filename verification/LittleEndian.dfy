/** Little-endian integers of four and eight bytes, and the digests that seal images. */
module LittleEndian {
  import opened Bytes

  type Digest = d: Bytes | |d| == 32 witness seq(32, _ => 0)

  // Least significant byte first.
  function Put(n: nat, value: nat): Bytes {
    if n == 0 then [] else [value % 256] + Put(n - 1, value / 256)
  }

  function Get(s: Bytes): nat {
    if s == [] then 0 else s[0] + 256 * Get(s[1..])
  }

  function Pow256(n: nat): nat {
    if n == 0 then 1 else 256 * Pow256(n - 1)
  }

  lemma {:induction false} GetPut(n: nat, value: nat)
    requires value < Pow256(n)
    ensures |Put(n, value)| == n && Get(Put(n, value)) == value
  {
    if n > 0 { GetPut(n - 1, value / 256); }
  }

  lemma {:induction false} GetBound(s: Bytes)
    ensures Get(s) < Pow256(|s|)
  {
    if s != [] { GetBound(s[1..]); }
  }

  lemma Widths()
    ensures Pow256(4) == 0x1_0000_0000 && Pow256(8) == 0x1_0000_0000_0000_0000
  {
    assert Pow256(2) == 65536;
    assert Pow256(4) == 0x1_0000_0000;
    assert Pow256(6) == 0x1_0000_0000_0000;
  }

  // The two widths of the format and what fits in them.
  type Width = w: nat | w == 4 || w == 8 witness 4

  function Limit(w: Width): nat {
    if w == 4 then 0x1_0000_0000 else 0x1_0000_0000_0000_0000
  }

  lemma GetPutWidth(w: Width, value: nat)
    requires value < Limit(w)
    ensures |Put(w, value)| == w && Get(Put(w, value)) == value
  {
    Widths();
    GetPut(w, value);
  }

  lemma GetWidth(w: Width, s: Bytes)
    requires |s| == w
    ensures Get(s) < Limit(w)
  {
    Widths();
    GetBound(s);
  }

  // Integers of one width, one after another.
  function PutMany(w: Width, values: seq<nat>): Bytes {
    if values == [] then [] else Put(w, values[0]) + PutMany(w, values[1..])
  }

  function GetMany(w: Width, s: Bytes): seq<nat> {
    if |s| < w then [] else [Get(s[..w])] + GetMany(w, s[w..])
  }

  lemma {:induction false} GetPutMany(w: Width, values: seq<nat>)
    requires forall i :: 0 <= i < |values| ==> values[i] < Limit(w)
    ensures |PutMany(w, values)| == w * |values|
    ensures GetMany(w, PutMany(w, values)) == values
  {
    if values != [] {
      var head, rest := Put(w, values[0]), PutMany(w, values[1..]);
      GetPutWidth(w, values[0]);
      GetPutMany(w, values[1..]);
      assert w * |values| == w + w * (|values| - 1);
      assert (head + rest)[..w] == head && (head + rest)[w..] == rest;
    }
  }

  lemma {:induction false} GetManyFits(w: Width, count: nat, s: Bytes)
    requires |s| == w * count
    ensures |GetMany(w, s)| == count
    ensures forall i :: 0 <= i < count ==> GetMany(w, s)[i] < Limit(w)
    decreases count
  {
    if count > 0 {
      assert w * count == w + w * (count - 1);
      GetWidth(w, s[..w]);
      GetManyFits(w, count - 1, s[w..]);
    }
  }
}
