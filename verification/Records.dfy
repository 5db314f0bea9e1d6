/** Statistics records: 45 unsigned 64-bit fields that merge by wrapping addition
    or, for the peak fields, by maximum. */
module Records {

  const FIELDS := 45
  const U64 := 0x1_0000_0000_0000_0000

  type Word = w: nat | w < U64

  type Record = r: seq<Word> | |r| == FIELDS witness seq(FIELDS, _ => 0)

  // The MAX entries of the field list, by wire position.
  predicate IsMax(field: nat) {
    field in {7, 29, 30, 31, 37, 38, 39}
  }

  function Zero(): Record {
    seq(FIELDS, _ => 0)
  }

  function MergeField(field: nat, into: Word, from: Word): Word {
    if IsMax(field) then (if from > into then from else into) else (into + from) % U64
  }

  function Merge(into: Record, from: Record): Record {
    seq(FIELDS, i requires 0 <= i < FIELDS => MergeField(i, into[i], from[i]))
  }

  lemma MergeZero(a: Record)
    ensures Merge(a, Zero()) == a && Merge(Zero(), a) == a
  {
  }

  lemma MergeFieldAssociative(i: nat, a: Word, b: Word, c: Word)
    ensures MergeField(i, MergeField(i, a, b), c) == MergeField(i, a, MergeField(i, b, c))
  {
    var ab, bc := (a + b) % U64, (b + c) % U64;
    assert ab == a + b || ab == a + b - U64;
    assert bc == b + c || bc == b + c - U64;
  }

  lemma MergeAssociative(a: Record, b: Record, c: Record)
    ensures Merge(Merge(a, b), c) == Merge(a, Merge(b, c))
  {
    forall i | 0 <= i < FIELDS ensures Merge(Merge(a, b), c)[i] == Merge(a, Merge(b, c))[i] {
      MergeFieldAssociative(i, a[i], b[i], c[i]);
    }
  }

  lemma MergeCommutes(a: Record, b: Record)
    ensures Merge(a, b) == Merge(b, a)
  {
  }

  /** The merge loop of stats.c. */
  method MergeInto(into: array<Word>, from: Record)
    requires into.Length == FIELDS
    modifies into
    ensures into[..] == Merge(old(into[..]), from)
  {
    for i := 0 to FIELDS
      invariant forall k :: 0 <= k < i ==> into[k] == MergeField(k, old(into[k]), from[k])
      invariant forall k :: i <= k < FIELDS ==> into[k] == old(into[k])
    {
      if IsMax(i) {
        if from[i] > into[i] { into[i] := from[i]; }
      } else {
        into[i] := (into[i] + from[i]) % U64;
      }
    }
  }

  // Everything in a stretch of records, merged oldest first.
  function Total(s: seq<Record>): Record {
    if s == [] then Zero() else Merge(Total(s[..|s| - 1]), s[|s| - 1])
  }

  lemma TotalSnoc(s: seq<Record>, r: Record)
    ensures Total(s + [r]) == Merge(Total(s), r)
  {
    assert (s + [r])[..|s|] == s;
  }

  lemma {:induction false} TotalConcat(a: seq<Record>, b: seq<Record>)
    ensures Total(a + b) == Merge(Total(a), Total(b))
    decreases |b|
  {
    if b == [] {
      assert a + b == a;
      MergeZero(Total(a));
    } else {
      var init, last := b[..|b| - 1], b[|b| - 1];
      assert a + b == (a + init) + [last];
      TotalSnoc(a + init, last);
      TotalConcat(a, init);
      MergeAssociative(Total(a), Total(init), last);
    }
  }

  function Zeros(n: nat): seq<Record> {
    seq(n, _ => Zero())
  }

  lemma {:induction false} TotalZeros(s: seq<Record>)
    requires forall i :: 0 <= i < |s| ==> s[i] == Zero()
    ensures Total(s) == Zero()
  {
    if s != [] {
      TotalZeros(s[..|s| - 1]);
      MergeZero(Zero());
    }
  }

  // One counted event as a record of its own.
  function Delta(field: nat, amount: Word): Record {
    seq(FIELDS, i => if i == field then amount else 0)
  }

  // ankah_stats_add and ankah_stats_max touch one field of a record.
  function AddTo(r: Record, field: nat, amount: Word): Record
    requires field < FIELDS
  {
    r[field := (r[field] + amount) % U64]
  }

  function RaiseTo(r: Record, field: nat, value: Word): Record
    requires field < FIELDS
  {
    if value > r[field] then r[field := value] else r
  }

  lemma AddIsMerge(r: Record, field: nat, amount: Word)
    requires field < FIELDS && !IsMax(field)
    ensures AddTo(r, field, amount) == Merge(r, Delta(field, amount))
  {
  }

  lemma RaiseIsMerge(r: Record, field: nat, value: Word)
    requires field < FIELDS && IsMax(field)
    ensures RaiseTo(r, field, value) == Merge(r, Delta(field, value))
  {
  }
}
