/** The loops of the statistics codec: bytes written and read one at a time, the
    totals check field by field, and the choice between the two snapshot slots. */
module StatsFile {
  import opened Options
  import opened Bytes
  import opened LittleEndian
  import opened Records
  import opened History
  import opened Codec

  // ----- writing -----

  /** put_u32 and put_u64 */
  method PutInt(n: nat, value: nat) returns (bytes: Bytes)
    ensures bytes == Put(n, value)
  {
    bytes := [];
    var rest := value;
    for i := 0 to n
      invariant bytes + Put(n - i, rest) == Put(n, value)
    {
      bytes, rest := bytes + [rest % 256], rest / 256;
    }
  }

  method PutInts(w: Width, values: seq<nat>) returns (bytes: Bytes)
    ensures bytes == PutMany(w, values)
  {
    bytes := [];
    for i := 0 to |values|
      invariant bytes + PutMany(w, values[i..]) == PutMany(w, values)
    {
      var one := PutInt(w, values[i]);
      bytes := bytes + one;
      assert values[i..][1..] == values[i + 1..];
    }
  }

  lemma {:induction false} PutRowsSnoc(rows: seq<Record>, row: Record)
    ensures PutRows(rows + [row]) == PutRows(rows) + PutMany(8, row)
  {
    if rows != [] {
      PutRowsSnoc(rows[1..], row);
      assert (rows + [row])[1..] == rows[1..] + [row];
    } else {
      assert [row][1..] == [];
    }
  }

  lemma PutRowsNext(rows: seq<Record>, i: nat)
    requires i < |rows|
    ensures PutRows(rows[..i + 1]) == PutRows(rows[..i]) + PutMany(8, rows[i])
  {
    PutRowsSnoc(rows[..i], rows[i]);
    assert rows[..i + 1] == rows[..i] + [rows[i]];
  }

  // ----- reading -----

  lemma {:induction false} GetSnoc(s: Bytes, b: Byte)
    ensures Get(s + [b]) == Get(s) + b * Pow256(|s|)
  {
    if s == [] {
      assert [b][1..] == [];
    } else {
      GetSnoc(s[1..], b);
      assert (s + [b])[1..] == s[1..] + [b];
    }
  }

  /** get_u32 and get_u64: each byte is shifted into place. */
  method GetInt(data: Bytes, cursor: nat, n: nat) returns (value: nat, next: nat)
    requires cursor + n <= |data|
    ensures value == Get(data[cursor..cursor + n]) && next == cursor + n
  {
    value := 0;
    var unit: nat := 1;
    for i := 0 to n
      invariant value == Get(data[cursor..cursor + i]) && unit == Pow256(i)
    {
      GetSnoc(data[cursor..cursor + i], data[cursor + i]);
      assert data[cursor..cursor + i + 1] == data[cursor..cursor + i] + [data[cursor + i]];
      value, unit := value + data[cursor + i] * unit, 256 * unit;
    }
    next := cursor + n;
  }

  // ----- the totals check -----

  // One field of the total, merged row by row.
  function FieldTotal(s: seq<Record>, field: nat): Word
    requires field < FIELDS
  {
    if s == [] then 0 else MergeField(field, FieldTotal(s[..|s| - 1], field), s[|s| - 1][field])
  }

  lemma {:induction false} TotalField(s: seq<Record>, field: nat)
    requires field < FIELDS
    ensures Total(s)[field] == FieldTotal(s, field)
  {
    if s != [] { TotalField(s[..|s| - 1], field); }
  }

  lemma FieldTotalSnoc(s: seq<Record>, r: Record, field: nat)
    requires field < FIELDS
    ensures FieldTotal(s + [r], field) == MergeField(field, FieldTotal(s, field), r[field])
  {
    assert (s + [r])[..|s|] == s;
  }

  method SumField(v: View, field: nat) returns (total: Word)
    requires field < FIELDS
    ensures total == FieldTotal([v.evicted, v.day] + v.days, field)
  {
    total := v.evicted[field];
    if IsMax(field) {
      if v.day[field] > total { total := v.day[field]; }
    } else {
      total := (total + v.day[field]) % U64;
    }
    ghost var start := total;
    for row := 0 to |v.days|
      invariant total == Onward(field, start, v.days[..row])
    {
      assert v.days[..row + 1] == v.days[..row] + [v.days[row]];
      if IsMax(field) {
        if v.days[row][field] > total { total := v.days[row][field]; }
      } else {
        total := (total + v.days[row][field]) % U64;
      }
    }
    assert v.days[..|v.days|] == v.days;
    OnwardTotal(field, v.evicted, v.day, v.days);
  }

  function Onward(field: nat, start: Word, rows: seq<Record>): Word
    requires field < FIELDS
  {
    if rows == [] then start
    else MergeField(field, Onward(field, start, rows[..|rows| - 1]), rows[|rows| - 1][field])
  }

  lemma {:induction false} OnwardTotal(field: nat, a: Record, b: Record, rows: seq<Record>)
    requires field < FIELDS
    ensures Onward(field, MergeField(field, a[field], b[field]), rows) == FieldTotal([a, b] + rows, field)
  {
    if rows == [] {
      assert [a, b] + rows == [a] + [b] && [a] == [] + [a];
      FieldTotalSnoc([a], b, field);
      FieldTotalSnoc([], a, field);
    } else {
      var init, last := rows[..|rows| - 1], rows[|rows| - 1];
      OnwardTotal(field, a, b, init);
      assert [a, b] + rows == ([a, b] + init) + [last];
      FieldTotalSnoc([a, b] + init, last, field);
    }
  }

  /** totals_valid */
  method CheckTotals(v: View) returns (ok: bool)
    ensures ok <==> TotalsValid(v)
  {
    if v.hourIndex < v.epoch / 3600 || v.dayIndex < v.epoch / 86400 { return false; }
    if |v.hours| != (if v.hourIndex - v.epoch / 3600 < HOURS then v.hourIndex - v.epoch / 3600 else HOURS) {
      return false;
    }
    var elapsed := v.dayIndex - v.epoch / 86400;
    if v.evictedDays > elapsed || |v.days| != elapsed - v.evictedDays { return false; }
    ghost var all := Total([v.evicted, v.day] + v.days);
    for field := 0 to FIELDS
      invariant forall k :: 0 <= k < field ==> all[k] == v.cumulative[k]
    {
      var total := SumField(v, field);
      TotalField([v.evicted, v.day] + v.days, field);
      if total != v.cumulative[field] { return false; }
    }
    ok := true;
  }

  // ----- recovery -----

  /** ankah_stats_restore's choice: the newer of the valid snapshots. */
  function Newest(slot0: Option<Decoded>, slot1: Option<Decoded>): Option<Decoded> {
    if slot0.Some? && slot1.Some? then
      if slot1.value.generation > slot0.value.generation then slot1 else slot0
    else if slot0.Some? then slot0
    else slot1
  }

  function Restored(slot0: Option<Decoded>, slot1: Option<Decoded>, wall: nat): View {
    match Newest(slot0, slot1)
    case None => Init(wall)
    case Some(chosen) => Roll(chosen.view, wall)
  }

  // What a decoder accepted fits the rings.
  lemma DecodedFits(data: Bytes, sha: Bytes -> Digest)
    requires Decode(data, sha).Some?
    ensures var v := Decode(data, sha).value.view; |v.hours| <= HOURS && |v.days| <= DAYS && TotalsValid(v)
  {
  }

  lemma NewestWins(newer: Decoded, other: Option<Decoded>)
    requires other.Some? ==> other.value.generation < newer.generation
    ensures Newest(Some(newer), other) == Newest(other, Some(newer)) == Some(newer)
  {
  }

  lemma PerformedSnoc(v: View, ops: seq<Op>, op: Op)
    ensures Performed(v, ops + [op]) == Perform(Performed(v, ops), op)
  {
    assert (ops + [op])[..|ops|] == ops;
  }

  /** A restart is invisible to the statistics: restoring the newer of two snapshots of
      a history, whatever the other slot holds, continues that history exactly. */
  lemma RestartContinues(epoch: nat, ops: seq<Op>, generation: nat, saved: nat, other: Option<Decoded>,
                         wall: nat, sha: Bytes -> Digest)
    requires forall i :: 0 <= i < |ops| ==> ProperOp(ops[i])
    requires 0 < generation < U64 && saved < U64 && epoch < U64
    requires Performed(Init(epoch), ops).hourIndex < U64
    requires other.Some? ==> other.value.generation < generation
    ensures var image := Decode(Encode(Performed(Init(epoch), ops), generation, saved, sha), sha);
      Restored(image, other, wall) == Restored(other, image, wall) == Performed(Init(epoch), ops + [Rolling(wall)])
  {
    AnySnapshotRestores(epoch, ops, generation, saved, sha);
    var v := Performed(Init(epoch), ops);
    NewestWins(Decoded(v, generation), other);
    PerformedSnoc(Init(epoch), ops, Rolling(wall));
  }
}
