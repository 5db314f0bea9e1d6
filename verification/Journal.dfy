/** The consumption journal as bytes: whole 33-byte records, read by the writer
    with fread, replayed by recovery with fgets, appended to and compacted. */
module Journal {
  import opened Ids

  const RECORD := 33
  const SIZE_MAX := 0xFFFF_FFFF_FFFF_FFFF
  const LINE_BUFFER := 128

  datatype Parsed = Malformed | Records(ids: seq<Id>)

  function Record(id: Id): string {
    id + "\n"
  }

  predicate ValidRecord(r: string) {
    |r| == RECORD && r[32] == '\n' && forall i :: 0 <= i < 32 ==> Hex(r[i])
  }

  function Parse(b: string): Parsed {
    if b == "" then Records([])
    else if |b| < RECORD || !ValidRecord(b[..RECORD]) then Malformed
    else match Parse(b[RECORD..])
      case Malformed => Malformed
      case Records(ids) => Records([b[..32]] + ids)
  }

  predicate WellFormed(b: string) {
    Parse(b).Records?
  }

  function IdSet(b: string): set<Id> {
    match Parse(b)
    case Malformed => {}
    case Records(ids) => ToSet(ids)
  }

  function Render(ids: seq<Id>): string {
    if ids == [] then "" else Record(ids[0]) + Render(ids[1..])
  }

  lemma {:induction false} ParseRender(ids: seq<Id>)
    ensures Parse(Render(ids)) == Records(ids) && |Render(ids)| == RECORD * |ids|
  {
    if ids != [] {
      ParseRender(ids[1..]);
      var b := Render(ids);
      assert b[..32] == ids[0] && b[RECORD..] == Render(ids[1..]);
      assert b[..RECORD] == Record(ids[0]);
    }
  }

  lemma {:induction false} RenderParse(b: string)
    requires WellFormed(b)
    ensures Render(Parse(b).ids) == b
  {
    if b != "" {
      RenderParse(b[RECORD..]);
      assert b == b[..32] + "\n" + b[RECORD..];
    }
  }

  // What is parsed of a file whose first records hold `ids`.
  function After(ids: seq<Id>, rest: Parsed): Parsed {
    match rest
    case Malformed => Malformed
    case Records(more) => Records(ids + more)
  }

  lemma ParseStep(b: string)
    requires b != ""
    ensures Parse(b) ==
      if |b| < RECORD || !ValidRecord(b[..RECORD]) then Malformed else After([b[..32]], Parse(b[RECORD..]))
  {
  }

  lemma {:induction false} ParseConcat(a: string, b: string)
    requires WellFormed(a)
    ensures Parse(a + b) == After(Parse(a).ids, Parse(b))
  {
    if a == "" {
      assert a + b == b;
      assert Parse(b).Records? ==> [] + Parse(b).ids == Parse(b).ids;
    } else {
      ParseConcat(a[RECORD..], b);
      FirstRecord(a, b);
      AfterAfter([a[..32]], Parse(a[RECORD..]).ids, Parse(b));
    }
  }

  lemma FirstRecord(a: string, b: string)
    requires WellFormed(a) && a != ""
    ensures |a| >= RECORD && WellFormed(a[RECORD..]) && IsId(a[..32])
    ensures Parse(a).ids == [a[..32]] + Parse(a[RECORD..]).ids
    ensures Parse(a + b) == After([a[..32]], Parse(a[RECORD..] + b))
  {
    ParseStep(a);
    ParseStep(a + b);
    assert (a + b)[..RECORD] == a[..RECORD] && (a + b)[RECORD..] == a[RECORD..] + b;
    assert (a + b)[..32] == a[..32];
  }

  lemma AfterAfter(first: seq<Id>, more: seq<Id>, rest: Parsed)
    ensures After(first, After(more, rest)) == After(first + more, rest)
  {
    if rest.Records? {
      assert first + (more + rest.ids) == (first + more) + rest.ids;
    }
  }

  lemma ParseOne(id: Id)
    ensures Parse(Record(id)) == Records([id])
  {
    var b := Record(id);
    assert b[..RECORD] == b && b[RECORD..] == "" && b[..32] == id;
  }

  /** A completed append adds exactly its id to whatever was journaled. */
  lemma AppendedIds(b: string, id: Id)
    requires WellFormed(b)
    ensures WellFormed(b + Record(id)) && IdSet(b + Record(id)) == IdSet(b) + {id}
  {
    ParseOne(id);
    ParseConcat(b, Record(id));
  }

  /** A torn append leaves a journal that every reader rejects. */
  lemma TornRejected(b: string, id: Id, k: nat)
    requires WellFormed(b) && 0 < k < RECORD
    ensures !WellFormed(b + Record(id)[..k])
  {
    ParseConcat(b, Record(id)[..k]);
  }

  lemma {:induction false} LengthOf(b: string)
    requires WellFormed(b)
    ensures |b| == RECORD * |Parse(b).ids|
  {
    if b != "" { LengthOf(b[RECORD..]); }
  }

  /** scan_journal: whole records only, counting bytes. */
  method ScanJournal(file: string) returns (ok: bool, bytes: nat)
    ensures ok <==> WellFormed(file) && |file| <= SIZE_MAX
    ensures ok ==> bytes == |file|
  {
    bytes := 0;
    while bytes < |file|
      invariant bytes <= |file| && bytes <= SIZE_MAX
      invariant WellFormed(file) <==> WellFormed(file[bytes..])
    {
      var amount := if |file| - bytes < RECORD then |file| - bytes else RECORD;
      var record := file[bytes..bytes + amount];
      if amount != RECORD || !ValidRecord(record) {
        assert record == file[bytes..][..amount];
        return false, bytes;
      }
      if bytes > SIZE_MAX - RECORD { return false, bytes; }
      assert record == file[bytes..][..RECORD];
      assert file[bytes..][RECORD..] == file[bytes + RECORD..];
      bytes := bytes + RECORD;
    }
    ok := true;
  }

  // fgets(line, 128): up to 127 characters, ending after the first newline.
  function LineLength(b: string, limit: nat): (n: nat)
    ensures n <= |b| && n <= limit
    ensures forall i :: 0 <= i < n - 1 ==> b[i] != '\n'
    ensures n < |b| && n < limit ==> n > 0 && b[n - 1] == '\n'
  {
    if b == "" || limit == 0 then 0
    else if b[0] == '\n' then 1
    else 1 + LineLength(b[1..], limit - 1)
  }

  // strlen: everything before the first NUL.
  function Strlen(line: string): (n: nat)
    ensures n <= |line|
    ensures forall i :: 0 <= i < n ==> line[i] != '\0'
    ensures n < |line| ==> line[n] == '\0'
  {
    if line == "" || line[0] == '\0' then 0 else 1 + Strlen(line[1..])
  }

  // The replay's own test for one line, before the digits are looked at.
  predicate LineShaped(line: string) {
    Strlen(line) == RECORD && line[32] == '\n'
  }

  predicate GoodLine(line: string) {
    LineShaped(line) && forall i :: 0 <= i < 32 ==> Hex(line[i])
  }

  lemma FirstLine(b: string)
    requires b != ""
    ensures var n := LineLength(b, LINE_BUFFER - 1);
      && n > 0
      && (GoodLine(b[..n]) <==> |b| >= RECORD && ValidRecord(b[..RECORD]))
      && (LineShaped(b[..n]) ==> n == RECORD)
  {
    var n := LineLength(b, LINE_BUFFER - 1);
    if LineShaped(b[..n]) {
      assert b[..n][32] == b[32];
    }
    if |b| >= RECORD && ValidRecord(b[..RECORD]) {
      assert b[..RECORD][32] == b[32];
      assert forall i :: 0 <= i < 32 ==> b[..RECORD][i] == b[i];
      assert n == RECORD;
      assert forall i :: 0 <= i < RECORD ==> b[..n][i] != '\0';
    }
  }

  // The saved POSTs that recovery keeps from an image under a journal.
  function Recovered(saved: set<Id>, journal: string): set<Id> {
    if WellFormed(journal) then saved - IdSet(journal) else {}
  }

  // The ids of the good records before the first bad line.
  function LeadingIds(b: string): seq<Id> {
    if |b| < RECORD || !ValidRecord(b[..RECORD]) then [] else [b[..32]] + LeadingIds(b[RECORD..])
  }

  lemma {:induction false} LeadingIsAll(b: string)
    requires WellFormed(b)
    ensures LeadingIds(b) == Parse(b).ids
  {
    if b != "" { LeadingIsAll(b[RECORD..]); }
  }

  // What the next line says: a good one adds its id, a bad one ends the list.
  lemma NextLine(read: seq<Id>, b: string)
    requires b != ""
    ensures var n := LineLength(b, LINE_BUFFER - 1);
      && n > 0
      && (LineShaped(b[..n]) ==> n == RECORD)
      && (GoodLine(b[..n]) ==>
            && read + LeadingIds(b) == read + [b[..32]] + LeadingIds(b[n..])
            && (WellFormed(b) <==> WellFormed(b[n..])))
      && (!GoodLine(b[..n]) ==> read + LeadingIds(b) == read && !WellFormed(b))
  {
    FirstLine(b);
    var n := LineLength(b, LINE_BUFFER - 1);
    if GoodLine(b[..n]) {
      assert n == RECORD;
      assert LeadingIds(b) == [b[..32]] + LeadingIds(b[n..]);
    }
  }

  datatype WriteAnswer = Interrupted | Failed | Wrote(amount: nat)

  // What the system calls after the write loop answer.
  datatype CloseAnswers = CloseAnswers(
    fileSynced: bool, parentSynced: bool, truncated: bool, truncateSynced: bool, closed: bool)

  // How much of the record may be in the file for each result of an append.
  predicate AppendOutcome(result: int, k: nat) {
    || (result == 0 && k == RECORD)
    || (result == -1 && (k == 0 || k == RECORD))
    || (result == -2 && k <= RECORD)
  }

  /** append_consumption: the write loop, the two syncs and the rollback, against
      any answers from the system. Answers that run out count as a failed write. */
  method AppendConsumption(file: string, id: Id, ready: bool, answers: seq<WriteAnswer>,
                           close: CloseAnswers)
    returns (result: int, after: string)
    ensures exists k :: 0 <= k <= RECORD && AppendOutcome(result, k) && after == file + Record(id)[..k]
    ensures result == 0 ==> close.fileSynced && close.parentSynced && close.closed
  {
    if !ready { assert AppendOutcome(-1, 0) && file == file + Record(id)[..0]; return -1, file; }
    var used, next := 0, 0;
    result := 0;
    while result == 0 && used < RECORD
      invariant 0 <= used <= RECORD && 0 <= next <= |answers|
      invariant result == 0 || result == -1
      decreases if result == 0 then 1 else 0, |answers| - next
    {
      var answer := if next < |answers| then answers[next] else Failed;
      if next < |answers| { next := next + 1; }
      match answer
      case Interrupted =>
      case Failed => result := -1;
      case Wrote(amount) =>
        if amount == 0 { result := -1; }
        else { used := if amount > RECORD - used then RECORD else used + amount; }
    }
    ghost var k := used;
    after := file + Record(id)[..used];
    if result == 0 && !close.fileSynced { result := -1; }
    if result == 0 && !close.parentSynced { result := -1; }
    if result != 0 && used > 0 {
      if close.truncated { after, k := file, 0; assert file == file + Record(id)[..0]; }
      if !close.truncated || !close.truncateSynced { result := -2; }
    }
    if !close.closed && result != -2 { result := -1; }
    assert AppendOutcome(result, k) && after == file + Record(id)[..k];
  }

  // The ids of `ids` that are marked.
  function Marked(ids: seq<Id>, seen: seq<bool>): seq<Id>
    requires |ids| == |seen|
  {
    if ids == [] then []
    else (if seen[0] then [ids[0]] else []) + Marked(ids[1..], seen[1..])
  }

  lemma {:induction false} MarkedMembers(ids: seq<Id>, seen: seq<bool>)
    requires |ids| == |seen|
    ensures forall x :: x in Marked(ids, seen) <==> exists i :: 0 <= i < |ids| && seen[i] && ids[i] == x
  {
    if ids != [] {
      MarkedMembers(ids[1..], seen[1..]);
      var tail := Marked(ids[1..], seen[1..]);
      forall x ensures x in Marked(ids, seen) <==> exists i :: 0 <= i < |ids| && seen[i] && ids[i] == x {
        if x in tail {
          var i :| 0 <= i < |ids| - 1 && seen[1..][i] && ids[1..][i] == x;
          assert seen[i + 1] && ids[i + 1] == x;
        }
        if i :| 0 <= i < |ids| && seen[i] && ids[i] == x {
          if i > 0 { assert seen[1..][i - 1] && ids[1..][i - 1] == x; }
        }
      }
    }
  }

  lemma MarkedHead(ids: seq<Id>, seen: seq<bool>)
    requires |ids| == |seen| > 0
    ensures Marked(ids, seen) == (if seen[0] then [ids[0]] else []) + Marked(ids[1..], seen[1..])
  {
  }

  // The tail of a beginning is a beginning of the tail.
  lemma TailOfStart<T>(s: seq<T>, n: nat)
    requires 0 < n < |s|
    ensures s[..n + 1][1..] == s[1..][..n] && s[..n][1..] == s[1..][..n - 1]
    ensures s[..n + 1][0] == s[..n][0] == s[0] && s[1..][n - 1] == s[n]
  {
  }

  lemma MarkedOne(ids: seq<Id>, seen: seq<bool>)
    requires |ids| == |seen| > 0
    ensures Marked(ids[..1], seen[..1]) == if seen[0] then [ids[0]] else []
    ensures Marked(ids[..0], seen[..0]) == []
  {
    MarkedHead(ids[..1], seen[..1]);
  }

  lemma {:induction false} MarkedSnoc(ids: seq<Id>, seen: seq<bool>, n: nat)
    requires |ids| == |seen| && n < |ids|
    ensures Marked(ids[..n + 1], seen[..n + 1]) ==
      Marked(ids[..n], seen[..n]) + if seen[n] then [ids[n]] else []
  {
    hide Marked;
    if n == 0 {
      MarkedOne(ids, seen);
    } else {
      MarkedSnoc(ids[1..], seen[1..], n - 1);
      MarkedHead(ids[..n + 1], seen[..n + 1]);
      MarkedHead(ids[..n], seen[..n]);
      TailOfStart(ids, n);
      TailOfStart(seen, n);
    }
  }

  lemma {:induction false} RenderConcat(a: seq<Id>, b: seq<Id>)
    ensures Render(a + b) == Render(a) + Render(b)
  {
    if a == [] {
      assert a + b == b;
    } else {
      RenderConcat(a[1..], b);
      assert (a + b)[1..] == a[1..] + b;
    }
  }

  // The ids a compaction keeps, in the order it writes them.
  lemma KeptIds(ids: seq<Id>, seen: seq<bool>, journal: set<Id>)
    requires |ids| == |seen|
    requires forall i :: 0 <= i < |ids| ==> (seen[i] <==> ids[i] in journal)
    ensures ToSet(Marked(ids, seen)) == journal * ToSet(ids)
  {
    MarkedMembers(ids, seen);
    forall x | x in journal * ToSet(ids) ensures x in Marked(ids, seen) {
      var i :| 0 <= i < |ids| && ids[i] == x;
    }
  }

  /** The read loop of compact_journal: mark every retained id the journal names. */
  method MarkSeen(journal: string, retained: array<Id>, count: nat, seen: array<bool>)
    returns (ok: bool, sourceBytes: nat)
    requires count <= retained.Length && count == seen.Length && Strict(retained[..count])
    requires forall i :: 0 <= i < count ==> !seen[i]
    modifies seen
    ensures ok <==> WellFormed(journal) && |journal| <= SIZE_MAX
    ensures ok ==> sourceBytes == |journal|
    ensures ok ==> forall i :: 0 <= i < count ==> (seen[i] <==> retained[i] in IdSet(journal))
  {
    sourceBytes := 0;
    ghost var read: seq<Id> := [];
    while sourceBytes < |journal|
      invariant sourceBytes <= |journal| && sourceBytes <= SIZE_MAX
      invariant Parse(journal) == After(read, Parse(journal[sourceBytes..]))
      invariant forall i :: 0 <= i < count ==> (seen[i] <==> retained[i] in read)
    {
      ghost var rest := journal[sourceBytes..];
      var amount := if |journal| - sourceBytes < RECORD then |journal| - sourceBytes else RECORD;
      var record := journal[sourceBytes..sourceBytes + amount];
      assert record == rest[..amount];
      if amount != RECORD || !ValidRecord(record) || sourceBytes > SIZE_MAX - RECORD {
        return false, sourceBytes;
      }
      var key := record[..32];
      assert key == rest[..32] && rest[RECORD..] == journal[sourceBytes + RECORD..];
      AfterStep(read, key, Parse(rest[RECORD..]));
      var found, at := Search(retained, count, key);
      if found {
        StrictDistinct(retained[..count], at);
        seen[at] := true;
      } else {
        assert forall i :: 0 <= i < count ==> retained[..count][i] != key;
      }
      read := read + [key];
      sourceBytes := sourceBytes + RECORD;
    }
    ok := true;
  }

  lemma AfterStep(read: seq<Id>, id: Id, rest: Parsed)
    ensures After(read, After([id], rest)) == After(read + [id], rest)
  {
    if rest.Records? {
      assert read + ([id] + rest.ids) == read + [id] + rest.ids;
    }
  }

  lemma StrictDistinct(s: seq<Id>, at: nat)
    requires Strict(s) && at < |s|
    ensures forall i :: 0 <= i < |s| && i != at ==> s[i] != s[at]
  {
    CompareZero(s[at], s[at]);
  }

  /** The write loop of compact_journal: the marked ids in order, one record each. */
  method WriteMarked(retained: array<Id>, count: nat, seen: array<bool>) returns (data: string)
    requires count <= retained.Length && count == seen.Length
    ensures data == Render(Marked(retained[..count], seen[..count]))
  {
    data := "";
    for i := 0 to count
      invariant data == Render(Marked(retained[..i], seen[..i]))
    {
      MarkedSnoc(retained[..count], seen[..count], i);
      ghost var before := Marked(retained[..i], seen[..i]);
      assert retained[..count][..i + 1] == retained[..i + 1] && seen[..count][..i + 1] == seen[..i + 1];
      assert retained[..count][..i] == retained[..i] && seen[..count][..i] == seen[..i];
      if seen[i] {
        RenderConcat(before, [retained[i]]);
        assert Render([retained[i]]) == Record(retained[i]);
        data := data + Record(retained[i]);
      } else {
        assert before + [] == before;
      }
    }
  }

  // What a compaction retaining `keep` makes of a journal.
  ghost predicate CompactedTo(journal: string, keep: set<Id>, after: string) {
    && WellFormed(journal)
    && WellFormed(after)
    && IdSet(after) == IdSet(journal) * keep
    && NoRepeats(Parse(after).ids)
  }

  predicate NoRepeats(s: seq<Id>) {
    forall i, j :: 0 <= i < j < |s| ==> s[i] != s[j]
  }

  lemma {:induction false} SetSizes(s: seq<Id>)
    ensures |ToSet(s)| <= |s|
    ensures NoRepeats(s) ==> |ToSet(s)| == |s|
  {
    if s != [] {
      SetSizes(s[1..]);
      assert ToSet(s) == ToSet(s[1..]) + {s[0]};
    } else {
      assert ToSet(s) == {};
    }
  }

  /** A compacted journal is never longer, and one of the same length lost nothing:
      that is why compact_journal may then leave the file alone. */
  lemma CompactedLength(journal: string, keep: set<Id>, after: string)
    requires CompactedTo(journal, keep, after)
    ensures |after| <= |journal|
    ensures |after| == |journal| ==> IdSet(after) == IdSet(journal) <= keep
  {
    LengthOf(journal);
    LengthOf(after);
    SetSizes(Parse(journal).ids);
    SetSizes(Parse(after).ids);
    assert IdSet(journal) == IdSet(after) + (IdSet(journal) - IdSet(after));
  }

  lemma {:induction false} MarkedStrict(ids: seq<Id>, seen: seq<bool>)
    requires |ids| == |seen| && Strict(ids)
    ensures NoRepeats(Marked(ids, seen))
  {
    if ids != [] {
      MarkedStrict(ids[1..], seen[1..]);
      MarkedMembers(ids[1..], seen[1..]);
      CompareZero(ids[0], ids[0]);
      var tail := Marked(ids[1..], seen[1..]);
      forall j | 0 <= j < |tail| ensures tail[j] != ids[0] {
        assert tail[j] in tail;
        var i :| 0 <= i < |ids| - 1 && ids[1..][i] == tail[j];
        assert Less(ids[0], ids[i + 1]);
      }
    }
  }

  lemma CompactedRender(journal: string, ids: seq<Id>, seen: seq<bool>, keep: set<Id>)
    requires WellFormed(journal) && |ids| == |seen| && ToSet(ids) == keep && Strict(ids)
    requires forall i :: 0 <= i < |ids| ==> (seen[i] <==> ids[i] in IdSet(journal))
    ensures CompactedTo(journal, keep, Render(Marked(ids, seen)))
  {
    KeptIds(ids, seen, IdSet(journal));
    MarkedStrict(ids, seen);
    ParseRender(Marked(ids, seen));
  }

  /** The body of compact_journal between its two critical sections: gather the
      slot ids and the pending ids, sort, mark, and write the survivors. */
  method CompactBytes(journal: string, slot0: seq<Id>, slot1: seq<Id>, pending: seq<Id>)
    returns (ok: bool, sourceBytes: nat, data: string)
    ensures ok <==> WellFormed(journal) && |journal| <= SIZE_MAX
    ensures ok ==> sourceBytes == |journal|
    ensures ok ==> CompactedTo(journal, ToSet(slot0) + ToSet(slot1) + ToSet(pending), data)
  {
    var all := slot0 + slot1 + pending;
    var retained := new Id[|all|](i requires 0 <= i < |all| => all[i]);
    assert retained[..] == all;
    var count := SortIds(retained, |all|);
    ghost var keep := ToSet(slot0) + ToSet(slot1) + ToSet(pending);
    assert ToSet(retained[..count]) == keep by {
      assert forall y :: y in all <==> y in slot0 || y in slot1 || y in pending;
      assert retained[..|all|] == retained[..];
    }
    var seen := new bool[count](_ => false);
    ok, sourceBytes := MarkSeen(journal, retained, count, seen);
    data := "";
    if ok {
      data := WriteMarked(retained, count, seen);
      assert seen[..count] == seen[..];
      CompactedRender(journal, retained[..count], seen[..], keep);
    }
  }
}
