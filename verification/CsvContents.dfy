/**
 * Which rows the CSV export has: every hour and every day that the history still holds, row by row, so that no detail
 * is given up except the hours of the one day that the oldest held hour cuts.
 */
module CsvContents {
  import opened Records
  import opened History
  import opened Csv

  predicate HourHeld(v: View, k: nat) {
    v.hourIndex - |v.hours| <= k < v.hourIndex
  }

  predicate DayHeld(v: View, d: nat) {
    v.dayIndex - |v.days| <= d < v.dayIndex
  }

  // An hour of the day that lost its first hours, when the completed days still hold that day.
  predicate Cut(v: View, k: nat) {
    var first := v.hourIndex - |v.hours|;
    first % 24 != 0 && k / 24 == first / 24 && DayHeld(v, k / 24)
  }

  function HourOf(epoch: nat, log: Log, k: nat): Row
    requires epoch / 3600 <= k < epoch / 3600 + |log|
  {
    Row(HourKind, Max(3600 * k, epoch), 3600 * (k + 1), false, 1, log[k - epoch / 3600])
  }

  function DayOf(epoch: nat, log: Log, d: nat): Row {
    Row(DayKind, Max(86400 * d, epoch), 86400 * (d + 1), false, 1, DayRange(log, epoch / 3600, d))
  }

  function OldDays(epoch: nat, log: Log, first: nat): Row {
    Row(AggregateDays, epoch, 86400 * first, false, Max(first, epoch / 86400) - epoch / 86400,
        Range(log, epoch / 3600, 0, 24 * first))
  }

  // What of its kind the export lists.
  ghost predicate HourListed(v: View, epoch: nat, log: Log, row: Row) {
    exists k: nat ::
      HourHeld(v, k) && epoch / 3600 <= k < epoch / 3600 + |log| && !Cut(v, k) && row == HourOf(epoch, log, k)
  }

  ghost predicate DayListed(v: View, epoch: nat, log: Log, row: Row) {
    exists d: nat :: DayHeld(v, d) && 24 * d < v.hourIndex - |v.hours| && row == DayOf(epoch, log, d)
  }

  // ----- which rows the loops write -----

  lemma {:induction false} HourRowsAre(v: View, lo: nat, hi: nat, row: Row)
    requires Shaped(v) && FirstHourRow(v) <= lo && (lo < hi ==> hi <= v.hourIndex)
    ensures row in HourRows(v, lo, hi) <==> exists k :: lo <= k < hi && row == HourRow(v, k)
    decreases hi
  {
    if lo < hi { HourRowsAre(v, lo, hi - 1, row); }
  }

  lemma {:induction false} DayRowsAre(v: View, stop: nat, row: Row)
    requires Shaped(v) && FirstDayRow(v) <= stop <= v.dayIndex
    ensures row in DayRows(v, stop) <==> exists d :: FirstDayRow(v) <= d < stop && row == DayRow(v, d)
    decreases stop
  {
    if stop > FirstDayRow(v) { DayRowsAre(v, stop - 1, row); }
  }

  lemma AfterCutoff(v: View, k: nat)
    requires Shaped(v) && HourHeld(v, k)
    ensures k >= Cutoff(v) <==> !Cut(v, k)
  {
  }

  lemma BeforeStop(v: View, d: nat)
    requires Shaped(v) && DayHeld(v, d)
    ensures d < StopDay(v) <==> 24 * d < FirstHourRow(v)
  {
  }

  // ----- which records they hold -----

  lemma HourRowIs(epoch: nat, log: Log, k: nat)
    requires var v := Reflect(epoch, log); Shaped(v) && HourHeld(v, k)
    ensures epoch / 3600 <= k < epoch / 3600 + |log| && HourRow(Reflect(epoch, log), k) == HourOf(epoch, log, k)
  {
    ReflectShaped(epoch, log);
    ReflectParts(epoch, log);
  }

  lemma DayRowIs(epoch: nat, log: Log, d: nat)
    requires var v := Reflect(epoch, log); Shaped(v) && DayHeld(v, d)
    ensures DayRow(Reflect(epoch, log), d) == DayOf(epoch, log, d)
  {
    ReflectShaped(epoch, log);
    ReflectParts(epoch, log);
  }

  lemma KindsSplit(v: View, wall: nat, row: Row)
    requires Shaped(v)
    ensures row.kind == HourKind ==> (row in CsvRows(v, wall) <==> row in HourRows(v, Cutoff(v), v.hourIndex))
    ensures row.kind == DayKind ==> (row in CsvRows(v, wall) <==> row in DayRows(v, StopDay(v)))
    ensures row.kind == AggregateDays ==> (row in CsvRows(v, wall) <==> row in AggregateRows(v))
    ensures row.kind == CurrentHour ==> (row in CsvRows(v, wall) <==> row == CurrentRow(v, wall))
  {
    HourRowsAre(v, Cutoff(v), v.hourIndex, row);
    DayRowsAre(v, StopDay(v), row);
  }

  lemma HourIn(epoch: nat, log: Log, wall: nat, k: nat)
    requires var v := Reflect(epoch, log); Shaped(v) && FirstHourRow(v) <= Cutoff(v) && HourHeld(v, k) && !Cut(v, k)
    requires epoch / 3600 <= k < epoch / 3600 + |log|
    ensures HourOf(epoch, log, k) in HourRows(Reflect(epoch, log), Cutoff(Reflect(epoch, log)), HourNow(epoch, log))
  {
    var v, row := Reflect(epoch, log), HourOf(epoch, log, k);
    AfterCutoff(v, k);
    HourRowIs(epoch, log, k);
    HourRowsAre(v, Cutoff(v), v.hourIndex, row);
  }

  lemma HourOnly(epoch: nat, log: Log, row: Row)
    requires var v := Reflect(epoch, log);
      Shaped(v) && FirstHourRow(v) <= Cutoff(v) && row in HourRows(v, Cutoff(v), v.hourIndex)
    ensures HourListed(Reflect(epoch, log), epoch, log, row)
  {
    var v := Reflect(epoch, log);
    HourRowsAre(v, Cutoff(v), v.hourIndex, row);
    var k :| Cutoff(v) <= k < v.hourIndex && row == HourRow(v, k);
    AfterCutoff(v, k);
    HourRowIs(epoch, log, k);
  }

  lemma HoursListed(epoch: nat, log: Log, wall: nat, row: Row)
    requires row.kind == HourKind
    ensures var v := Reflect(epoch, log);
      Shaped(v) && (row in CsvRows(v, wall) <==> HourListed(v, epoch, log, row))
  {
    var v := Reflect(epoch, log);
    ReflectShaped(epoch, log);
    CutoffFits(epoch, log);
    KindsSplit(v, wall, row);
    assert v.hourIndex == HourNow(epoch, log);
    hide Reflect, CsvRows, HourRows, HourOf, Cutoff, Cut, HourNow, StopDay;
    if row in CsvRows(v, wall) { HourOnly(epoch, log, row); }
    if k: nat :| HourHeld(v, k) && epoch / 3600 <= k < epoch / 3600 + |log| && !Cut(v, k)
                 && row == HourOf(epoch, log, k) {
      HourIn(epoch, log, wall, k);
    }
  }

  lemma DayIn(epoch: nat, log: Log, d: nat)
    requires var v := Reflect(epoch, log); Shaped(v) && DayHeld(v, d) && 24 * d < FirstHourRow(v)
    ensures DayOf(epoch, log, d) in DayRows(Reflect(epoch, log), StopDay(Reflect(epoch, log)))
  {
    var v, row := Reflect(epoch, log), DayOf(epoch, log, d);
    BeforeStop(v, d);
    DayRowIs(epoch, log, d);
    DayRowsAre(v, StopDay(v), row);
  }

  lemma DayOnly(epoch: nat, log: Log, row: Row)
    requires var v := Reflect(epoch, log); Shaped(v) && row in DayRows(v, StopDay(v))
    ensures DayListed(Reflect(epoch, log), epoch, log, row)
  {
    var v := Reflect(epoch, log);
    DayRowsAre(v, StopDay(v), row);
    var d :| FirstDayRow(v) <= d < StopDay(v) && row == DayRow(v, d);
    BeforeStop(v, d);
    DayRowIs(epoch, log, d);
  }

  lemma DaysListed(epoch: nat, log: Log, wall: nat, row: Row)
    requires row.kind == DayKind
    ensures var v := Reflect(epoch, log);
      Shaped(v) && (row in CsvRows(v, wall) <==> DayListed(v, epoch, log, row))
  {
    var v := Reflect(epoch, log);
    ReflectShaped(epoch, log);
    KindsSplit(v, wall, row);
    hide Reflect, CsvRows, DayRows, DayOf, StopDay;
    if row in CsvRows(v, wall) { DayOnly(epoch, log, row); }
    if d: nat :| DayHeld(v, d) && 24 * d < v.hourIndex - |v.hours| && row == DayOf(epoch, log, d) {
      DayIn(epoch, log, d);
    }
  }

  // ----- the export as a whole -----

  lemma AggregateIs(epoch: nat, log: Log)
    ensures var v := Reflect(epoch, log); var first := v.dayIndex - |v.days|;
      && Shaped(v) && first >= epoch / 86400
      && AggregateRows(v) == if first > epoch / 86400 then [OldDays(epoch, log, first)] else []
  {
    ReflectShaped(epoch, log);
    ReflectParts(epoch, log);
    var v, e := Reflect(epoch, log), epoch / 3600;
    assert e / 24 == epoch / 86400;
    assert v.evictedDays == FirstDayRow(v) - e / 24 && v.evicted == Range(log, e, 0, 24 * FirstDayRow(v));
    hide Reflect, Range;
  }

  lemma OldDaysListed(epoch: nat, log: Log, wall: nat, row: Row)
    requires row.kind == AggregateDays
    ensures var v := Reflect(epoch, log); var first := v.dayIndex - |v.days|;
      && Shaped(v) && first >= epoch / 86400
      && (row in CsvRows(v, wall) <==> first > epoch / 86400 && row == OldDays(epoch, log, first))
  {
    AggregateIs(epoch, log);
    hide Reflect, CsvRows, OldDays, AggregateRows;
    KindsSplit(Reflect(epoch, log), wall, row);
  }

  lemma CurrentListed(epoch: nat, log: Log, wall: nat, row: Row)
    requires row.kind == CurrentHour
    ensures var v := Reflect(epoch, log); var start := Max(3600 * HourNow(epoch, log), epoch);
      && Shaped(v) && (row in CsvRows(v, wall) <==>
           row == Row(CurrentHour, start, Max(wall, start), true, 1, log[|log| - 1]))
  {
    var v := Reflect(epoch, log);
    ReflectShaped(epoch, log);
    KindsSplit(v, wall, row);
    ReflectParts(epoch, log);
    hide CsvRows;
  }

  // The rows that an export must have.
  ghost predicate Expected(v: View, epoch: nat, log: Log, wall: nat, row: Row) {
    var oldest, start := v.dayIndex - |v.days|, Max(3600 * v.hourIndex, epoch);
    match row.kind
    case AggregateDays => oldest > epoch / 86400 && row == OldDays(epoch, log, oldest)
    case DayKind => DayListed(v, epoch, log, row)
    case HourKind => HourListed(v, epoch, log, row)
    case CurrentHour => row == Row(CurrentHour, start, Max(wall, start), true, 1, log[|log| - 1])
  }

  ghost predicate Detailed(v: View, epoch: nat, log: Log, rows: seq<Row>, wall: nat) {
    && v.hourIndex == HourNow(epoch, log)
    && forall row :: row in rows <==> Expected(v, epoch, log, wall, row)
  }

  lemma RowExpected(epoch: nat, log: Log, wall: nat, row: Row)
    ensures var v := Reflect(epoch, log);
      Shaped(v) && (row in CsvRows(v, wall) <==> Expected(v, epoch, log, wall, row))
  {
    assert Reflect(epoch, log).hourIndex == HourNow(epoch, log);
    hide Reflect, CsvRows, HourListed, DayListed, OldDays, HourNow;
    match row.kind
    case AggregateDays => OldDaysListed(epoch, log, wall, row);
    case DayKind => DaysListed(epoch, log, wall, row);
    case HourKind => HoursListed(epoch, log, wall, row);
    case CurrentHour => CurrentListed(epoch, log, wall, row);
  }

  lemma DetailedWhen(epoch: nat, log: Log, wall: nat)
    ensures var v := Reflect(epoch, log); Shaped(v) && Detailed(v, epoch, log, CsvRows(v, wall), wall)
  {
    var v := Reflect(epoch, log);
    ReflectShaped(epoch, log);
    assert v.hourIndex == HourNow(epoch, log);
    hide Reflect, CsvRows, Expected, HourNow;
    forall row
      ensures row in CsvRows(v, wall) <==> Expected(v, epoch, log, wall, row)
    {
      RowExpected(epoch, log, wall, row);
    }
  }

  /** For every history on any clock, the export has a row for each hour still held, except for the
      hours of the one completed day that the oldest held hour cuts; a row for each day still held
      that began before the oldest held hour; one row for all earlier days; and nothing else. */
  lemma AnyDetail(epoch: nat, ops: seq<Op>, wall: nat)
    requires forall i :: 0 <= i < |ops| ==> ProperOp(ops[i])
    ensures var log := LogOp(epoch, LogOf(epoch, ops), Rolling(wall));
      var v := Roll(Performed(Init(epoch), ops), wall);
      Shaped(v) && Detailed(v, epoch, log, CsvRows(v, wall), wall)
  {
    hide *;
    RolledReflects(epoch, ops, wall);
    DetailedWhen(epoch, LogOp(epoch, LogOf(epoch, ops), Rolling(wall)), wall);
  }

  lemma HourKeptWhen(epoch: nat, log: Log, wall: nat, k: nat)
    requires HourHeld(Reflect(epoch, log), k)
    ensures var v := Reflect(epoch, log);
      && Shaped(v) && epoch / 3600 <= k < epoch / 3600 + |log|
      && (HourOf(epoch, log, k) in CsvRows(v, wall) <==> !Cut(v, k))
      && (Cut(v, k) ==> DayOf(epoch, log, k / 24) in CsvRows(v, wall))
  {
    ReflectShaped(epoch, log);
    HourRowIs(epoch, log, k);
    hide Reflect, CsvRows, HourRow, DayRange, Shaped;
    HoursListed(epoch, log, wall, HourOf(epoch, log, k));
    DaysListed(epoch, log, wall, DayOf(epoch, log, k / 24));
  }

  /** An hour that is still held has its own row, or the row of its day if the oldest held hour cuts
      that day. */
  lemma HourKept(epoch: nat, ops: seq<Op>, wall: nat, k: nat)
    requires forall i :: 0 <= i < |ops| ==> ProperOp(ops[i])
    requires HourHeld(Roll(Performed(Init(epoch), ops), wall), k)
    ensures var log := LogOp(epoch, LogOf(epoch, ops), Rolling(wall));
      var v := Roll(Performed(Init(epoch), ops), wall);
      && Shaped(v) && epoch / 3600 <= k < epoch / 3600 + |log|
      && (HourOf(epoch, log, k) in CsvRows(v, wall) <==> !Cut(v, k))
      && (Cut(v, k) ==> DayOf(epoch, log, k / 24) in CsvRows(v, wall))
  {
    hide *;
    RolledReflects(epoch, ops, wall);
    HourKeptWhen(epoch, LogOp(epoch, LogOf(epoch, ops), Rolling(wall)), wall, k);
  }
}
