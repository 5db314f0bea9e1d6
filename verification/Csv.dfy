/** The CSV export: one aggregate of evicted days, then whole days, then hours, then
    the current hour, chosen so that they tile time and add up. */
module Csv {
  import opened Records
  import opened History

  datatype Kind = AggregateDays | DayKind | HourKind | CurrentHour

  datatype Row = Row(kind: Kind, start: nat, end: nat, partial: bool, buckets: nat, record: Record)

  function Max(a: nat, b: nat): nat {
    if a < b then b else a
  }

  // Rings never outlast the time they cover.
  predicate Shaped(v: View) {
    |v.days| <= v.dayIndex && |v.hours| <= v.hourIndex && v.dayIndex <= v.hourIndex
  }

  function FirstDayRow(v: View): nat
    requires Shaped(v)
  {
    v.dayIndex - |v.days|
  }

  function FirstHourRow(v: View): nat
    requires Shaped(v)
  {
    v.hourIndex - |v.hours|
  }

  // Hours are listed from here on, days before it.
  function Cutoff(v: View): nat
    requires Shaped(v)
  {
    var first := FirstHourRow(v);
    if first % 24 != 0 && first / 24 >= FirstDayRow(v) && first / 24 < v.dayIndex
    then (first / 24 + 1) * 24
    else first
  }

  // Where the day loop stops: at the current day or at the first day past the cutoff.
  function StopDay(v: View): nat
    requires Shaped(v)
  {
    Max(FirstDayRow(v), Min(v.dayIndex, Cutoff(v) / 24))
  }

  function AggregateRows(v: View): seq<Row>
    requires Shaped(v)
  {
    if v.evictedDays == 0 then []
    else [Row(AggregateDays, v.epoch, FirstDayRow(v) * 86400, false, v.evictedDays, v.evicted)]
  }

  function DayRow(v: View, index: nat): Row
    requires Shaped(v) && FirstDayRow(v) <= index < v.dayIndex
  {
    Row(DayKind, Max(index * 86400, v.epoch), (index + 1) * 86400, false, 1, v.days[index - FirstDayRow(v)])
  }

  function DayRows(v: View, stop: nat): seq<Row>
    requires Shaped(v) && FirstDayRow(v) <= stop <= v.dayIndex
    decreases stop
  {
    if stop == FirstDayRow(v) then [] else DayRows(v, stop - 1) + [DayRow(v, stop - 1)]
  }

  function HourRow(v: View, index: nat): Row
    requires Shaped(v) && FirstHourRow(v) <= index < v.hourIndex
  {
    Row(HourKind, Max(index * 3600, v.epoch), (index + 1) * 3600, false, 1, v.hours[index - FirstHourRow(v)])
  }

  function HourRows(v: View, lo: nat, hi: nat): seq<Row>
    requires Shaped(v) && FirstHourRow(v) <= lo && (lo < hi ==> hi <= v.hourIndex)
    decreases hi
  {
    if hi <= lo then [] else HourRows(v, lo, hi - 1) + [HourRow(v, hi - 1)]
  }

  function CurrentRow(v: View, wall: nat): Row {
    var start := Max(v.hourIndex * 3600, v.epoch);
    Row(CurrentHour, start, if wall < start then start else wall, true, 1, v.hour)
  }

  // ankah_stats_write_csv after its roll.
  function CsvRows(v: View, wall: nat): seq<Row>
    requires Shaped(v)
  {
    AggregateRows(v) + DayRows(v, StopDay(v)) + HourRows(v, Cutoff(v), v.hourIndex) + [CurrentRow(v, wall)]
  }

  lemma RowsJoin(v: View, wall: nat, aggregate: seq<Row>, days: seq<Row>, hours: seq<Row>, current: Row)
    requires Shaped(v) && aggregate == AggregateRows(v) && days == DayRows(v, StopDay(v))
    requires hours == HourRows(v, Cutoff(v), v.hourIndex) && current == CurrentRow(v, wall)
    ensures aggregate + days + hours + [current] == CsvRows(v, wall)
  {
  }

  // ----- tiling -----

  // Non-empty rows that follow each other from one instant to another.
  predicate Chain(rows: seq<Row>, lo: nat, hi: nat) {
    if rows == [] then lo == hi
    else
      var n := |rows| - 1;
      rows[n].end == hi && rows[n].start < hi && Chain(rows[..n], lo, rows[n].start)
  }

  // Rows that tile [lo, hi): only the last, current one may be empty.
  predicate Tiles(rows: seq<Row>, lo: nat, hi: nat) {
    && rows != []
    && var n := |rows| - 1;
    Chain(rows[..n], lo, rows[n].start) && rows[n].start <= rows[n].end == hi
  }

  lemma {:induction false} ChainConcat(a: seq<Row>, b: seq<Row>, lo: nat, mid: nat, hi: nat)
    requires Chain(a, lo, mid) && Chain(b, mid, hi)
    ensures Chain(a + b, lo, hi)
    decreases |b|
  {
    if b == [] {
      assert a + b == a;
    } else {
      var n := |b| - 1;
      ChainConcat(a, b[..n], lo, mid, b[n].start);
      assert (a + b)[..|a| + n] == a + b[..n];
    }
  }

  lemma {:induction false} DaysChain(v: View, stop: nat)
    requires Shaped(v) && FirstDayRow(v) <= stop <= v.dayIndex && v.epoch / 86400 <= FirstDayRow(v)
    ensures Chain(DayRows(v, stop), Max(FirstDayRow(v) * 86400, v.epoch), Max(stop * 86400, v.epoch))
    decreases stop
  {
    if stop > FirstDayRow(v) {
      DaysChain(v, stop - 1);
      var rows := DayRows(v, stop);
      assert rows[..|rows| - 1] == DayRows(v, stop - 1);
    }
  }

  lemma {:induction false} HoursChain(v: View, lo: nat, hi: nat)
    requires Shaped(v) && FirstHourRow(v) <= lo <= hi <= v.hourIndex && v.epoch / 3600 <= FirstHourRow(v)
    ensures Chain(HourRows(v, lo, hi), Max(lo * 3600, v.epoch), Max(hi * 3600, v.epoch))
    decreases hi
  {
    if hi > lo {
      HoursChain(v, lo, hi - 1);
      var rows := HourRows(v, lo, hi);
      assert rows[..|rows| - 1] == HourRows(v, lo, hi - 1);
    }
  }

  // ----- the cutoff -----

  lemma ReflectShaped(epoch: nat, log: Log)
    ensures var v, e := Reflect(epoch, log), epoch / 3600;
      Shaped(v) && FirstDayRow(v) == FirstDay(e, v.dayIndex) && FirstHourRow(v) == FirstHour(e, v.hourIndex)
  {
  }

  /** In a reachable history the cutoff either falls on a day boundary that the day rows
      reach, or there are no completed days and the hours go back to the epoch. */
  lemma CutoffFits(epoch: nat, log: Log)
    ensures var v, e := Reflect(epoch, log), epoch / 3600;
      && Shaped(v) && FirstHourRow(v) <= Cutoff(v) <= v.hourIndex
      && (|| (Cutoff(v) == 24 * StopDay(v) && StopDay(v) == Cutoff(v) / 24)
          || (Cutoff(v) == e && v.evictedDays == 0 && FirstDayRow(v) == StopDay(v) == v.dayIndex == e / 24))
  {
    ReflectShaped(epoch, log);
    CutoffArithmetic(epoch / 3600, HourNow(epoch, log));
    CutoffCases(Reflect(epoch, log), epoch / 3600);
  }

  lemma CutoffCases(v: View, e: nat)
    requires Shaped(v) && e <= v.hourIndex && v.dayIndex == v.hourIndex / 24
    requires FirstDayRow(v) == FirstDay(e, v.dayIndex) && FirstHourRow(v) == FirstHour(e, v.hourIndex)
    requires v.evictedDays == FirstDay(e, v.dayIndex) - e / 24
    requires FirstDayRow(v) <= FirstHourRow(v) / 24
    requires FirstHourRow(v) / 24 == v.dayIndex && FirstHourRow(v) % 24 != 0 ==> FirstHourRow(v) == e
    requires FirstHourRow(v) / 24 < v.dayIndex ==> (FirstHourRow(v) / 24 + 1) * 24 <= v.hourIndex
    ensures FirstHourRow(v) <= Cutoff(v) <= v.hourIndex
    ensures || (Cutoff(v) == 24 * StopDay(v) && StopDay(v) == Cutoff(v) / 24)
            || (Cutoff(v) == e && v.evictedDays == 0 && FirstDayRow(v) == StopDay(v) == v.dayIndex == e / 24)
  {
  }

  lemma CutoffArithmetic(e: nat, h: nat)
    requires e <= h
    ensures FirstDay(e, h / 24) <= FirstHour(e, h) / 24
    ensures FirstHour(e, h) / 24 == h / 24 && FirstHour(e, h) % 24 != 0 ==> FirstHour(e, h) == e
    ensures FirstHour(e, h) / 24 < h / 24 ==> (FirstHour(e, h) / 24 + 1) * 24 <= h
  {
  }

  /** The exported rows tile the time from the epoch to the later of the export's clock
      and the start of the current hour: no gap, no overlap, whatever the clock did. */
  lemma CsvTiles(epoch: nat, log: Log, wall: nat)
    ensures var v := Reflect(epoch, log);
      Shaped(v) && Tiles(CsvRows(v, wall), epoch, Max(wall, Max(v.hourIndex * 3600, epoch)))
  {
    ReflectShaped(epoch, log);
    CutoffFits(epoch, log);
    ReflectParts(epoch, log);
    hide CsvRows, Tiles;
    TilesWhen(Reflect(epoch, log), wall);
  }

  lemma AggregateChain(v: View)
    requires Shaped(v) && v.evictedDays == FirstDayRow(v) - v.epoch / 86400
    ensures Chain(AggregateRows(v), v.epoch, Max(FirstDayRow(v) * 86400, v.epoch))
  {
    if v.evictedDays > 0 { assert AggregateRows(v)[..0] == []; }
  }

  // The last day row, or the epoch, ends where the hour rows begin.
  lemma DaysMeetHours(epoch: nat, cut: nat, stop: nat)
    requires cut == 24 * stop || (cut == epoch / 3600 && stop == epoch / 86400)
    ensures Max(stop * 86400, epoch) == Max(cut * 3600, epoch)
  {
  }

  lemma TilesJoin(before: seq<Row>, hours: seq<Row>, current: Row, lo: nat, mid: nat)
    requires Chain(before, lo, mid) && Chain(hours, mid, current.start) && current.start <= current.end
    ensures Tiles(before + hours + [current], lo, current.end)
  {
    ChainConcat(before, hours, lo, mid, current.start);
    var rows := before + hours + [current];
    assert rows[..|rows| - 1] == before + hours;
  }

  lemma TilesWhen(v: View, wall: nat)
    requires Shaped(v) && FirstHourRow(v) <= Cutoff(v) <= v.hourIndex
    requires v.epoch / 3600 <= FirstHourRow(v) && v.evictedDays == FirstDayRow(v) - v.epoch / 86400
    requires || Cutoff(v) == 24 * StopDay(v)
             || (Cutoff(v) == v.epoch / 3600 && StopDay(v) == v.epoch / 86400)
    ensures Tiles(CsvRows(v, wall), v.epoch, Max(wall, Max(v.hourIndex * 3600, v.epoch)))
  {
    var stop, cut := StopDay(v), Cutoff(v);
    DaysChain(v, stop);
    HoursChain(v, cut, v.hourIndex);
    AggregateChain(v);
    var days, mid := DayRows(v, stop), Max(stop * 86400, v.epoch);
    ChainConcat(AggregateRows(v), days, v.epoch, Max(FirstDayRow(v) * 86400, v.epoch), mid);
    DaysMeetHours(v.epoch, cut, stop);
    TilesJoin(AggregateRows(v) + days, HourRows(v, cut, v.hourIndex), CurrentRow(v, wall), v.epoch, mid);
  }

  // ----- conservation -----

  function RecordsOf(rows: seq<Row>): seq<Record> {
    seq<Record>(|rows|, i requires 0 <= i < |rows| => rows[i].record)
  }

  lemma RecordsConcat(a: seq<Row>, b: seq<Row>)
    ensures RecordsOf(a + b) == RecordsOf(a) + RecordsOf(b)
  {
  }

  lemma {:induction false} DayRecords(v: View, stop: nat)
    requires Shaped(v) && FirstDayRow(v) <= stop <= v.dayIndex
    ensures RecordsOf(DayRows(v, stop)) == v.days[..stop - FirstDayRow(v)]
    decreases stop
  {
    if stop > FirstDayRow(v) { DayRecords(v, stop - 1); }
  }

  lemma {:induction false} HourRecords(v: View, lo: nat, hi: nat)
    requires Shaped(v) && FirstHourRow(v) <= lo <= hi <= v.hourIndex
    ensures RecordsOf(HourRows(v, lo, hi)) == v.hours[lo - FirstHourRow(v)..hi - FirstHourRow(v)]
    decreases hi
  {
    var first := FirstHourRow(v);
    if hi > lo {
      HourRecords(v, lo, hi - 1);
      RecordsConcat(HourRows(v, lo, hi - 1), [HourRow(v, hi - 1)]);
      assert v.hours[lo - first..hi - first] == v.hours[lo - first..hi - 1 - first] + [v.hours[hi - 1 - first]];
    }
  }

  lemma DayRowsTotal(v: View, log: Log, e: nat, stop: nat)
    requires Shaped(v) && FirstDayRow(v) <= stop <= v.dayIndex
    requires v.days == DayRanges(log, e, FirstDayRow(v), |v.days|)
    ensures Total(RecordsOf(DayRows(v, stop))) == Range(log, e, 24 * FirstDayRow(v), 24 * stop)
  {
    var first := FirstDayRow(v);
    DayRecords(v, stop);
    assert v.days[..stop - first] == DayRanges(log, e, first, stop - first);
    DayRangesTotal(log, e, first, stop - first);
  }

  lemma HourRowsTotal(v: View, log: Log, e: nat, lo: nat)
    requires Shaped(v) && e <= FirstHourRow(v) <= lo <= v.hourIndex < e + |log|
    requires v.hours == log[FirstHourRow(v) - e..v.hourIndex - e]
    ensures Total(RecordsOf(HourRows(v, lo, v.hourIndex))) == Range(log, e, lo, v.hourIndex)
  {
    HourRecords(v, lo, v.hourIndex);
    assert v.hours[lo - FirstHourRow(v)..v.hourIndex - FirstHourRow(v)] == Stretch(log, e, lo, v.hourIndex);
  }

  lemma AggregateTotal(epoch: nat, log: Log)
    ensures var v, e := Reflect(epoch, log), epoch / 3600;
      Shaped(v) && Total(RecordsOf(AggregateRows(v))) == Range(log, e, 0, 24 * FirstDayRow(v))
  {
    var v, e := Reflect(epoch, log), epoch / 3600;
    ReflectShaped(epoch, log);
    if v.evictedDays == 0 {
      assert Stretch(log, e, 0, 24 * FirstDayRow(v)) == [];
    } else {
      assert RecordsOf(AggregateRows(v)) == [] + [v.evicted];
      TotalSnoc([], v.evicted);
      MergeZero(v.evicted);
    }
  }

  // What was counted before the cutoff is what the aggregate and day rows hold.
  lemma BeforeCutoff(epoch: nat, log: Log)
    ensures var v, e := Reflect(epoch, log), epoch / 3600;
      Shaped(v) && FirstHourRow(v) <= Cutoff(v) <= v.hourIndex &&
      Merge(Range(log, e, 0, 24 * FirstDayRow(v)), Range(log, e, 24 * FirstDayRow(v), 24 * StopDay(v)))
        == Range(log, e, 0, Cutoff(v))
  {
    var v, e := Reflect(epoch, log), epoch / 3600;
    CutoffFits(epoch, log);
    RangeSplit(log, e, 0, 24 * FirstDayRow(v), 24 * StopDay(v));
    if Cutoff(v) != 24 * StopDay(v) {
      assert Stretch(log, e, 0, Cutoff(v)) == [] == Stretch(log, e, 0, 24 * StopDay(v));
    }
  }

  lemma CurrentTotal(log: Log, e: nat)
    ensures var h := e + |log| - 1; Total(log) == Merge(Range(log, e, 0, h), log[|log| - 1])
  {
    var h := e + |log| - 1;
    assert Stretch(log, e, 0, h) == log[..|log| - 1];
  }

  lemma DayPart(v: View, epoch: nat, log: Log)
    requires v == Reflect(epoch, log)
    ensures Shaped(v)
    ensures Total(RecordsOf(DayRows(v, StopDay(v)))) == Range(log, epoch / 3600, 24 * FirstDayRow(v), 24 * StopDay(v))
  {
    ReflectShaped(epoch, log);
    DayRowsTotal(v, log, epoch / 3600, StopDay(v));
  }

  lemma HourPart(v: View, epoch: nat, log: Log)
    requires v == Reflect(epoch, log)
    ensures Shaped(v) && FirstHourRow(v) <= Cutoff(v) <= v.hourIndex
    ensures Total(RecordsOf(HourRows(v, Cutoff(v), v.hourIndex))) == Range(log, epoch / 3600, Cutoff(v), v.hourIndex)
  {
    ReflectShaped(epoch, log);
    CutoffFits(epoch, log);
    HourRowsTotal(v, log, epoch / 3600, Cutoff(v));
  }

  lemma ConservesWhen(v: View, log: Log, e: nat, wall: nat)
    requires Shaped(v) && v.hourIndex == e + |log| - 1 && v.hour == log[|log| - 1]
    requires Total(RecordsOf(AggregateRows(v))) == Range(log, e, 0, 24 * FirstDayRow(v))
    requires Total(RecordsOf(DayRows(v, StopDay(v)))) == Range(log, e, 24 * FirstDayRow(v), 24 * StopDay(v))
    requires FirstHourRow(v) <= Cutoff(v) <= v.hourIndex
    requires Total(RecordsOf(HourRows(v, Cutoff(v), v.hourIndex))) == Range(log, e, Cutoff(v), v.hourIndex)
    requires Merge(Range(log, e, 0, 24 * FirstDayRow(v)), Range(log, e, 24 * FirstDayRow(v), 24 * StopDay(v)))
      == Range(log, e, 0, Cutoff(v))
    ensures Total(RecordsOf(CsvRows(v, wall))) == Total(log)
  {
    hide Total, Merge, Range;
    RangeSplit(log, e, 0, Cutoff(v), v.hourIndex);
    CurrentTotal(log, e);
    FourParts(AggregateRows(v), DayRows(v, StopDay(v)), HourRows(v, Cutoff(v), v.hourIndex), CurrentRow(v, wall));
  }

  /** Sum or maximum over every exported row, field by field, is the cumulative record. */
  lemma CsvConserves(epoch: nat, log: Log, wall: nat)
    ensures var v := Reflect(epoch, log);
      Shaped(v) && Total(RecordsOf(CsvRows(v, wall))) == v.cumulative
  {
    BeforeCutoff(epoch, log);
    AggregateTotal(epoch, log);
    DayPart(Reflect(epoch, log), epoch, log);
    HourPart(Reflect(epoch, log), epoch, log);
    ConservesWhen(Reflect(epoch, log), log, epoch / 3600, wall);
  }

  lemma FourParts(agg: seq<Row>, days: seq<Row>, hours: seq<Row>, current: Row)
    ensures Total(RecordsOf(agg + days + hours + [current])) ==
      Merge(Merge(Merge(Total(RecordsOf(agg)), Total(RecordsOf(days))), Total(RecordsOf(hours))), current.record)
  {
    RecordsConcat(agg, days);
    RecordsConcat(agg + days, hours);
    RecordsConcat(agg + days + hours, [current]);
    TotalConcat(RecordsOf(agg), RecordsOf(days));
    TotalConcat(RecordsOf(agg + days), RecordsOf(hours));
    assert RecordsOf([current]) == [current.record];
    TotalSnoc(RecordsOf(agg + days + hours), current.record);
  }

  lemma RolledReflects(epoch: nat, ops: seq<Op>, wall: nat)
    requires forall i :: 0 <= i < |ops| ==> ProperOp(ops[i])
    ensures Roll(Performed(Init(epoch), ops), wall)
      == Reflect(epoch, LogOp(epoch, LogOf(epoch, ops), Rolling(wall)))
  {
    HistoryReflects(epoch, ops);
    RollReflects(epoch, LogOf(epoch, ops), wall);
  }

  ghost predicate Exports(v: View, wall: nat) {
    && Shaped(v)
    && Tiles(CsvRows(v, wall), v.epoch, Max(wall, Max(v.hourIndex * 3600, v.epoch)))
    && Total(RecordsOf(CsvRows(v, wall))) == v.cumulative
  }

  /** For every history, on any clock: the export tiles time and adds up. */
  lemma AnyExport(epoch: nat, ops: seq<Op>, wall: nat)
    requires forall i :: 0 <= i < |ops| ==> ProperOp(ops[i])
    ensures Exports(Roll(Performed(Init(epoch), ops), wall), wall)
  {
    var long := LogOp(epoch, LogOf(epoch, ops), Rolling(wall));
    RolledReflects(epoch, ops, wall);
    CsvTiles(epoch, long, wall);
    CsvConserves(epoch, long, wall);
  }
}
