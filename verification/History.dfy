/** The statistics history as values: what every operation of stats.c does to it, and
    the plain log of hourly records that all of it summarises. */
module History {
  import opened Records

  const HOURS := 720
  const DAYS := 4096

  // Rows oldest first.
  datatype View = View(
    epoch: nat, hourIndex: nat, dayIndex: nat, evictedDays: nat,
    cumulative: Record, hour: Record, day: Record, evicted: Record,
    hours: seq<Record>, days: seq<Record>)

  function Min(a: nat, b: nat): nat {
    if a < b then a else b
  }

  // ring_push
  function Push(rows: seq<Record>, row: Record, capacity: nat): seq<Record> {
    if |rows| == capacity && rows != [] then rows[1..] + [row] else rows + [row]
  }

  function PushZeroHours(rows: seq<Record>, n: nat): seq<Record> {
    if n == 0 then rows else Push(PushZeroHours(rows, n - 1), Zero(), HOURS)
  }

  // push_day
  function PushDay(v: View, row: Record): View {
    if |v.days| == DAYS then
      v.(days := Push(v.days, row, DAYS), evicted := Merge(v.evicted, v.days[0]),
         evictedDays := v.evictedDays + 1)
    else v.(days := Push(v.days, row, DAYS))
  }

  function PushZeroDays(v: View, n: nat): View {
    if n == 0 then v else PushDay(PushZeroDays(v, n - 1), Zero())
  }

  // ankah_stats_init
  function Init(wall: nat): View {
    View(wall, wall / 3600, wall / 86400, 0, Zero(), Zero(), Zero(), Zero(), [], [])
  }

  // ankah_stats_add
  function Add(v: View, field: nat, amount: Word): View {
    if field >= FIELDS then v
    else v.(cumulative := AddTo(v.cumulative, field, amount), hour := AddTo(v.hour, field, amount),
            day := AddTo(v.day, field, amount))
  }

  // ankah_stats_max
  function Raise(v: View, field: nat, value: Word): View {
    if field >= FIELDS then v
    else v.(cumulative := RaiseTo(v.cumulative, field, value), hour := RaiseTo(v.hour, field, value),
            day := RaiseTo(v.day, field, value))
  }

  function RollHour(v: View, hour: nat): View {
    if hour <= v.hourIndex then v
    else
      var gap := hour - v.hourIndex - 1;
      v.(hours := PushZeroHours(Push(v.hours, v.hour, HOURS), Min(gap, HOURS)),
         hour := Zero(), hourIndex := hour)
  }

  function RollDay(v: View, day: nat): View {
    if day <= v.dayIndex then v
    else
      var gap := day - v.dayIndex - 1;
      var w := PushZeroDays(PushDay(v, v.day), Min(gap, DAYS));
      w.(evictedDays := w.evictedDays + (gap - Min(gap, DAYS)), day := Zero(), dayIndex := day)
  }

  // ankah_stats_roll
  function Roll(v: View, wall: nat): View {
    RollDay(RollHour(v, wall / 3600), wall / 86400)
  }

  // ----- the log -----

  // log[i] is everything counted in hour e + i; the last entry is the current hour.
  type Log = l: seq<Record> | |l| > 0 witness [Zero()]

  function Clamp(x: int, n: nat): nat {
    if x < 0 then 0 else if x > n then n else x
  }

  // The part of the log that falls in hours [lo, hi).
  function Stretch(log: seq<Record>, e: nat, lo: nat, hi: nat): seq<Record>
    requires lo <= hi
  {
    log[Clamp(lo - e, |log|)..Clamp(hi - e, |log|)]
  }

  function Range(log: seq<Record>, e: nat, lo: nat, hi: nat): Record
    requires lo <= hi
  {
    Total(Stretch(log, e, lo, hi))
  }

  function DayRange(log: seq<Record>, e: nat, d: nat): Record {
    Range(log, e, 24 * d, 24 * d + 24)
  }

  function FirstHour(e: nat, h: nat): nat
    requires e <= h
  {
    h - Min(HOURS, h - e)
  }

  function FirstDay(e: nat, d: nat): nat
    requires e / 24 <= d
  {
    d - Min(DAYS, d - e / 24)
  }

  function HoursAt(log: seq<Record>, e: nat, h: nat): seq<Record>
    requires e <= h <= e + |log|
  {
    log[FirstHour(e, h) - e..h - e]
  }

  function DayRanges(log: seq<Record>, e: nat, first: nat, n: nat): seq<Record> {
    seq<Record>(n, i requires 0 <= i < n => DayRange(log, e, first + i))
  }

  function DaysAt(log: seq<Record>, e: nat, d: nat): seq<Record>
    requires e / 24 <= d
  {
    DayRanges(log, e, FirstDay(e, d), d - FirstDay(e, d))
  }

  function EvictedAt(log: seq<Record>, e: nat, d: nat): Record
    requires e / 24 <= d
  {
    Range(log, e, 0, 24 * FirstDay(e, d))
  }

  function HourNow(epoch: nat, log: Log): nat {
    epoch / 3600 + |log| - 1
  }

  /** The history that a log stands for. */
  function Reflect(epoch: nat, log: Log): View {
    var e := epoch / 3600;
    var h := HourNow(epoch, log);
    View(epoch, h, h / 24, FirstDay(e, h / 24) - e / 24,
         Total(log), log[|log| - 1], DayRange(log, e, h / 24), EvictedAt(log, e, h / 24),
         HoursAt(log, e, h), DaysAt(log, e, h / 24))
  }

  // ----- ranges -----

  lemma RangeSplit(log: seq<Record>, e: nat, lo: nat, mid: nat, hi: nat)
    requires lo <= mid <= hi
    ensures Range(log, e, lo, hi) == Merge(Range(log, e, lo, mid), Range(log, e, mid, hi))
  {
    assert Stretch(log, e, lo, hi) == Stretch(log, e, lo, mid) + Stretch(log, e, mid, hi);
    TotalConcat(Stretch(log, e, lo, mid), Stretch(log, e, mid, hi));
  }

  // A log followed by empty hours.
  predicate Idles(log: seq<Record>, long: seq<Record>) {
    && |log| <= |long|
    && long[..|log|] == log
    && forall i :: |log| <= i < |long| ==> long[i] == Zero()
  }

  lemma TotalIdles(s: seq<Record>, t: seq<Record>)
    requires Idles(s, t)
    ensures Total(t) == Total(s)
  {
    var rest := t[|s|..];
    assert t == s + rest;
    TotalZeros(rest);
    TotalConcat(s, rest);
    MergeZero(Total(s));
  }

  lemma RangeIdles(log: seq<Record>, long: seq<Record>, e: nat, lo: nat, hi: nat)
    requires lo <= hi && Idles(log, long)
    ensures Range(long, e, lo, hi) == Range(log, e, lo, hi)
  {
    var s, t := Stretch(log, e, lo, hi), Stretch(long, e, lo, hi);
    var from := Clamp(lo - e, |long|);
    assert forall i :: 0 <= i < |t| ==> t[i] == long[from + i];
    if lo - e <= |log| {
      assert forall i :: 0 <= i < |s| ==> s[i] == log[from + i] == long[..|log|][from + i];
      assert t[..|s|] == s;
    } else {
      assert s == [];
    }
    TotalIdles(s, t);
  }

  lemma RangeIdle(log: seq<Record>, long: seq<Record>, e: nat, lo: nat, hi: nat)
    requires lo <= hi && e + |log| <= lo && Idles(log, long)
    ensures Range(long, e, lo, hi) == Zero()
  {
    var t, from := Stretch(long, e, lo, hi), Clamp(lo - e, |long|);
    assert forall i :: 0 <= i < |t| ==> t[i] == long[from + i];
    TotalZeros(t);
  }

  lemma DayRangesSnoc(log: Log, e: nat, first: nat, n: nat)
    requires n > 0
    ensures DayRanges(log, e, first, n) == DayRanges(log, e, first, n - 1) + [DayRange(log, e, first + n - 1)]
  {
  }

  lemma SplitDay(log: Log, e: nat, lo: nat, d: nat)
    requires lo <= 24 * d
    ensures Range(log, e, lo, 24 * (d + 1)) == Merge(Range(log, e, lo, 24 * d), DayRange(log, e, d))
  {
    RangeSplit(log, e, lo, 24 * d, 24 * d + 24);
  }

  lemma {:induction false} DayRangesTotal(log: Log, e: nat, first: nat, n: nat)
    ensures Total(DayRanges(log, e, first, n)) == Range(log, e, 24 * first, 24 * (first + n))
  {
    if n == 0 {
      assert Stretch(log, e, 24 * first, 24 * first) == [];
    } else {
      var d, rows := first + n - 1, DayRanges(log, e, first, n - 1);
      DayRangesTotal(log, e, first, n - 1);
      DayRangesSnoc(log, e, first, n);
      TotalSnoc(rows, DayRange(log, e, d));
      SplitDay(log, e, 24 * first, d);
    }
  }

  // The log after counting one event in the current hour.
  function Counted(log: Log, delta: Record): Log {
    log[|log| - 1 := Merge(log[|log| - 1], delta)]
  }

  lemma TotalLast(s: seq<Record>, delta: Record)
    requires s != []
    ensures Total(s[|s| - 1 := Merge(s[|s| - 1], delta)]) == Merge(Total(s), delta)
  {
    var init, last := s[..|s| - 1], s[|s| - 1];
    assert s[|s| - 1 := Merge(last, delta)] == init + [Merge(last, delta)];
    TotalSnoc(init, Merge(last, delta));
    MergeAssociative(Total(init), last, delta);
  }

  lemma RangeCounted(log: Log, delta: Record, e: nat, lo: nat, hi: nat)
    requires lo <= hi
    ensures hi < e + |log| ==> Range(Counted(log, delta), e, lo, hi) == Range(log, e, lo, hi)
    ensures lo < e + |log| <= hi ==> Range(Counted(log, delta), e, lo, hi) == Merge(Range(log, e, lo, hi), delta)
  {
    var s, t := Stretch(log, e, lo, hi), Stretch(Counted(log, delta), e, lo, hi);
    if hi < e + |log| {
      assert s == t;
    } else if lo < e + |log| {
      assert t == s[|s| - 1 := Merge(s[|s| - 1], delta)];
      TotalLast(s, delta);
    }
  }

  // ----- the parts of a reflected history -----

  // The day side of a history whose completed days are those before d.
  ghost predicate DaysUpTo(v: View, log: seq<Record>, e: nat, d: nat) {
    && e / 24 <= d
    && v.days == DaysAt(log, e, d)
    && v.evicted == EvictedAt(log, e, d)
    && v.evictedDays == FirstDay(e, d) - e / 24
  }

  // A view is the log's when each of its parts is.
  lemma ReflectIs(epoch: nat, log: Log, v: View)
    requires var e, h := epoch / 3600, HourNow(epoch, log);
      v.epoch == epoch && v.hourIndex == h && v.dayIndex == h / 24 && v.cumulative == Total(log)
      && v.hour == log[|log| - 1] && v.day == DayRange(log, e, h / 24) && v.hours == HoursAt(log, e, h)
      && DaysUpTo(v, log, e, h / 24)
    ensures v == Reflect(epoch, log)
  {
  }

  lemma ReflectParts(epoch: nat, log: Log)
    ensures var v, e, h := Reflect(epoch, log), epoch / 3600, HourNow(epoch, log);
      v.epoch == epoch && v.hourIndex == h && v.dayIndex == h / 24 && v.cumulative == Total(log)
      && v.hour == log[|log| - 1] && v.day == DayRange(log, e, h / 24) && v.hours == HoursAt(log, e, h)
      && DaysUpTo(v, log, e, h / 24)
  {
  }

  // ----- counting refines the log -----

  lemma DaysCounted(log: Log, delta: Record, e: nat, d: nat)
    requires e / 24 <= d && 24 * d < e + |log|
    ensures DaysAt(Counted(log, delta), e, d) == DaysAt(log, e, d)
    ensures EvictedAt(Counted(log, delta), e, d) == EvictedAt(log, e, d)
  {
    var before, after := DaysAt(log, e, d), DaysAt(Counted(log, delta), e, d);
    forall i | 0 <= i < |before| ensures after[i] == before[i] {
      var day := FirstDay(e, d) + i;
      RangeCounted(log, delta, e, 24 * day, 24 * day + 24);
      assert before[i] == DayRange(log, e, day) && after[i] == DayRange(Counted(log, delta), e, day);
    }
    RangeCounted(log, delta, e, 0, 24 * FirstDay(e, d));
  }

  // A view after counting one record in the current hour.
  function WithEvent(v: View, delta: Record): View {
    v.(cumulative := Merge(v.cumulative, delta), hour := Merge(v.hour, delta), day := Merge(v.day, delta))
  }

  lemma CountedReflects(v: View, epoch: nat, log: Log, delta: Record)
    requires v == Reflect(epoch, log)
    ensures WithEvent(v, delta) == Reflect(epoch, Counted(log, delta))
  {
    var e, h := epoch / 3600, HourNow(epoch, log);
    ReflectParts(epoch, log);
    TotalLast(log, delta);
    DaysCounted(log, delta, e, h / 24);
    RangeCounted(log, delta, e, 24 * (h / 24), 24 * (h / 24) + 24);
    HoursCounted(log, delta, e, h);
    ReflectIs(epoch, Counted(log, delta), WithEvent(v, delta));
  }

  lemma HoursCounted(log: Log, delta: Record, e: nat, h: nat)
    requires h == e + |log| - 1
    ensures HoursAt(Counted(log, delta), e, h) == HoursAt(log, e, h)
  {
    var next := Counted(log, delta);
    assert next[..|log| - 1] == log[..|log| - 1];
    assert HoursAt(log, e, h) == log[..|log| - 1][FirstHour(e, h) - e..];
    assert HoursAt(next, e, h) == next[..|log| - 1][FirstHour(e, h) - e..];
  }

  lemma AddReflects(epoch: nat, log: Log, field: nat, amount: Word)
    requires field < FIELDS && !IsMax(field)
    ensures Add(Reflect(epoch, log), field, amount) == Reflect(epoch, Counted(log, Delta(field, amount)))
  {
    var v := Reflect(epoch, log);
    CountedReflects(v, epoch, log, Delta(field, amount));
    AddIsMerge(v.cumulative, field, amount);
    AddIsMerge(v.hour, field, amount);
    AddIsMerge(v.day, field, amount);
  }

  lemma RaiseReflects(epoch: nat, log: Log, field: nat, value: Word)
    requires field < FIELDS && IsMax(field)
    ensures Raise(Reflect(epoch, log), field, value) == Reflect(epoch, Counted(log, Delta(field, value)))
  {
    var v := Reflect(epoch, log);
    CountedReflects(v, epoch, log, Delta(field, value));
    RaiseIsMerge(v.cumulative, field, value);
    RaiseIsMerge(v.hour, field, value);
    RaiseIsMerge(v.day, field, value);
  }

  // ----- rolling refines the log -----

  lemma PushHourAt(log: seq<Record>, e: nat, h: nat)
    requires e <= h < e + |log|
    ensures Push(HoursAt(log, e, h), log[h - e], HOURS) == HoursAt(log, e, h + 1)
  {
    var lo, hi := FirstHour(e, h) - e, h - e;
    var rows := log[lo..hi];
    assert rows + [log[hi]] == log[lo..hi + 1];
    if hi - lo == HOURS {
      assert rows[1..] + [log[hi]] == log[lo + 1..hi + 1];
    }
  }

  lemma {:induction false} PushZeroHoursAt(log: seq<Record>, long: seq<Record>, e: nat, h: nat, n: nat)
    requires h == e + |log| && Idles(log, long) && |log| + n <= |long|
    ensures PushZeroHours(HoursAt(long, e, h), n) == HoursAt(long, e, h + n)
  {
    hide HoursAt, Push;
    if n > 0 {
      PushZeroHoursAt(log, long, e, h, n - 1);
      PushHourAt(long, e, h + n - 1);
      assert long[h + n - 1 - e] == Zero();
    }
  }

  // Beyond one ring of empty hours, further empty hours change nothing.
  lemma IdleHoursAlike(log: seq<Record>, long: seq<Record>, e: nat, h: nat, later: nat)
    requires Idles(log, long) && e + |log| + HOURS <= h <= later <= e + |long|
    ensures HoursAt(long, e, h) == HoursAt(long, e, later)
  {
    var a, b := HoursAt(long, e, h), HoursAt(long, e, later);
    forall i | 0 <= i < HOURS ensures a[i] == b[i] {
      assert a[i] == long[h - HOURS - e + i] == Zero();
      assert b[i] == long[later - HOURS - e + i] == Zero();
    }
  }

  lemma HoursIdle(log: Log, long: Log, e: nat, h: nat)
    requires e <= h < e + |log| && Idles(log, long)
    ensures HoursAt(long, e, h) == HoursAt(log, e, h)
  {
    var lo, hi := FirstHour(e, h) - e, h - e;
    assert log == long[..|log|];
    assert long[..|log|][lo..hi] == long[lo..hi];
  }

  // The current hour joins the ring as it ends.
  lemma EndHourAt(log: Log, long: Log, e: nat, h: nat)
    requires h == e + |log| - 1 && Idles(log, long)
    ensures Push(HoursAt(log, e, h), log[|log| - 1], HOURS) == HoursAt(long, e, h + 1)
  {
    HoursIdle(log, long, e, h);
    assert long[h - e] == long[..|log|][|log| - 1];
    PushHourAt(long, e, h);
  }

  // So do the empty hours after it, at most one ring of them.
  lemma PushGapHours(log: Log, long: Log, e: nat, h: nat, gap: nat, n: nat)
    requires h == e + |log| && Idles(log, long) && |long| >= |log| + gap && n == Min(gap, HOURS)
    ensures PushZeroHours(HoursAt(long, e, h), n) == HoursAt(long, e, h + gap)
  {
    PushZeroHoursAt(log, long, e, h, n);
    if gap > HOURS {
      IdleHoursAlike(log, long, e, h + n, h + gap);
    }
  }

  lemma PushDayFull(v: View, row: Record, log: seq<Record>, e: nat, d: nat)
    requires DaysUpTo(v, log, e, d) && d - FirstDay(e, d) == DAYS && row == DayRange(log, e, d)
    ensures DaysUpTo(PushDay(v, row), log, e, d + 1)
  {
    var first := FirstDay(e, d);
    RangeSplit(log, e, 0, 24 * first, 24 * first + 24);
    assert v.days[0] == DayRange(log, e, first);
    assert FirstDay(e, d + 1) == first + 1;
    assert v.days[1..] + [row] == DaysAt(log, e, d + 1);
  }

  lemma PushDayAt(v: View, row: Record, log: seq<Record>, e: nat, d: nat)
    requires DaysUpTo(v, log, e, d) && row == DayRange(log, e, d)
    ensures DaysUpTo(PushDay(v, row), log, e, d + 1)
  {
    if d - FirstDay(e, d) == DAYS {
      PushDayFull(v, row, log, e, d);
    } else {
      assert FirstDay(e, d + 1) == FirstDay(e, d);
      assert v.days + [row] == DaysAt(log, e, d + 1);
    }
  }

  lemma {:induction false} PushZeroDaysAt(v: View, log: seq<Record>, long: seq<Record>, e: nat, d: nat, n: nat)
    requires DaysUpTo(v, long, e, d) && Idles(log, long) && e + |log| <= 24 * d
    ensures DaysUpTo(PushZeroDays(v, n), long, e, d + n)
  {
    if n > 0 {
      var day := d + n - 1;
      PushZeroDaysAt(v, log, long, e, d, n - 1);
      RangeIdle(log, long, e, 24 * day, 24 * day + 24);
      PushDayAt(PushZeroDays(v, n - 1), Zero(), long, e, day);
    }
  }

  lemma ZeroDaysAlike(log: seq<Record>, long: seq<Record>, e: nat, first: nat, later: nat, n: nat)
    requires Idles(log, long) && e + |log| <= 24 * first && first <= later
    ensures DayRanges(long, e, first, n) == DayRanges(long, e, later, n)
  {
    var a, b := DayRanges(long, e, first, n), DayRanges(long, e, later, n);
    forall i | 0 <= i < n ensures a[i] == b[i] {
      RangeIdle(log, long, e, 24 * (first + i), 24 * (first + i) + 24);
      RangeIdle(log, long, e, 24 * (later + i), 24 * (later + i) + 24);
      assert a[i] == DayRange(long, e, first + i) && b[i] == DayRange(long, e, later + i);
    }
  }

  // Beyond one ring of zero days, further zero days only shift the eviction count.
  lemma SkipZeroDays(v: View, log: seq<Record>, long: seq<Record>, e: nat, d: nat, more: nat)
    requires DaysUpTo(v, long, e, d + DAYS) && Idles(log, long) && e + |log| <= 24 * d
    ensures DaysUpTo(v.(evictedDays := v.evictedDays + more), long, e, d + DAYS + more)
  {
    assert FirstDay(e, d + DAYS) == d && FirstDay(e, d + DAYS + more) == d + more;
    RangeSplit(long, e, 0, 24 * d, 24 * (d + more));
    RangeIdle(log, long, e, 24 * d, 24 * (d + more));
    MergeZero(v.evicted);
    ZeroDaysAlike(log, long, e, d, d + more, DAYS);
  }

  lemma DaysIdle(v: View, log: Log, long: Log, e: nat, d: nat)
    requires DaysUpTo(v, log, e, d) && Idles(log, long)
    ensures DaysUpTo(v, long, e, d)
  {
    var a, b := DaysAt(log, e, d), DaysAt(long, e, d);
    forall i | 0 <= i < |a| ensures a[i] == b[i] {
      var day := FirstDay(e, d) + i;
      RangeIdles(log, long, e, 24 * day, 24 * day + 24);
      assert a[i] == DayRange(log, e, day) && b[i] == DayRange(long, e, day);
    }
    RangeIdles(log, long, e, 0, 24 * FirstDay(e, d));
  }

  // ----- one roll touches the hour side and the day side separately -----

  lemma PushDayEffect(v: View, row: Record)
    ensures var w := PushDay(v, row); w == v.(days := w.days, evicted := w.evicted, evictedDays := w.evictedDays)
  {
  }

  lemma {:induction false} PushZeroDaysEffect(v: View, n: nat)
    ensures var w := PushZeroDays(v, n); w == v.(days := w.days, evicted := w.evicted, evictedDays := w.evictedDays)
  {
    if n > 0 {
      PushZeroDaysEffect(v, n - 1);
      PushDayEffect(PushZeroDays(v, n - 1), Zero());
    }
  }

  lemma {:induction false} PushZeroDaysFrame(v: View, hours: seq<Record>, hour: Record, hourIndex: nat, n: nat)
    ensures PushZeroDays(v.(hours := hours, hour := hour, hourIndex := hourIndex), n) ==
      PushZeroDays(v, n).(hours := hours, hour := hour, hourIndex := hourIndex)
  {
    if n > 0 { PushZeroDaysFrame(v, hours, hour, hourIndex, n - 1); }
  }

  lemma RollDayFrame(v: View, hours: seq<Record>, hour: Record, hourIndex: nat, day: nat)
    ensures RollDay(v.(hours := hours, hour := hour, hourIndex := hourIndex), day) ==
      RollDay(v, day).(hours := hours, hour := hour, hourIndex := hourIndex)
  {
    if day > v.dayIndex {
      var n := Min(day - v.dayIndex - 1, DAYS);
      PushZeroDaysFrame(PushDay(v, v.day), hours, hour, hourIndex, n);
    }
  }

  lemma RollDayKeeps(v: View, day: nat)
    requires v.dayIndex <= day
    ensures var w := RollDay(v, day); w.cumulative == v.cumulative && w.epoch == v.epoch && w.dayIndex == day
  {
    if day > v.dayIndex {
      PushZeroDaysEffect(PushDay(v, v.day), Min(day - v.dayIndex - 1, DAYS));
    }
  }

  // At most one ring of zero days is pushed for a gap; the rest are only counted.
  lemma PushGapDays(v: View, log: Log, long: Log, e: nat, d: nat, gap: nat, n: nat)
    requires Idles(log, long) && e + |log| <= 24 * d && n == Min(gap, DAYS) && DaysUpTo(v, long, e, d)
    ensures var w := PushZeroDays(v, n);
      DaysUpTo(w.(evictedDays := w.evictedDays + (gap - n)), long, e, d + gap)
  {
    PushZeroDaysAt(v, log, long, e, d, n);
    if gap > DAYS {
      SkipZeroDays(PushZeroDays(v, n), log, long, e, d, gap - n);
    }
  }

  lemma RollDayUnfold(v: View, later: nat, gap: nat, n: nat, w: View)
    requires v.dayIndex < later && gap == later - v.dayIndex - 1 && n == Min(gap, DAYS)
    requires w == PushZeroDays(PushDay(v, v.day), n)
    ensures RollDay(v, later) == w.(evictedDays := w.evictedDays + (gap - n), day := Zero(), dayIndex := later)
  {
  }

  lemma SameDays(v: View, w: View, log: Log, e: nat, d: nat)
    requires DaysUpTo(v, log, e, d)
    requires w.days == v.days && w.evicted == v.evicted && w.evictedDays == v.evictedDays
    ensures DaysUpTo(w, log, e, d)
  {
  }

  // Rolling into a later day, once the day that ended is in the ring.
  lemma NewDay(v: View, u: View, log: Log, long: Log, e: nat, d: nat, later: nat)
    requires e + |log| <= 24 * d && v.dayIndex + 1 == d <= later && Idles(log, long)
    requires u == PushDay(v, v.day) && DaysUpTo(u, long, e, d)
    ensures DaysUpTo(RollDay(v, later), long, e, later)
  {
    var gap := later - d;
    var n := Min(gap, DAYS);
    var w := PushZeroDays(u, n);
    PushGapDays(u, log, long, e, d, gap, n);
    RollDayUnfold(v, later, gap, n, w);
    SameDays(w.(evictedDays := w.evictedDays + (gap - n)), RollDay(v, later), long, e, later);
  }

  lemma DayAfterRoll(v: View, log: Log, long: Log, e: nat, d: nat, later: nat)
    requires d == (e + |log| - 1) / 24 && d <= later && v.dayIndex == d && Idles(log, long)
    requires DaysUpTo(v, long, e, d) && v.day == DayRange(long, e, d)
    ensures DaysUpTo(RollDay(v, later), long, e, later)
    ensures DayRange(long, e, later) == RollDay(v, later).day
  {
    if d < later {
      PushDayAt(v, v.day, long, e, d);
      NewDay(v, PushDay(v, v.day), log, long, e, d + 1, later);
      RangeIdle(log, long, e, 24 * later, 24 * later + 24);
    }
  }

  // ----- rolling refines the log -----

  lemma HourSide(v: View, log: Log, long: Log, e: nat, hour: nat)
    requires v.hourIndex == e + |log| - 1 && hour > v.hourIndex
    requires Idles(log, long) && |long| == |log| + hour - v.hourIndex
    requires v.hours == HoursAt(log, e, v.hourIndex) && v.hour == log[|log| - 1]
    ensures RollHour(v, hour) == v.(hours := HoursAt(long, e, hour), hour := Zero(), hourIndex := hour)
  {
    var gap := hour - v.hourIndex - 1;
    EndHourAt(log, long, e, v.hourIndex);
    PushGapHours(log, long, e, v.hourIndex + 1, gap, Min(gap, HOURS));
  }

  lemma DaySide(v: View, epoch: nat, log: Log, long: Log, e: nat, d: nat, later: nat)
    requires v == Reflect(epoch, log) && Idles(log, long)
    requires e == epoch / 3600 && d == HourNow(epoch, log) / 24 <= later
    ensures DaysUpTo(RollDay(v, later), long, e, later)
    ensures DayRange(long, e, later) == RollDay(v, later).day
  {
    ReflectParts(epoch, log);
    DaysIdle(v, log, long, e, d);
    RangeIdles(log, long, e, 24 * d, 24 * d + 24);
    DayAfterRoll(v, log, long, e, d, later);
  }

  lemma RollJoins(w: View, epoch: nat, long: Log, hour: nat)
    requires w.epoch == epoch && hour == HourNow(epoch, long) && w.dayIndex == hour / 24
    requires w.cumulative == Total(long) && long[|long| - 1] == Zero()
    requires DaysUpTo(w, long, epoch / 3600, hour / 24) && DayRange(long, epoch / 3600, hour / 24) == w.day
    ensures w.(hours := HoursAt(long, epoch / 3600, hour), hour := Zero(), hourIndex := hour) == Reflect(epoch, long)
  {
    ReflectIs(epoch, long, w.(hours := HoursAt(long, epoch / 3600, hour), hour := Zero(), hourIndex := hour));
  }

  lemma RollForward(v: View, epoch: nat, log: Log, long: Log, hour: nat)
    requires v == Reflect(epoch, log) && Idles(log, long)
    requires hour == HourNow(epoch, long) > HourNow(epoch, log)
    ensures RollDay(RollHour(v, hour), hour / 24) == Reflect(epoch, long)
  {
    var e, w := epoch / 3600, RollDay(v, hour / 24);
    HourSide(v, log, long, e, hour);
    RollDayFrame(v, HoursAt(long, e, hour), Zero(), hour, hour / 24);
    RollDayKeeps(v, hour / 24);
    TotalIdles(log, long);
    DaySide(v, epoch, log, long, e, HourNow(epoch, log) / 24, hour / 24);
    RollJoins(w, epoch, long, hour);
  }

  // How many hours of log a clock reading adds.
  function NewHours(epoch: nat, log: Log, wall: nat): nat {
    if wall / 3600 > HourNow(epoch, log) then wall / 3600 - HourNow(epoch, log) else 0
  }

  // The log once the clock has been read.
  function Rolled(epoch: nat, log: Log, wall: nat): Log {
    log + Zeros(NewHours(epoch, log, wall))
  }

  lemma RolledIdles(epoch: nat, log: Log, wall: nat)
    ensures Idles(log, Rolled(epoch, log, wall))
    ensures |Rolled(epoch, log, wall)| == |log| + NewHours(epoch, log, wall)
    ensures wall / 3600 <= HourNow(epoch, log) ==> Rolled(epoch, log, wall) == log
  {
  }

  lemma RollSame(v: View, wall: nat)
    requires wall / 3600 <= v.hourIndex && v.dayIndex == v.hourIndex / 24
    ensures Roll(v, wall) == v
  {
  }

  lemma RollLater(v: View, wall: nat)
    ensures Roll(v, wall) == RollDay(RollHour(v, wall / 3600), wall / 3600 / 24)
  {
  }

  /** Rolling to a later hour is the log gaining that many empty hours, across any
      gap; rolling backwards or within the hour changes nothing. */
  lemma RollReflects(epoch: nat, log: Log, wall: nat)
    ensures Roll(Reflect(epoch, log), wall) == Reflect(epoch, Rolled(epoch, log, wall))
  {
    var v, long := Reflect(epoch, log), Rolled(epoch, log, wall);
    RolledIdles(epoch, log, wall);
    if wall / 3600 <= HourNow(epoch, log) {
      RollSame(v, wall);
    } else {
      RollLater(v, wall);
      RollForward(v, epoch, log, long, wall / 3600);
    }
  }

  // ----- whole histories -----

  datatype Op = Counting(field: nat, amount: Word) | Peaking(field: nat, value: Word) | Rolling(wall: nat)

  // Sums are counted on SUM fields and peaks on MAX fields; unknown fields are ignored.
  predicate ProperOp(op: Op) {
    match op
    case Counting(field, _) => field >= FIELDS || !IsMax(field)
    case Peaking(field, _) => field >= FIELDS || IsMax(field)
    case Rolling(_) => true
  }

  function Perform(v: View, op: Op): View {
    match op
    case Counting(field, amount) => Add(v, field, amount)
    case Peaking(field, value) => Raise(v, field, value)
    case Rolling(wall) => Roll(v, wall)
  }

  function Performed(v: View, ops: seq<Op>): View {
    if ops == [] then v else Perform(Performed(v, ops[..|ops| - 1]), ops[|ops| - 1])
  }

  function LogOp(epoch: nat, log: Log, op: Op): Log {
    match op
    case Counting(field, amount) => if field < FIELDS then Counted(log, Delta(field, amount)) else log
    case Peaking(field, value) => if field < FIELDS then Counted(log, Delta(field, value)) else log
    case Rolling(wall) => Rolled(epoch, log, wall)
  }

  function LogOf(epoch: nat, ops: seq<Op>): Log {
    if ops == [] then [Zero()] else LogOp(epoch, LogOf(epoch, ops[..|ops| - 1]), ops[|ops| - 1])
  }

  lemma EmptyLogTotals(e: nat)
    ensures var log: Log := [Zero()];
      Total(log) == Zero() && DayRange(log, e, e / 24) == Zero() && EvictedAt(log, e, e / 24) == Zero()
  {
    var log: Log := [Zero()];
    TotalZeros(log);
    TotalZeros(Stretch(log, e, 24 * (e / 24), 24 * (e / 24) + 24));
    TotalZeros(Stretch(log, e, 0, 24 * FirstDay(e, e / 24)));
  }

  lemma InitReflects(wall: nat)
    ensures Init(wall) == Reflect(wall, [Zero()])
  {
    EmptyLogTotals(wall / 3600);
    ReflectIs(wall, [Zero()], Init(wall));
  }

  /** After any operations, in any order and on any clock, the two rings, the evicted
      summary and the totals are exactly what the plain log stands for. */
  lemma {:induction false} HistoryReflects(epoch: nat, ops: seq<Op>)
    requires forall i :: 0 <= i < |ops| ==> ProperOp(ops[i])
    ensures Performed(Init(epoch), ops) == Reflect(epoch, LogOf(epoch, ops))
  {
    if ops == [] {
      InitReflects(epoch);
    } else {
      var before, op := ops[..|ops| - 1], ops[|ops| - 1];
      HistoryReflects(epoch, before);
      var log := LogOf(epoch, before);
      match op {
        case Counting(field, amount) => if field < FIELDS { AddReflects(epoch, log, field, amount); }
        case Peaking(field, value) => if field < FIELDS { RaiseReflects(epoch, log, field, value); }
        case Rolling(wall) => RollReflects(epoch, log, wall);
      }
    }
  }
}
