/** The statistics state of stats.c, updated in place. Every method is proved against
    the history function it performs. */
module Stats {
  import opened Options
  import opened Bytes
  import opened LittleEndian
  import opened Records
  import opened History
  import opened Ring
  import Csv
  import Codec
  import StatsFile

  class StatState {
    var enabled: bool
    var epoch: nat
    var hourIndex: nat
    var dayIndex: nat
    var evictedDays: nat
    const cumulative: array<Word>
    const hour: array<Word>
    const day: array<Word>
    const evicted: array<Word>
    const hours: StatRing
    const days: StatRing

    ghost function Repr(): set<object> {
      {this, cumulative, hour, day, evicted, hours, hours.rows, days, days.rows}
    }

    ghost predicate Valid()
      reads Repr()
    {
      && cumulative.Length == hour.Length == day.Length == evicted.Length == FIELDS
      && cumulative != hour && cumulative != day && cumulative != evicted
      && hour != day && hour != evicted && day != evicted
      && hours != days && hours.rows != days.rows
      && hours.Valid() && hours.rows.Length == HOURS
      && days.Valid() && days.rows.Length == DAYS
    }

    ghost function View(): View
      requires Valid()
      reads Repr()
    {
      History.View(epoch, hourIndex, dayIndex, evictedDays, cumulative[..], hour[..], day[..], evicted[..],
                   hours.Contents(), days.Contents())
    }

    /** ankah_stats_init */
    constructor (wall: nat)
      ensures Valid() && enabled && View() == Init(wall) && fresh(Repr())
    {
      enabled, epoch, hourIndex, dayIndex, evictedDays := true, wall, wall / 3600, wall / 86400, 0;
      cumulative := new Word[FIELDS](_ => 0);
      hour := new Word[FIELDS](_ => 0);
      day := new Word[FIELDS](_ => 0);
      evicted := new Word[FIELDS](_ => 0);
      hours := new StatRing(HOURS);
      days := new StatRing(DAYS);
    }

    /** ankah_stats_disable */
    method Disable()
      requires Valid()
      modifies this`enabled
      ensures Valid() && !enabled && View() == old(View())
    {
      enabled := false;
    }

    /** ankah_stats_add */
    method Add(field: nat, amount: Word)
      requires Valid()
      modifies cumulative, hour, day
      ensures Valid() && View() == if enabled then History.Add(old(View()), field, amount) else old(View())
    {
      if !enabled || field >= FIELDS { return; }
      cumulative[field] := (cumulative[field] + amount) % U64;
      hour[field] := (hour[field] + amount) % U64;
      day[field] := (day[field] + amount) % U64;
    }

    /** ankah_stats_max */
    method Max(field: nat, value: Word)
      requires Valid()
      modifies cumulative, hour, day
      ensures Valid() && View() == if enabled then Raise(old(View()), field, value) else old(View())
    {
      if !enabled || field >= FIELDS { return; }
      if value > cumulative[field] { cumulative[field] := value; }
      if value > hour[field] { hour[field] := value; }
      if value > day[field] { day[field] := value; }
    }

    /** push_day */
    method PushDay(row: Record)
      requires Valid()
      modifies this`evictedDays, evicted, days`head, days`count, days.rows
      ensures Valid() && View() == History.PushDay(old(View()), row)
    {
      var displaced := days.Push(row);
      if displaced.Some? {
        MergeInto(evicted, displaced.value);
        evictedDays := evictedDays + 1;
      }
    }

    method Clear(record: array<Word>)
      requires Valid() && record in {hour, day}
      modifies record
      ensures Valid() && record[..] == Zero()
      ensures View() == if record == hour then old(View()).(hour := Zero()) else old(View()).(day := Zero())
    {
      forall i | 0 <= i < FIELDS { record[i] := 0; }
      assert record[..] == Zero();
    }

    method RollHour(newHour: nat)
      requires Valid()
      modifies this`hourIndex, hour, hours`head, hours`count, hours.rows
      ensures Valid() && View() == History.RollHour(old(View()), newHour)
    {
      if newHour <= hourIndex { return; }
      var gap := newHour - hourIndex - 1;
      ghost var first := History.Push(hours.Contents(), hour[..], HOURS);
      ghost var before := View();
      var displaced := hours.Push(hour[..]);
      for pushed := 0 to Min(gap, HOURS)
        invariant Valid() && View() == before.(hours := PushZeroHours(first, pushed))
      {
        displaced := hours.Push(Zero());
      }
      Clear(hour);
      hourIndex := newHour;
    }

    method RollDay(newDay: nat)
      requires Valid()
      modifies this`evictedDays, this`dayIndex, day, evicted, days`head, days`count, days.rows
      ensures Valid() && View() == History.RollDay(old(View()), newDay)
    {
      hide History.PushDay, PushZeroDays;
      if newDay <= dayIndex { return; }
      var gap := newDay - dayIndex - 1;
      ghost var first := History.PushDay(View(), day[..]);
      PushDay(day[..]);
      PushZeroDaysNext(first, 0);
      for pushed := 0 to Min(gap, DAYS)
        invariant Valid() && dayIndex == old(dayIndex) && View() == PushZeroDays(first, pushed)
      {
        PushZeroDaysNext(first, pushed);
        PushDay(Zero());
      }
      evictedDays := evictedDays + (gap - Min(gap, DAYS));
      Clear(day);
      dayIndex := newDay;
    }

    /** ankah_stats_roll */
    method Roll(wall: nat)
      requires Valid()
      modifies Repr()
      ensures Valid() && enabled == old(enabled)
      ensures View() == if enabled then History.Roll(old(View()), wall) else old(View())
    {
      if !enabled { return; }
      RollHour(wall / 3600);
      RollDay(wall / 86400);
    }

    /** ankah_stats_write_csv, row by row; formatting is not part of the model. */
    method WriteCsv(wall: nat) returns (rows: seq<Csv.Row>)
      requires Valid() && Csv.Shaped(if enabled then History.Roll(View(), wall) else View())
      modifies Repr()
      ensures Valid() && View() == if enabled then History.Roll(old(View()), wall) else old(View())
      ensures Csv.Shaped(View()) && rows == Csv.CsvRows(View(), wall)
    {
      Roll(wall);
      rows := WriteRows(wall);
    }

    method WriteRows(wall: nat) returns (rows: seq<Csv.Row>)
      requires Valid() && Csv.Shaped(View())
      ensures rows == Csv.CsvRows(View(), wall)
    {
      var firstDay, firstHour := dayIndex - days.count, hourIndex - hours.count;
      rows := [];
      if evictedDays > 0 {
        rows := [Csv.Row(Csv.AggregateDays, epoch, firstDay * 86400, false, evictedDays, evicted[..])];
      }
      var cutoff := firstHour;
      if firstHour % 24 != 0 && firstHour / 24 >= firstDay && firstHour / 24 < dayIndex {
        cutoff := (firstHour / 24 + 1) * 24;
      }
      var start := Csv.Max(hourIndex * 3600, epoch);
      var current := Csv.Row(Csv.CurrentHour, start, if wall < start then start else wall, true, 1, hour[..]);
      var dayRows, hourRows := WriteBuckets(firstDay, cutoff);
      Csv.RowsJoin(View(), wall, rows, dayRows, hourRows, current);
      rows := rows + dayRows + hourRows + [current];
    }

    method WriteBuckets(firstDay: nat, cutoff: nat) returns (dayRows: seq<Csv.Row>, hourRows: seq<Csv.Row>)
      requires Valid() && Csv.Shaped(View()) && firstDay == dayIndex - days.count && cutoff == Csv.Cutoff(View())
      ensures dayRows == Csv.DayRows(View(), Csv.StopDay(View()))
      ensures hourRows == Csv.HourRows(View(), cutoff, hourIndex)
    {
      dayRows := WriteDays(firstDay, cutoff);
      hourRows := WriteHours(cutoff);
    }

    method WriteDays(firstDay: nat, cutoff: nat) returns (rows: seq<Csv.Row>)
      requires Valid() && Csv.Shaped(View()) && firstDay == dayIndex - days.count && cutoff == Csv.Cutoff(View())
      ensures rows == Csv.DayRows(View(), Csv.StopDay(View()))
    {
      ghost var v := View();
      rows := [];
      var index := firstDay;
      while index < dayIndex
        invariant firstDay <= index <= dayIndex && (index > firstDay ==> 24 * index <= cutoff)
        invariant rows == Csv.DayRows(v, index)
      {
        var end := (index + 1) * 86400;
        if end > cutoff * 3600 { break; }
        var row := days.Age(dayIndex - 1 - index);
        assert row.value == v.days[index - firstDay];
        rows := rows + [Csv.Row(Csv.DayKind, Csv.Max(index * 86400, epoch), end, false, 1, row.value)];
        index := index + 1;
      }
      assert index == Csv.StopDay(v);
    }

    method WriteHours(cutoff: nat) returns (rows: seq<Csv.Row>)
      requires Valid() && Csv.Shaped(View()) && hourIndex - hours.count <= cutoff
      ensures rows == Csv.HourRows(View(), cutoff, hourIndex)
    {
      ghost var v := View();
      rows := [];
      var index := cutoff;
      while index < hourIndex
        invariant index >= cutoff && (index > cutoff ==> index <= hourIndex)
        invariant rows == Csv.HourRows(v, cutoff, index)
      {
        var row := hours.Age(hourIndex - 1 - index);
        assert row.value == v.hours[index - Csv.FirstHourRow(v)];
        rows := rows + [Csv.Row(Csv.HourKind, Csv.Max(index * 3600, epoch), (index + 1) * 3600, false, 1, row.value)];
        index := index + 1;
      }
    }

    /** encode_snapshot: both rings are written by age, oldest first. */
    method EncodeSnapshot(generation: nat, wall: nat, sha: Bytes -> Digest)
      returns (data: Bytes)
      requires Valid()
      ensures data == Codec.Encode(View(), generation, wall, sha)
    {
      data := EncodeHeader(generation, wall);
      var summaries := EncodeSummaries();
      var hourRows := EncodeRing(hours);
      var dayRows := EncodeRing(days);
      PutRowsConcat([cumulative[..], hour[..], day[..], evicted[..]], hours.Contents());
      PutRowsConcat([cumulative[..], hour[..], day[..], evicted[..]] + hours.Contents(), days.Contents());
      var rows := summaries + hourRows + dayRows;
      data := data + rows;
      data := data + sha(data);
    }

    method EncodeHeader(generation: nat, wall: nat) returns (data: Bytes)
      requires Valid()
      ensures data == Codec.Header(Codec.WrittenInts(View(), generation, wall))
    {
      var shape := StatsFile.PutInts(4, [Codec.VERSION, FIELDS, HOURS, DAYS]);
      var clock := StatsFile.PutInts(8, [generation, wall, epoch, hourIndex, dayIndex, evictedDays]);
      var counts := StatsFile.PutInts(4, [hours.count, days.count]);
      data := Codec.MAGIC + shape + clock + counts;
    }

    method EncodeSummaries() returns (data: Bytes)
      requires Valid()
      ensures data == Codec.PutRows([cumulative[..], hour[..], day[..], evicted[..]])
    {
      var rows := [cumulative[..], hour[..], day[..], evicted[..]];
      data := [];
      for i := 0 to 4
        invariant data == Codec.PutRows(rows[..i])
      {
        var row := StatsFile.PutInts(8, rows[i]);
        StatsFile.PutRowsNext(rows, i);
        data := data + row;
      }
      assert rows[..4] == rows;
    }

    static method EncodeRing(ring: StatRing) returns (data: Bytes)
      requires ring.Valid()
      ensures data == Codec.PutRows(ring.Contents())
    {
      ghost var all := ring.Contents();
      data := [];
      var age: nat := ring.count;
      while age > 0
        invariant age <= |all| && data == Codec.PutRows(all[..|all| - age])
      {
        ghost var at := |all| - age;
        var row := ring.Age(age - 1);
        assert row.value == all[at];
        var bytes := StatsFile.PutInts(8, row.value);
        StatsFile.PutRowsNext(all, at);
        data := data + bytes;
        age := age - 1;
      }
      assert all[..|all|] == all;
    }

    /** The adoption of a decoded snapshot: its summaries, and its rings with their heads
        after the saved rows. */
    constructor Adopt(v: View)
      requires |v.hours| <= HOURS && |v.days| <= DAYS
      ensures Valid() && enabled && View() == v && fresh(Repr())
    {
      enabled, epoch, hourIndex, dayIndex, evictedDays := true, v.epoch, v.hourIndex, v.dayIndex, v.evictedDays;
      cumulative := new Word[FIELDS](i requires 0 <= i < FIELDS => v.cumulative[i]);
      hour := new Word[FIELDS](i requires 0 <= i < FIELDS => v.hour[i]);
      day := new Word[FIELDS](i requires 0 <= i < FIELDS => v.day[i]);
      evicted := new Word[FIELDS](i requires 0 <= i < FIELDS => v.evicted[i]);
      hours := new StatRing.Load(v.hours, HOURS);
      days := new StatRing.Load(v.days, DAYS);
    }

    /** ankah_stats_restore, once both slots were read and decoded. */
    static method Restore(slot0: Option<Codec.Decoded>, slot1: Option<Codec.Decoded>, wall: nat)
      returns (state: StatState)
      requires slot0.Some? ==> |slot0.value.view.hours| <= HOURS && |slot0.value.view.days| <= DAYS
      requires slot1.Some? ==> |slot1.value.view.hours| <= HOURS && |slot1.value.view.days| <= DAYS
      ensures state.Valid() && fresh(state.Repr()) && state.enabled
      ensures state.View() == StatsFile.Restored(slot0, slot1, wall)
    {
      var chosen := StatsFile.Newest(slot0, slot1);
      if chosen.Some? {
        state := new StatState.Adopt(chosen.value.view);
        state.Roll(wall);
      } else {
        state := new StatState(wall);
      }
    }
  }

  lemma PushZeroDaysNext(v: View, n: nat)
    ensures PushZeroDays(v, n + 1) == History.PushDay(PushZeroDays(v, n), Zero())
    ensures PushZeroDays(v, 0) == v
  {
  }

  lemma {:induction false} PutRowsConcat(a: seq<Record>, b: seq<Record>)
    ensures Codec.PutRows(a + b) == Codec.PutRows(a) + Codec.PutRows(b)
    decreases |b|
  {
    if b == [] {
      assert a + b == a;
    } else {
      var init, last := b[..|b| - 1], b[|b| - 1];
      PutRowsConcat(a, init);
      AppendSnoc(a, b);
      StatsFile.PutRowsSnoc(a + init, last);
      StatsFile.PutRowsSnoc(init, last);
      Regroup(Codec.PutRows(a), Codec.PutRows(init), PutMany(8, last));
    }
  }

  lemma AppendSnoc<T>(a: seq<T>, b: seq<T>)
    requires b != []
    ensures a + b == (a + b[..|b| - 1]) + [b[|b| - 1]] && b == b[..|b| - 1] + [b[|b| - 1]]
  {
  }
}
