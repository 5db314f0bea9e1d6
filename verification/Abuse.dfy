/** The abuse tracker: per address and kind of event, how many happened within the
    kind's window, with distinct paths for scans and a cooldown between signals. */
module Abuse {
  import opened Options
  import opened Trackers

  const CAPACITY := 4096
  const MARKS := 40
  const SECOND := 1_000_000_000
  const SCAN := 2
  const KINDS := 4

  datatype Profile = Off | Conservative | Strict

  // What is kept of one address: its marks of each kind, and its last signal.
  datatype Data = Data(marks: seq<seq<Mark>>, signal: Option<nat>)

  type Cells = seq<Cell<Data>>

  function Window(kind: nat): nat {
    if kind == 2 then 30 * SECOND else if kind == 3 then 600 * SECOND else 60 * SECOND
  }

  function Limit(profile: Profile, kind: nat): nat {
    match profile
    case Strict => if kind == 2 then 20 else if kind == 3 then 2 else 4
    case _ => if kind == 2 then 40 else if kind == 3 then 3 else 8
  }

  function PathLimit(profile: Profile): nat {
    if profile == Strict then 16 else 32
  }

  function Blank(): Data {
    Data([[], [], [], []], None)
  }

  predicate ValidCall(profile: Profile, ip: string, kind: nat) {
    profile != Off && ip != "" && |ip| < 64 && kind < KINDS
  }

  function Hashes(marks: seq<Mark>): set<nat> {
    set m | m in marks :: m.hash
  }

  // No signal within the last minute.
  predicate Cooled(signal: Option<nat>, now: nat) {
    signal.None? || now < signal.value || now - signal.value >= 60 * SECOND
  }

  // Whether the marks of a kind, the new one included, call for a signal.
  predicate Enough(profile: Profile, kind: nat, count: nat, paths: nat) {
    count >= Limit(profile, kind) && (kind == SCAN ==> paths >= PathLimit(profile))
  }

  function DataOf(cells: Cells, ip: string): Data {
    if Resident(cells, ip) then CellOf(cells, ip).data else Blank()
  }

  // ankah_abuse_record once the scan has placed the address; `hash` is the hash of the
  // path, which a scan may lack.
  function Record(cells: Cells, profile: Profile, ip: string, kind: nat, hash: Option<nat>, now: nat, slot: nat)
    : (Cells, bool)
    requires slot < |cells| && kind < KINDS
  {
    var data := DataOf(cells, ip);
    if |data.marks| != KINDS then (cells, false)
    else if kind == SCAN && hash.None? then (cells[slot := Cell(ip, now, data)], false)
    else
      var m := Mark(now, if kind == SCAN then hash.value else 0);
      var pushed := Push(data.marks[kind], m, Window(kind), MARKS);
      var fires := Enough(profile, kind, |pushed|, |Hashes(pushed)|) && Cooled(data.signal, now);
      (cells[slot := Cell(ip, now, Data(data.marks[kind := pushed], if fires then Some(now) else data.signal))], fires)
  }

  // ----- the unbounded reference -----

  // Every event of an address, by kind, since it became resident; and its last signal.
  datatype History = History(logs: seq<seq<Mark>>, signal: Option<nat>)

  function NewHistory(): History {
    History([[], [], [], []], None)
  }

  type Histories = map<string, History>

  function HistoryOf(histories: Histories, cells: Cells, ip: string): History {
    if Resident(cells, ip) && ip in histories then histories[ip] else NewHistory()
  }

  // It fires when enough events are in the window, counting this one; for scans, when the
  // last forty of them also have enough distinct paths; and outside the cooldown.
  predicate Fires(h: History, profile: Profile, kind: nat, m: Mark)
    requires |h.logs| == KINDS && kind < KINDS
  {
    var recent := Kept(h.logs[kind], m.at, Window(kind)) + [m];
    && |recent| >= Limit(profile, kind)
    && (kind == SCAN ==> |Hashes(LastOf(recent, MARKS))| >= PathLimit(profile))
    && Cooled(h.signal, m.at)
  }

  // The thresholds by kind: how many events, in how many seconds, and for scans on how many paths.
  datatype Threshold = Threshold(count: nat, seconds: nat, paths: nat)

  function ThresholdOf(strict: bool, kind: nat): Threshold {
    if kind == 2 then (if strict then Threshold(20, 30, 16) else Threshold(40, 30, 32))
    else if kind == 3 then Threshold(if strict then 2 else 3, 600, 0)
    else Threshold(if strict then 4 else 8, 60, 0)
  }

  /** When an event signals, counted on the log: enough events of its kind within the kind's time, this
      one included; for scans, on enough paths among the last forty; and a minute after the last signal. */
  lemma FiresExactly(h: History, profile: Profile, kind: nat, m: Mark)
    requires |h.logs| == KINDS && kind < KINDS
    ensures var log, t := h.logs[kind], ThresholdOf(profile == Strict, kind);
      var recent := Kept(log, m.at, t.seconds * SECOND) + [m];
      Fires(h, profile, kind, m) <==>
        && |Within(log, m.at, t.seconds * SECOND)| + 1 >= t.count
        && (kind == 2 ==> |Hashes(if |recent| <= 40 then recent else recent[|recent| - 40..])| >= t.paths)
        && (h.signal.None? || m.at < h.signal.value || m.at >= h.signal.value + 60 * SECOND)
  {
    hide Kept, Hashes;
    KeptMeans(h.logs[kind], m.at, Window(kind));
  }

  function Remembered(h: History, profile: Profile, kind: nat, hash: Option<nat>, now: nat): (History, bool)
    requires |h.logs| == KINDS && kind < KINDS
  {
    if kind == SCAN && hash.None? then (h, false)
    else
      var m := Mark(now, if kind == SCAN then hash.value else 0);
      var fires := Fires(h, profile, kind, m);
      (History(h.logs[kind := h.logs[kind] + [m]], if fires then Some(now) else h.signal), fires)
  }

  // ----- the tracker refines the history -----

  predicate KindTracks(data: Data, h: History, kind: nat, clock: nat)
    requires |data.marks| == KINDS && |h.logs| == KINDS && kind < KINDS
  {
    data.marks[kind] == Held(h.logs[kind], Window(kind), MARKS) && Sorted(h.logs[kind], clock)
  }

  predicate Tracks(data: Data, h: History, clock: nat) {
    && |data.marks| == KINDS && |h.logs| == KINDS && data.signal == h.signal
    && forall kind :: 0 <= kind < KINDS ==> KindTracks(data, h, kind, clock)
  }

  ghost predicate Inv(cells: Cells, histories: Histories, clock: nat) {
    && Distinct(cells)
    && forall ip :: ip != "" && Resident(cells, ip) ==>
         ip in histories && Tracks(CellOf(cells, ip).data, histories[ip], clock)
  }

  lemma SortedLater(log: seq<Mark>, now: nat, later: nat)
    requires Sorted(log, now) && now <= later
    ensures Sorted(log, later)
  {
  }

  lemma TracksLater(data: Data, h: History, now: nat, later: nat)
    requires Tracks(data, h, now) && now <= later
    ensures Tracks(data, h, later)
  {
    hide Held, Sorted;
    forall kind | 0 <= kind < KINDS ensures KindTracks(data, h, kind, later) {
      assert KindTracks(data, h, kind, now);
      SortedLater(h.logs[kind], now, later);
    }
  }

  lemma BlankTracks(now: nat)
    ensures Tracks(Blank(), NewHistory(), now)
  {
    forall kind | 0 <= kind < KINDS ensures KindTracks(Blank(), NewHistory(), kind, now) {
      assert Blank().marks[kind] == [] && NewHistory().logs[kind] == [];
    }
  }

  // The stored marks, cut to forty, decide as the whole window does.
  lemma CountsAgree(log: seq<Mark>, m: Mark, profile: Profile, kind: nat)
    requires kind < KINDS && Sorted(log, m.at)
    ensures var pushed := Held(log + [m], Window(kind), MARKS); var recent := Kept(log, m.at, Window(kind)) + [m];
      pushed == LastOf(recent, MARKS) && (|pushed| >= Limit(profile, kind) <==> |recent| >= Limit(profile, kind))
  {
    hide Kept, Sorted;
    assert (log + [m])[..|log|] == log;
    LastOfSnoc(Kept(log, m.at, Window(kind)), m, MARKS);
  }

  lemma PushTracks(data: Data, h: History, kind: nat, m: Mark, signal: Option<nat>)
    requires Tracks(data, h, m.at) && kind < KINDS
    ensures var pushed := Push(data.marks[kind], m, Window(kind), MARKS);
      && pushed == Held(h.logs[kind] + [m], Window(kind), MARKS)
      && Tracks(Data(data.marks[kind := pushed], signal), History(h.logs[kind := h.logs[kind] + [m]], signal), m.at)
  {
    hide Held, Sorted, Push, Kept;
    assert KindTracks(data, h, kind, m.at);
    PushHeld(h.logs[kind], m, Window(kind), MARKS);
    SortedSnoc(h.logs[kind], m);
    var pushed := Push(data.marks[kind], m, Window(kind), MARKS);
    var d, g := Data(data.marks[kind := pushed], signal), History(h.logs[kind := h.logs[kind] + [m]], signal);
    forall k | 0 <= k < KINDS ensures KindTracks(d, g, k, m.at) {
      assert KindTracks(data, h, k, m.at);
    }
  }

  // One recorded event on one address.
  lemma RecordOne(data: Data, h: History, profile: Profile, kind: nat, m: Mark)
    requires Tracks(data, h, m.at) && kind < KINDS
    ensures var pushed := Push(data.marks[kind], m, Window(kind), MARKS);
      (Enough(profile, kind, |pushed|, |Hashes(pushed)|) && Cooled(data.signal, m.at)) <==> Fires(h, profile, kind, m)
  {
    assert KindTracks(data, h, kind, m.at);
    hide Held, Sorted, Push, Kept, LastOf, Hashes, Limit, PathLimit, Cooled;
    PushTracks(data, h, kind, m, h.signal);
    CountsAgree(h.logs[kind], m, profile, kind);
  }

  /** One event: the tracker signals exactly when the address's history says so, and goes
      on tracking every resident address. */
  lemma RecordRefines(cells: Cells, histories: Histories, profile: Profile, ip: string, kind: nat, hash: Option<nat>,
                      now: nat, slot: nat, clock: nat)
    requires Inv(cells, histories, clock) && clock <= now && ValidCall(profile, ip, kind) && Placed(cells, ip, slot)
    ensures var h := HistoryOf(histories, cells, ip); |h.logs| == KINDS
    ensures var (after, fires) := Record(cells, profile, ip, kind, hash, now, slot);
      var (remembered, should) := Remembered(HistoryOf(histories, cells, ip), profile, kind, hash, now);
      fires == should && Inv(after, histories[ip := remembered], now)
  {
    var data, h := DataOf(cells, ip), HistoryOf(histories, cells, ip);
    BlankTracks(now);
    if Resident(cells, ip) { TracksLater(data, h, clock, now); }
    assert Tracks(data, h, now);
    CellTracks(data, h, profile, kind, hash, now);
    hide Tracks, Held, Kept, Push, Fires, Enough, Cooled, Distinct, IndexOf, Hashes, Blank, NewHistory;
    var (after, fires) := Record(cells, profile, ip, kind, hash, now, slot);
    PlacedKeeps(cells, ip, slot, after[slot]);
    var remembered := Remembered(h, profile, kind, hash, now).0;
    forall other | other != "" && Resident(after, other)
      ensures other in histories[ip := remembered]
      ensures Tracks(CellOf(after, other).data, histories[ip := remembered][other], now)
    {
      if other != ip { TracksLater(CellOf(cells, other).data, histories[other], clock, now); }
    }
  }

  // What a recorded event leaves in the address's own cell.
  lemma CellTracks(data: Data, h: History, profile: Profile, kind: nat, hash: Option<nat>, now: nat)
    requires Tracks(data, h, now) && kind < KINDS
    ensures |data.marks| == KINDS && |h.logs| == KINDS
    ensures kind != SCAN || hash.Some? ==>
      var m := Mark(now, if kind == SCAN then hash.value else 0);
      var pushed := Push(data.marks[kind], m, Window(kind), MARKS);
      var fires := Enough(profile, kind, |pushed|, |Hashes(pushed)|) && Cooled(data.signal, now);
      && fires == Fires(h, profile, kind, m)
      && Tracks(Data(data.marks[kind := pushed], if fires then Some(now) else data.signal),
                Remembered(h, profile, kind, hash, now).0, now)
  {
    if kind != SCAN || hash.Some? {
      var m := Mark(now, if kind == SCAN then hash.value else 0);
      hide Held, Kept, Push, Fires, Enough, Cooled, Hashes;
      RecordOne(data, h, profile, kind, m);
      PushTracks(data, h, kind, m, if Fires(h, profile, kind, m) then Some(now) else h.signal);
    }
  }

  // ----- whole runs -----

  datatype Call = Call(ip: string, kind: nat, hash: Option<nat>, now: nat, slot: nat)

  predicate Runs(cells: Cells, profile: Profile, calls: seq<Call>, clock: nat)
    decreases |calls|
  {
    calls == [] ||
    (var c := calls[0];
     && clock <= c.now && ValidCall(profile, c.ip, c.kind) && Placed(cells, c.ip, c.slot)
     && Runs(Record(cells, profile, c.ip, c.kind, c.hash, c.now, c.slot).0, profile, calls[1..], c.now))
  }

  function Fired(cells: Cells, profile: Profile, calls: seq<Call>, clock: nat): seq<bool>
    requires Runs(cells, profile, calls, clock)
    decreases |calls|
  {
    if calls == [] then []
    else
      var c := calls[0];
      var (after, fires) := Record(cells, profile, c.ip, c.kind, c.hash, c.now, c.slot);
      [fires] + Fired(after, profile, calls[1..], c.now)
  }

  ghost function ShouldFire(cells: Cells, histories: Histories, profile: Profile,
                              calls: seq<Call>, clock: nat): seq<bool>
    requires Runs(cells, profile, calls, clock) && Inv(cells, histories, clock)
    decreases |calls|
  {
    if calls == [] then []
    else
      var c := calls[0];
      RecordRefines(cells, histories, profile, c.ip, c.kind, c.hash, c.now, c.slot, clock);
      var (remembered, should) := Remembered(HistoryOf(histories, cells, c.ip), profile, c.kind, c.hash, c.now);
      [should] + ShouldFire(Record(cells, profile, c.ip, c.kind, c.hash, c.now, c.slot).0,
                            histories[c.ip := remembered], profile, calls[1..], c.now)
  }

  /** Over any run with one profile, the bounded tracker signals exactly when the unbounded
      histories of the resident addresses say so. */
  lemma {:induction false} TrackerRefines(cells: Cells, histories: Histories, profile: Profile,
                                        calls: seq<Call>, clock: nat)
    requires Runs(cells, profile, calls, clock) && Inv(cells, histories, clock)
    ensures Fired(cells, profile, calls, clock) == ShouldFire(cells, histories, profile, calls, clock)
    decreases |calls|
  {
    hide Inv, Record, Remembered, HistoryOf;
    if calls != [] {
      var c := calls[0];
      RecordRefines(cells, histories, profile, c.ip, c.kind, c.hash, c.now, c.slot, clock);
      var (remembered, should) := Remembered(HistoryOf(histories, cells, c.ip), profile, c.kind, c.hash, c.now);
      TrackerRefines(Record(cells, profile, c.ip, c.kind, c.hash, c.now, c.slot).0, histories[c.ip := remembered],
                     profile, calls[1..], c.now);
    }
  }

  lemma EmptyTracks(cells: Cells, clock: nat)
    requires forall k :: 0 <= k < |cells| ==> cells[k].ip == ""
    ensures Inv(cells, map[], clock)
  {
  }

  // ----- the tracker in place -----

  function SetBits(bits: seq<bool>, n: nat): set<nat>
    requires n <= |bits|
  {
    set k | 0 <= k < n && bits[k]
  }

  /** The bitmap of path hashes and its population count. */
  method CountPaths(marks: seq<Mark>) returns (count: nat)
    requires forall i :: 0 <= i < |marks| ==> marks[i].hash < 256
    ensures count == |Hashes(marks)|
  {
    var bits := new bool[256](_ => false);
    for i := 0 to |marks|
      invariant forall k :: 0 <= k < 256 ==> (bits[k] <==> exists j :: 0 <= j < i && marks[j].hash == k)
    {
      bits[marks[i].hash] := true;
    }
    count := 0;
    for k := 0 to 256
      invariant count == |SetBits(bits[..], k)|
    {
      ghost var before, after := SetBits(bits[..], k), SetBits(bits[..], k + 1);
      if bits[k] {
        assert after == before + {k};
        count := count + 1;
      } else {
        assert after == before;
      }
    }
    BitsAreHashes(bits[..], marks);
  }

  lemma BitsAreHashes(bits: seq<bool>, marks: seq<Mark>)
    requires |bits| == 256 && forall i :: 0 <= i < |marks| ==> marks[i].hash < 256
    requires forall k :: 0 <= k < 256 ==> (bits[k] <==> exists j :: 0 <= j < |marks| && marks[j].hash == k)
    ensures SetBits(bits, 256) == Hashes(marks)
  {
    forall k ensures k in SetBits(bits, 256) <==> k in Hashes(marks) {
      if k in SetBits(bits, 256) {
        var j :| 0 <= j < |marks| && marks[j].hash == k;
        assert marks[j] in marks;
      }
      if k in Hashes(marks) {
        var m :| m in marks && m.hash == k;
        var j :| 0 <= j < |marks| && marks[j] == m;
        assert bits[k];
      }
    }
  }

  // Path hashes are bytes.
  predicate BytesOnly(data: Data) {
    |data.marks| == KINDS && forall j :: 0 <= j < |data.marks[SCAN]| ==> data.marks[SCAN][j].hash < 256
  }

  predicate ByteHashes(cells: Cells) {
    forall k :: 0 <= k < |cells| ==> BytesOnly(cells[k].data)
  }

  class Policy {
    const cells: array<Cell<Data>>
    var profile: Profile

    constructor ()
      ensures cells.Length == CAPACITY && fresh(cells) && profile == Conservative
      ensures forall k :: 0 <= k < CAPACITY ==> cells[k] == Cell("", 0, Blank())
    {
      cells := new Cell<Data>[CAPACITY](_ => Cell("", 0, Blank()));
      profile := Conservative;
    }

    /** ankah_abuse_record */
    method RecordEvent(ip: string, kind: nat, hash: Option<nat>, now: nat) returns (fires: bool, slot: nat)
      requires cells.Length > 0 && ByteHashes(cells[..]) && (hash.Some? ==> hash.value < 256)
      modifies cells
      ensures ByteHashes(cells[..])
      ensures !ValidCall(profile, ip, kind) ==> !fires && cells[..] == old(cells[..])
      ensures ValidCall(profile, ip, kind) ==>
        && Placed(old(cells[..]), ip, slot)
        && (cells[..], fires) == Record(old(cells[..]), profile, ip, kind, hash, now, slot)
    {
      if profile == Off || ip == "" || |ip| >= 64 || kind >= KINDS { return false, 0; }
      hide Push, IndexOf, Hashes, Enough, Cooled;
      var found;
      slot, found := ScanLastEmpty(cells, ip);
      var data := if found then cells[slot].data else Blank();
      if kind == SCAN && hash.None? {
        cells[slot] := Cell(ip, now, data);
        return false, slot;
      }
      var m := Mark(now, if kind == SCAN then hash.value else 0);
      var pushed;
      pushed, fires := Decide(data, kind, m);
      cells[slot] := Cell(ip, now, Data(data.marks[kind := pushed], if fires then Some(now) else data.signal));
    }

    // The marks after one event, and whether they call for a signal.
    method Decide(data: Data, kind: nat, m: Mark) returns (pushed: seq<Mark>, fires: bool)
      requires BytesOnly(data) && kind < KINDS && m.hash < 256
      ensures pushed == Push(data.marks[kind], m, Window(kind), MARKS)
      ensures fires <==> Enough(profile, kind, |pushed|, |Hashes(pushed)|) && Cooled(data.signal, m.at)
      ensures BytesOnly(data.(marks := data.marks[kind := pushed]))
    {
      hide Push, Hashes;
      pushed := Push(data.marks[kind], m, Window(kind), MARKS);
      var paths := 0;
      if kind == SCAN {
        PushBytes(data.marks[kind], m, Window(kind), MARKS);
        paths := CountPaths(pushed);
      }
      fires := !(|pushed| < Limit(profile, kind) || (kind == SCAN && paths < PathLimit(profile))
                 || (data.signal.Some? && m.at >= data.signal.value && m.at - data.signal.value < 60 * SECOND));
    }
  }

  lemma {:induction false} KeptBytes(marks: seq<Mark>, now: nat, window: nat)
    requires forall j :: 0 <= j < |marks| ==> marks[j].hash < 256
    ensures forall j :: 0 <= j < |Kept(marks, now, window)| ==> Kept(marks, now, window)[j].hash < 256
    decreases |marks|
  {
    if marks != [] { KeptBytes(marks[..|marks| - 1], now, window); }
  }

  lemma PushBytes(stored: seq<Mark>, m: Mark, window: nat, capacity: nat)
    requires capacity > 0 && m.hash < 256 && forall j :: 0 <= j < |stored| ==> stored[j].hash < 256
    ensures forall j :: 0 <= j < |Push(stored, m, window, capacity)| ==> Push(stored, m, window, capacity)[j].hash < 256
  {
    KeptBytes(stored, m.at, window);
  }
}
