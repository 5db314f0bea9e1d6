/** The DOTS request tracker: it fires when an address makes enough requests within the
    window, counted from its last firing. */
module Dots {
  import opened Trackers

  const TRACKED := 1024
  const MAX_THRESHOLD := 64

  type Cells = seq<Cell<seq<Mark>>>

  predicate ValidCall(ip: string, threshold: nat) {
    ip != "" && |ip| < 64 && 0 < threshold <= MAX_THRESHOLD
  }

  function DataOf(cells: Cells, ip: string): seq<Mark> {
    if Resident(cells, ip) then CellOf(cells, ip).data else []
  }

  // ankah_dots_tracker_hit once the scan has placed the address.
  function Hit(cells: Cells, ip: string, now: nat, threshold: nat, window: nat, slot: nat): (Cells, bool)
    requires slot < |cells|
  {
    var pushed := Push(DataOf(cells, ip), Mark(now, 0), window, MAX_THRESHOLD);
    var fires := |pushed| >= threshold;
    (cells[slot := Cell(ip, now, if fires then [] else pushed)], fires)
  }

  // ----- the unbounded reference -----

  // Every request of an address since it became resident or last fired.
  type Logs = map<string, seq<Mark>>

  function LogOf(logs: Logs, cells: Cells, ip: string): seq<Mark> {
    if Resident(cells, ip) && ip in logs then logs[ip] else []
  }

  // It fires when the requests still in the window, with this one, reach the threshold.
  predicate Fires(log: seq<Mark>, now: nat, threshold: nat, window: nat) {
    |Kept(log, now, window)| + 1 >= threshold
  }

  /** The threshold counted on the log: the requests of the last `window` nanoseconds and this one. */
  lemma FiresExactly(log: seq<Mark>, now: nat, threshold: nat, window: nat)
    ensures Fires(log, now, threshold, window) <==> |Within(log, now, window)| + 1 >= threshold
  {
    KeptMeans(log, now, window);
  }

  function Logged(log: seq<Mark>, now: nat, threshold: nat, window: nat): seq<Mark> {
    if Fires(log, now, threshold, window) then [] else log + [Mark(now, 0)]
  }

  // ----- the tracker refines the log -----

  predicate Tracks(cell: Cell<seq<Mark>>, log: seq<Mark>, window: nat, clock: nat) {
    cell.data == Held(log, window, MAX_THRESHOLD) && Sorted(log, clock) && cell.seen <= clock
  }

  ghost predicate Inv(cells: Cells, logs: Logs, window: nat, clock: nat) {
    && Distinct(cells)
    && forall ip :: ip != "" && Resident(cells, ip) ==>
         ip in logs && Tracks(CellOf(cells, ip), logs[ip], window, clock)
  }

  lemma SortedLater(log: seq<Mark>, now: nat, later: nat)
    requires Sorted(log, now) && now <= later
    ensures Sorted(log, later)
  {
  }

  /** One request: the tracker fires exactly when the log says so, and goes on tracking. */
  lemma HitRefines(cells: Cells, logs: Logs, ip: string, now: nat, threshold: nat, window: nat, slot: nat, clock: nat)
    requires Inv(cells, logs, window, clock) && clock <= now && ValidCall(ip, threshold) && Placed(cells, ip, slot)
    ensures var (after, fires) := Hit(cells, ip, now, threshold, window, slot); var log := LogOf(logs, cells, ip);
      && (fires <==> Fires(log, now, threshold, window))
      && Inv(after, logs[ip := Logged(log, now, threshold, window)], window, now)
  {
    hide Held, Kept, Sorted, Push, Distinct, IndexOf;
    var log, m := LogOf(logs, cells, ip), Mark(now, 0);
    var (after, fires) := Hit(cells, ip, now, threshold, window, slot);
    EmptyHeld(window);
    if Resident(cells, ip) { SortedLater(log, clock, now); }
    PushHeld(log, m, window, MAX_THRESHOLD);
    SortedSnoc(log, m);
    PlacedKeeps(cells, ip, slot, after[slot]);
    forall other | other != "" && Resident(after, other)
      ensures other in logs[ip := Logged(log, now, threshold, window)]
      ensures Tracks(CellOf(after, other), logs[ip := Logged(log, now, threshold, window)][other], window, now)
    {
      if other != ip {
        assert Tracks(CellOf(cells, other), logs[other], window, clock);
        SortedLater(logs[other], clock, now);
      }
    }
  }

  lemma EmptyHeld(window: nat)
    ensures Held([], window, MAX_THRESHOLD) == [] && forall now :: Sorted([], now)
  {
  }

  // ----- whole runs -----

  datatype Call = Call(ip: string, now: nat, threshold: nat, slot: nat)

  // Clocks do not go back, and each scan places its address.
  predicate Runs(cells: Cells, calls: seq<Call>, window: nat, clock: nat)
    decreases |calls|
  {
    calls == [] ||
    (var c := calls[0];
     && clock <= c.now && ValidCall(c.ip, c.threshold) && Placed(cells, c.ip, c.slot)
     && Runs(Hit(cells, c.ip, c.now, c.threshold, window, c.slot).0, calls[1..], window, c.now))
  }

  function Fired(cells: Cells, calls: seq<Call>, window: nat, clock: nat): seq<bool>
    requires Runs(cells, calls, window, clock)
    decreases |calls|
  {
    if calls == [] then []
    else
      var c := calls[0];
      var (after, fires) := Hit(cells, c.ip, c.now, c.threshold, window, c.slot);
      [fires] + Fired(after, calls[1..], window, c.now)
  }

  function ShouldFire(cells: Cells, logs: Logs, calls: seq<Call>, window: nat, clock: nat): seq<bool>
    requires Runs(cells, calls, window, clock)
    decreases |calls|
  {
    if calls == [] then []
    else
      var c := calls[0];
      var log := LogOf(logs, cells, c.ip);
      [Fires(log, c.now, c.threshold, window)]
        + ShouldFire(Hit(cells, c.ip, c.now, c.threshold, window, c.slot).0,
                     logs[c.ip := Logged(log, c.now, c.threshold, window)], calls[1..], window, c.now)
  }

  /** Over any run the bounded tracker fires exactly when the unbounded logs of the
      resident addresses say so. */
  lemma {:induction false} TrackerRefines(cells: Cells, logs: Logs, calls: seq<Call>, window: nat, clock: nat)
    requires Inv(cells, logs, window, clock) && Runs(cells, calls, window, clock)
    ensures Fired(cells, calls, window, clock) == ShouldFire(cells, logs, calls, window, clock)
    decreases |calls|
  {
    hide Inv, Hit, Fires, Logged, LogOf;
    if calls != [] {
      var c := calls[0];
      HitRefines(cells, logs, c.ip, c.now, c.threshold, window, c.slot, clock);
      TrackerRefines(Hit(cells, c.ip, c.now, c.threshold, window, c.slot).0,
                     logs[c.ip := Logged(LogOf(logs, cells, c.ip), c.now, c.threshold, window)],
                      calls[1..], window, c.now);
    }
  }

  /** An empty tracker tracks the empty logs. */
  lemma EmptyTracks(cells: Cells, window: nat, clock: nat)
    requires forall k :: 0 <= k < |cells| ==> cells[k].ip == ""
    ensures Inv(cells, map[], window, clock)
  {
  }

  class Tracker {
    const cells: array<Cell<seq<Mark>>>

    constructor ()
      ensures cells.Length == TRACKED && fresh(cells)
      ensures forall k :: 0 <= k < TRACKED ==> cells[k] == Cell("", 0, [])
    {
      cells := new Cell<seq<Mark>>[TRACKED](_ => Cell("", 0, []));
    }

    /** ankah_dots_tracker_hit */
    method TrackerHit(ip: string, now: nat, threshold: nat, window: nat) returns (fires: bool, slot: nat)
      requires cells.Length > 0
      modifies cells
      ensures !ValidCall(ip, threshold) ==> !fires && cells[..] == old(cells[..])
      ensures ValidCall(ip, threshold) ==>
        Placed(old(cells[..]), ip, slot) && (cells[..], fires) == Hit(old(cells[..]), ip, now, threshold, window, slot)
    {
      if ip == "" || |ip| >= 64 || threshold == 0 || threshold > MAX_THRESHOLD { return false, 0; }
      hide Push, Held, Kept;
      var found;
      slot, found := ScanFirstEmpty(cells, ip);
      var stored := if found then cells[slot].data else [];
      var pushed := Push(stored, Mark(now, 0), window, MAX_THRESHOLD);
      fires := |pushed| >= threshold;
      cells[slot] := Cell(ip, now, if fires then [] else pushed);
    }
  }
}
