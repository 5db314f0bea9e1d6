/** What a snapshot is worth: once a slot has been replaced and synced, no crash brings back
    anything older. */
module Durability {
  import opened Ids
  import opened Options
  import opened Journal
  import opened Writer
  import opened Protocol
  import opened Safety

  // ----- generations -----

  function GenerationOf(f: SlotFile): nat {
    if f.Holds? then f.image.generation else 0
  }

  // The newest generation of a directory.
  function Top(d: Dir): nat {
    if GenerationOf(d.slot1) > GenerationOf(d.slot0) then GenerationOf(d.slot1) else GenerationOf(d.slot0)
  }

  // An image that has not reached its slot yet.
  predicate InFlight(s: State, image: Image) {
    || s.main.building == Some(image)
    || s.w.snapshotBox == Some(image)
    || (s.worker.Indexing? && s.worker.image == image)
  }

  ghost predicate Orderly(s: State) {
    && (forall d :: d in s.disk ==> Top(d) <= Top(Visible(s.disk)))
    && Top(Visible(s.disk)) <= s.main.generation
    && forall image :: InFlight(s, image) ==> Top(Visible(s.disk)) < image.generation <= s.main.generation
  }

  ghost predicate AtLeast(disk: Disk, g: nat) {
    forall d :: d in disk ==> g <= Top(d)
  }

  // A recovery that can read what is in the slots.
  predicate ReadsSlots(e: Event) {
    match e
    case ProcessCrash(r, _) => r.restore0 && r.restore1
    case PowerLoss(_, r, _) => r.restore0 && r.restore1
    case _ => true
  }

  lemma RestartTop(d: Dir, disk: Disk, r: Readings, expired: set<Id>, spent: set<Id>, forwarded: seq<Id>)
    requires r.restore0 && r.restore1
    ensures Restart(d, disk, r, expired, spent, forwarded).main.generation == Top(d)
  {
  }

  // What a step does to the slots of every directory state: nothing, or one image in flight is written.
  ghost predicate SlotsFrom(before: Disk, after: Disk) {
    && Top(Visible(after)) == Top(Visible(before))
    && forall d :: d in after ==> exists b :: b in before && b.slot0 == d.slot0 && b.slot1 == d.slot1
  }

  lemma SlotsKeep(s: State, t: State)
    requires Orderly(s) && SlotsFrom(s.disk, t.disk) && s.main.generation <= t.main.generation
    requires forall image :: InFlight(t, image) ==> Known(s, t, image)
    ensures Orderly(t)
    ensures forall g: nat :: AtLeast(s.disk, g) ==> AtLeast(t.disk, g)
  {
    forall d | d in t.disk
      ensures Top(d) <= Top(Visible(s.disk)) && forall g: nat :: AtLeast(s.disk, g) ==> g <= Top(d)
    {
      var b :| b in s.disk && b.slot0 == d.slot0 && b.slot1 == d.slot1;
      assert Top(b) == Top(d);
    }
  }

  predicate Writes(e: Event) {
    e.ReplaceSlot? || e.AppendSucceeds? || e.AppendFails? || e.ResetFile? || e.RecoverFile? || e.CompactFile?
    || e.ProcessCrash? || e.PowerLoss?
  }

  // An image that was in flight already, or was captured just now as the newest.
  predicate Known(s: State, t: State, image: Image) {
    InFlight(s, image) || image.generation == t.main.generation > s.main.generation
  }

  // A step that leaves the disk alone and moves images on, or captures a new one.
  predicate Carries(s: State, t: State) {
    && t.disk == s.disk && s.main.generation <= t.main.generation
    && (t.main.building.Some? ==> Known(s, t, t.main.building.value))
    && (t.w.snapshotBox.Some? ==> Known(s, t, t.w.snapshotBox.value))
    && (t.worker.Indexing? ==> Known(s, t, t.worker.image))
  }

  lemma MainSteps(s: State, e: Event)
    requires Enabled(s, e) && (MainEvent(e) || e.TakeResults? || e.Settle? || e.Release?)
    ensures Carries(s, Apply(s, e))
  {
    hide Complete, Restart, Smeared, Scans, ScannedLength, ReplaceIn, WithSlot, Visible, Retained, MaintainNext,
      NextTask, NoteAppend, NoteSlot, NoteReset, EndCompact;
  }

  lemma RecordSteps(s: State, e: Event)
    requires Enabled(s, e) && RecordEvent(e)
    ensures Carries(s, Apply(s, e))
  {
    hide Complete, Restart, Smeared, Scans, ScannedLength, ReplaceIn, WithSlot, Visible, Retained, MaintainNext,
      Unlink, NextTask, NoteAppend, NoteSlot, SettleMain;
  }

  lemma TaskSteps(s: State, e: Event)
    requires Enabled(s, e) && (e.TakeTask? || e.CheckGate? || e.ReadFlags? || e.Collect?)
    ensures Carries(s, Apply(s, e))
  {
    hide Complete, Restart, Smeared, Scans, ScannedLength, ReplaceIn, WithSlot, Visible, Retained, Unlink,
      NoteAppend, NoteSlot, SettleMain;
  }

  lemma SlotSteps(s: State, e: Event)
    requires Enabled(s, e) && (e.CannotIndex? || e.RecordSlot?)
    ensures Carries(s, Apply(s, e))
  {
    hide Complete, Restart, Smeared, Scans, ScannedLength, ReplaceIn, WithSlot, Visible, Retained, MaintainNext,
      Unlink, NextTask, SettleMain, MergeFailed;
  }

  lemma WorkerSteps(s: State, e: Event)
    requires Enabled(s, e) && (e.RecordAppend? || e.PostResult?)
    ensures Carries(s, Apply(s, e))
  {
    hide Complete, Restart, Smeared, Scans, ScannedLength, ReplaceIn, WithSlot, Visible, Retained, MaintainNext,
      Unlink, NextTask, SettleMain, MergeFailed;
  }

  lemma QuietSteps(s: State, e: Event)
    requires Enabled(s, e) && !Writes(e)
    ensures Carries(s, Apply(s, e))
  {
    hide Carries, Apply, Enabled;
    if MainEvent(e) || e.TakeResults? || e.Settle? || e.Release? { MainSteps(s, e); }
    else if RecordEvent(e) { RecordSteps(s, e); }
    else if e.TakeTask? || e.CheckGate? || e.ReadFlags? || e.Collect? { TaskSteps(s, e); }
    else if e.CannotIndex? || e.RecordSlot? { SlotSteps(s, e); }
    else { WorkerSteps(s, e); }
  }

  lemma JournalSteps(s: State, e: Event)
    requires Enabled(s, e)
    requires e.AppendSucceeds? || e.ResetFile? || e.RecoverFile? || e.CompactFile?
    ensures var t := Apply(s, e);
      && SlotsFrom(s.disk, t.disk) && t.main == s.main && t.w.snapshotBox == s.w.snapshotBox
      && !t.worker.Indexing?
  {
    hide Complete, Restart, Smeared, Retained, MaintainNext, Unlink, NextTask, NoteAppend, NoteSlot, SettleMain,
      Record, Scans;
    assert Visible(s.disk) in s.disk;
  }

  lemma AppendFailsSlots(s: State, result: int, after: Disk)
    requires Enabled(s, AppendFails(result, after))
    ensures SlotsFrom(s.disk, after)
  {
    forall d | d in after
      ensures exists b :: b in s.disk && b.slot0 == d.slot0 && b.slot1 == d.slot1
    {
      var b :| b in s.disk && Grown(b, d, Visible(s.disk).journal, s.worker.id, result);
    }
  }

  lemma ReplaceOrderly(s: State, outcome: ReplaceOutcome)
    requires Orderly(s) && Gated(s) && Enabled(s, ReplaceSlot(outcome))
    ensures var t := Apply(s, ReplaceSlot(outcome));
      && Orderly(t) && (forall g: nat :: AtLeast(s.disk, g) ==> AtLeast(t.disk, g))
      && (outcome.Synced? ==> AtLeast(t.disk, s.worker.image.generation))
  {
    var t, d := Apply(s, ReplaceSlot(outcome)), Visible(s.disk);
    var after := WithSlot(d, SlotNumber(s.worker.image), Holds(s.worker.image));
    assert InFlight(s, s.worker.image);
    assert Top(after) == s.worker.image.generation;
    assert s.main.building.None? && s.w.snapshotBox.None?;
    assert d in s.disk;
  }

  lemma RestartOrderly(s: State, d: Dir, disk: Disk, r: Readings, expired: set<Id>)
    requires Orderly(s) && r.restore0 && r.restore1
    requires (disk == s.disk && d == Visible(s.disk)) || (disk == [d] && d in s.disk)
    ensures Restart(d, disk, r, expired, s.spent, s.forwarded).disk == disk
    ensures Orderly(Restart(d, disk, r, expired, s.spent, s.forwarded))
    ensures forall g: nat :: AtLeast(s.disk, g) ==> AtLeast(disk, g)
  {
    RestartTop(d, disk, r, expired, s.spent, s.forwarded);
  }

  lemma CrashOrderly(s: State, e: Event)
    requires Orderly(s) && Enabled(s, e) && ReadsSlots(e) && (e.ProcessCrash? || e.PowerLoss?)
    ensures Orderly(Apply(s, e)) && forall g: nat :: AtLeast(s.disk, g) ==> AtLeast(Apply(s, e).disk, g)
  {
    hide Orderly, AtLeast, Restart;
    match e
    case ProcessCrash(r, expired) => RestartOrderly(s, Visible(s.disk), s.disk, r, expired);
    case PowerLoss(survivor, r, expired) => RestartOrderly(s, s.disk[survivor], [s.disk[survivor]], r, expired);
  }

  lemma JournalOrderly(s: State, e: Event)
    requires Orderly(s) && Enabled(s, e)
    requires e.AppendSucceeds? || e.ResetFile? || e.RecoverFile? || e.CompactFile?
    ensures Orderly(Apply(s, e)) && forall g: nat :: AtLeast(s.disk, g) ==> AtLeast(Apply(s, e).disk, g)
  {
    JournalSteps(s, e);
    hide Orderly, AtLeast, Apply, Enabled;
    SlotsKeep(s, Apply(s, e));
  }

  lemma AppendFailsOrderly(s: State, result: int, after: Disk)
    requires Orderly(s) && Enabled(s, AppendFails(result, after))
    ensures var t := Apply(s, AppendFails(result, after));
      Orderly(t) && forall g: nat :: AtLeast(s.disk, g) ==> AtLeast(t.disk, g)
  {
    hide Orderly, AtLeast, Smeared;
    AppendFailsSlots(s, result, after);
    SlotsKeep(s, Apply(s, AppendFails(result, after)));
  }

  lemma CarriesKeeps(s: State, t: State)
    requires Orderly(s) && Carries(s, t)
    ensures Orderly(t) && forall g: nat :: AtLeast(s.disk, g) ==> AtLeast(t.disk, g)
  {
    hide Orderly, AtLeast, Known, SlotsFrom, Visible, Top;
    SameSlots(s.disk);
    assert forall image :: InFlight(t, image) ==> Known(s, t, image);
    hide InFlight;
    SlotsKeep(s, t);
  }

  lemma QuietOrderly(s: State, e: Event)
    requires Orderly(s) && Enabled(s, e) && !Writes(e)
    ensures Orderly(Apply(s, e)) && forall g: nat :: AtLeast(s.disk, g) ==> AtLeast(Apply(s, e).disk, g)
  {
    hide *;
    QuietSteps(s, e);
    CarriesKeeps(s, Apply(s, e));
  }

  lemma StepOrderly(s: State, e: Event)
    requires Gated(s) && Orderly(s) && Enabled(s, e) && ReadsSlots(e)
    ensures Orderly(Apply(s, e))
    ensures forall g: nat :: AtLeast(s.disk, g) ==> AtLeast(Apply(s, e).disk, g)
  {
    hide Gated, AtLeast, Orderly, Enabled, Apply, ReadsSlots;
    if e.ReplaceSlot? { ReplaceOrderly(s, e.outcome); }
    else if e.AppendFails? { AppendFailsOrderly(s, e.result, e.after); }
    else if e.ProcessCrash? || e.PowerLoss? { CrashOrderly(s, e); }
    else if Writes(e) { JournalOrderly(s, e); }
    else { QuietOrderly(s, e); }
  }

  lemma SameSlots(disk: Disk)
    ensures SlotsFrom(disk, disk)
  {
  }

  lemma {:induction false} RunOrderly(s: State, events: seq<Event>, t: State, g: nat)
    requires Inv(s) && Orderly(s) && Runs(s, events, t)
    requires forall i :: 0 <= i < |events| ==> ReadsSlots(events[i])
    ensures Inv(t) && Orderly(t) && (AtLeast(s.disk, g) ==> AtLeast(t.disk, g))
    decreases |events|
  {
    if events != [] {
      StepKeeps(s, events[0]);
      GatedInv(s);
      hide Inv, Orderly, Apply, Enabled, ReadsSlots, AtLeast;
      StepOrderly(s, events[0]);
      RunOrderly(Apply(s, events[0]), events[1..], t, g);
    }
  }

  lemma GatedInv(s: State)
    requires Inv(s)
    ensures Gated(s)
  {
  }

  // A process that found one directory on disk and could read its slots.
  ghost predicate Booted(s: State) {
    exists d: Dir, r: Readings, expired: set<Id> ::
      r.restore0 && r.restore1 && s == Restart(d, [d], r, expired, {}, [])
  }

  lemma BootedOrderly(s: State)
    requires Booted(s)
    ensures Inv(s) && Orderly(s)
  {
    var d: Dir, r: Readings, expired: set<Id> :|
      r.restore0 && r.restore1 && s == Restart(d, [d], r, expired, {}, []);
    RestartTop(d, [d], r, expired, {}, []);
    assert Orderly(s);
    assert Start(s) by { assert s == Restart(Visible([d]), [d], r, expired, {}, []); }
    assert Runs(s, [], s);
    hide Inv, Start;
    ReachableInv(s);
  }

  /** Once a snapshot has replaced its slot and the directory was synced, every later directory state
      that a crash may leave has a slot at least as new, and the process is never at an older
      generation, if every recovery can read the slots. */
  lemma SnapshotLasts(start: State, before: seq<Event>, s: State, after: seq<Event>, t: State)
    requires Booted(start) && Runs(start, before, s) && s.worker.Indexing?
    requires Enabled(s, ReplaceSlot(Synced)) && Runs(Apply(s, ReplaceSlot(Synced)), after, t)
    requires forall i :: 0 <= i < |before| ==> ReadsSlots(before[i])
    requires forall i :: 0 <= i < |after| ==> ReadsSlots(after[i])
    ensures t.main.generation >= s.worker.image.generation
    ensures forall d :: d in t.disk ==>
      exists n :: 0 <= n < 2 && SlotOf(d, n).Holds? && SlotOf(d, n).image.generation >= s.worker.image.generation
  {
    hide *;
    var g := s.worker.image.generation;
    BootedOrderly(start);
    RunOrderly(start, before, s, 0);
    GatedInv(s);
    InFlightPositive(s);
    IndexingReplaces(s);
    ReplaceOrderly(s, Synced);
    StepKeeps(s, ReplaceSlot(Synced));
    RunOrderly(Apply(s, ReplaceSlot(Synced)), after, t, g);
    AtLeastMeans(t, g);
  }

  lemma IndexingReplaces(s: State)
    requires s.worker.Indexing?
    ensures Enabled(s, ReplaceSlot(Synced)) && ReplaceSlot(Synced).outcome.Synced?
  {
  }

  lemma AtLeastMeans(t: State, g: nat)
    requires Orderly(t) && AtLeast(t.disk, g) && g > 0
    ensures t.main.generation >= g
    ensures forall d :: d in t.disk ==>
      exists n :: 0 <= n < 2 && SlotOf(d, n).Holds? && SlotOf(d, n).image.generation >= g
  {
    assert Visible(t.disk) in t.disk;
    forall d | d in t.disk
      ensures exists n :: 0 <= n < 2 && SlotOf(d, n).Holds? && SlotOf(d, n).image.generation >= g
    {
      assert g <= Top(d);
      assert GenerationOf(SlotOf(d, 0)) >= g || GenerationOf(SlotOf(d, 1)) >= g;
    }
  }

  lemma InFlightPositive(s: State)
    requires Orderly(s) && s.worker.Indexing?
    ensures s.worker.image.generation > 0
  {
    assert InFlight(s, s.worker.image);
  }
}
