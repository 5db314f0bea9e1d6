/**
 * What the writer can always do: its snapshot phase is never stuck, a bad journal can be repaired, a usable one takes
 * the next record, and maintenance can compact it.
 */
module Progress {
  import opened Ids
  import opened Options
  import opened Journal
  import opened Writer
  import opened Protocol
  import opened Safety
  import opened Durability

  // ----- the snapshot phase -----

  function Snapshots(done: seq<Done>): nat {
    if done == [] then 0 else (if done[0].SnapshotDone? then 1 else 0) + Snapshots(done[1..])
  }

  function JobOf(worker: Worker): Option<Done> {
    match worker
    case Finishing(job) => Some(job)
    case Maintaining(job) => Some(job)
    case Resetting(job) => Some(job)
    case WasReset(job) => Some(job)
    case Recovering(job) => Some(job)
    case WasRecovered(job, _) => Some(job)
    case AtGate(job) => Some(job)
    case Collecting(job) => Some(job)
    case Compacting(job, _) => Some(job)
    case FoundBad(job) => Some(job)
    case LeftPoisoned(job) => Some(job)
    case Ending(job, _, _) => Some(job)
    case _ => None
  }

  // The snapshot results on their way from the worker to the main loop.
  function Underway(s: State): nat {
    (if JobOf(s.worker).Some? && JobOf(s.worker).value.SnapshotDone? then 1 else 0)
    + Snapshots(s.w.done) + Snapshots(Unsettled(s.main))
  }

  predicate Owned(s: State) {
    Underway(s) == if s.w.phase == WaitCallback then 1 else 0
  }

  lemma {:induction false} SnapshotsJoin(a: seq<Done>, b: seq<Done>)
    ensures Snapshots(a + b) == Snapshots(a) + Snapshots(b)
    decreases |a|
  {
    if a == [] {
      assert a + b == b;
    } else {
      SnapshotsJoin(a[1..], b);
      assert (a + b)[1..] == a[1..] + b;
    }
  }

  lemma MainOwned(s: State, e: Event)
    requires Gated(s) && Owned(s) && Enabled(s, e) && MainEvent(e)
    ensures Owned(Apply(s, e))
  {
  }

  lemma RecordsOwned(s: State, e: Event)
    requires Owned(s) && Enabled(s, e) && (e.RecordReset? || e.RecordRecovery? || e.EnterCompact?)
    ensures Owned(Apply(s, e))
  {
    hide Complete, Restart, Smeared, Scans, ScannedLength, ReplaceIn, WithSlot, Visible, Retained, MaintainNext,
      Unlink, NextTask, NoteAppend, NoteSlot, SettleMain;
  }

  lemma CompactOwned(s: State, e: Event)
    requires Owned(s) && Enabled(s, e) && (e.RecordBad? || e.RecordPoison? || e.LeaveCompact?)
    ensures Owned(Apply(s, e))
  {
    hide Complete, Restart, Smeared, Scans, ScannedLength, ReplaceIn, WithSlot, Visible, Retained, MaintainNext,
      Unlink, NextTask, NoteAppend, NoteSlot, SettleMain;
  }

  lemma TaskOwned(s: State, e: Event)
    requires Gated(s) && Owned(s) && Enabled(s, e) && (e.TakeTask? || e.CheckGate? || e.ReadFlags? || e.Collect?)
    ensures Owned(Apply(s, e))
  {
    hide Complete, Restart, Smeared, Scans, ScannedLength, ReplaceIn, WithSlot, Visible, Retained, Unlink,
      NoteAppend, NoteSlot, SettleMain;
  }

  lemma WorkerOwned(s: State, e: Event)
    requires Gated(s) && Owned(s) && Enabled(s, e) && (e.RecordAppend? || e.CannotIndex? || e.RecordSlot?)
    ensures Owned(Apply(s, e))
  {
    hide Complete, Restart, Smeared, Scans, ScannedLength, ReplaceIn, WithSlot, Visible, Retained, MaintainNext,
      Unlink, NextTask, SettleMain, MergeFailed;
  }

  lemma CrashOwned(s: State, e: Event)
    requires Owned(s) && Enabled(s, e) && (e.ProcessCrash? || e.PowerLoss?)
    ensures Owned(Apply(s, e))
  {
    hide Complete, Smeared, Retained, MaintainNext, Unlink, NextTask, NoteAppend, NoteSlot, SettleMain, Record,
      Scans, WithSlot;
  }

  lemma WritesOwned(s: State, e: Event)
    requires Owned(s) && Enabled(s, e) && Writes(e) && !e.ProcessCrash? && !e.PowerLoss?
    ensures Owned(Apply(s, e))
  {
    hide Complete, Smeared, Retained, MaintainNext, Unlink, NextTask, NoteAppend, NoteSlot, SettleMain, Record,
      Scans, WithSlot;
  }

  lemma ResultOwned(s: State, e: Event)
    requires Listed(s) && Owned(s) && Enabled(s, e)
    requires e.PostResult? || e.TakeResults? || e.Settle? || e.Release?
    ensures Owned(Apply(s, e))
  {
    if e.PostResult? { SnapshotsJoin(s.w.done, [s.worker.job]); }
  }

  lemma StepOwned(s: State, e: Event)
    requires Inv(s) && Owned(s) && Enabled(s, e)
    ensures Owned(Apply(s, e))
  {
    GatedInv(s);
    assert Listed(s);
    hide Inv, Gated, Listed, Owned, Enabled, Apply;
    if MainEvent(e) { MainOwned(s, e); }
    else if e.RecordReset? || e.RecordRecovery? || e.EnterCompact? { RecordsOwned(s, e); }
    else if RecordEvent(e) { CompactOwned(s, e); }
    else if e.ProcessCrash? || e.PowerLoss? { CrashOwned(s, e); }
    else if Writes(e) { WritesOwned(s, e); }
    else if e.PostResult? || e.TakeResults? || e.Settle? || e.Release? { ResultOwned(s, e); }
    else if e.TakeTask? || e.CheckGate? || e.ReadFlags? || e.Collect? { TaskOwned(s, e); }
    else { WorkerOwned(s, e); }
  }

  lemma {:induction false} RunOwned(s: State, events: seq<Event>, t: State)
    requires Inv(s) && Owned(s) && Runs(s, events, t)
    ensures Inv(t) && Owned(t)
    decreases |events|
  {
    hide Inv, Owned, Enabled, Apply;
    if events != [] {
      StepKeeps(s, events[0]);
      StepOwned(s, events[0]);
      RunOwned(Apply(s, events[0]), events[1..], t);
    }
  }

  lemma StartOwned(s: State)
    requires Start(s)
    ensures Inv(s) && Owned(s)
  {
    assert Runs(s, [], s);
    hide Inv;
    ReachableInv(s);
  }

  /** In every reachable state somebody can move the snapshot phase on: a queued image is in its box, a
      written one is with the worker, and a result that waits for its callback is underway exactly
      once; settling it ends the phase. */
  lemma PhaseOwned(s: State)
    requires Reachable(s)
    ensures s.w.phase == Queued <==> s.w.snapshotBox.Some?
    ensures s.w.phase == Writing <==> s.worker.Indexing? || s.worker.Replaced?
    ensures Underway(s) == if s.w.phase == WaitCallback then 1 else 0
    ensures s.main.batch != [] && s.main.batch[0].SnapshotDone? && Enabled(s, Settle(false)) ==>
      s.w.phase == WaitCallback && Apply(s, Settle(false)).w.phase == Resting
  {
    ReachableOwned(s);
    GatedInv(s);
    hide Inv;
    if s.main.batch != [] && s.main.batch[0].SnapshotDone? && !s.main.settled {
      assert Snapshots(Unsettled(s.main)) >= 1;
    }
  }

  lemma ReachableOwned(t: State)
    requires Reachable(t)
    ensures Inv(t) && Owned(t)
  {
    hide Inv, Owned, Start;
    var s, events :| Start(s) && Runs(s, events, t);
    StartOwned(s);
    RunOwned(s, events, t);
  }

  // ----- repair -----

  predicate Crashless(e: Event) {
    !e.ProcessCrash? && !e.PowerLoss?
  }

  // One state leads to another without a crash.
  ghost predicate Leads(s: State, t: State) {
    exists events :: Runs(s, events, t) && forall i :: 0 <= i < |events| ==> Crashless(events[i])
  }

  lemma LeadsItself(s: State)
    ensures Leads(s, s)
  {
    assert Runs(s, [], s);
  }

  lemma On(first: State, s: State, e: Event) returns (t: State)
    requires Leads(first, s) && Enabled(s, e) && Crashless(e)
    ensures t == Apply(s, e) && Leads(first, t)
  {
    hide Apply, Enabled;
    t := Apply(s, e);
    var events :| Runs(first, events, s) && forall i :: 0 <= i < |events| ==> Crashless(events[i]);
    RunsSnoc(first, events, s, e);
  }

  // Nothing is under way, in memory or in the worker.
  predicate AtRest(s: State) {
    && s.worker.Idle? && s.w.phase == Resting && s.w.snapshotBox.None? && s.main.building.None?
    && s.main.batch == [] && s.w.done == []
  }

  // A repair that still has to replace these slots.
  predicate Repair(s: State, slots: set<nat>) {
    s.w.bad && s.w.repairStarted && s.w.repairSlots == slots
  }

  predicate Usable(s: State) {
    !s.w.bad && !s.w.poisoned && !s.w.repairStarted && s.w.journalBytes == 0 && Visible(s.disk).journal == ""
  }

  // A waiting maintenance task that a repair under way has nothing to do for.
  lemma Maintained(first: State, s: State, slots: set<nat>) returns (t: State)
    requires Leads(first, s) && AtRest(s) && Repair(s, slots) && slots != {} && !s.w.compacting
    ensures Leads(first, t) && AtRest(t) && Repair(t, slots) && !t.w.maintenance && !t.w.compacting
    ensures t.main.generation == s.main.generation
  {
    hide Leads, Restart, Smeared, Scans, ScannedLength, Complete, Retained, CompactedTo, Record, WellFormed,
      NoteAppend, EndCompact, ReplaceIn, WithSlot, NoteSlot, NoteReset, SettleMain, Visible;
    t := s;
    if s.w.maintenance {
      t := On(first, t, TakeTask);
      t := On(first, t, ReadFlags);
      t := Delivered(first, t, MaintainDone);
    }
  }

  // A finished job is posted and taken.
  lemma Posted(first: State, s: State, job: Done) returns (t: State)
    requires Leads(first, s) && s.worker == Finishing(job) && !job.ConsumeDone? && s.w.done == [] && s.main.batch == []
    ensures Leads(first, t) && t == s.(worker := Idle, main := s.main.(batch := [job], settled := false))
  {
    hide Leads, Restart, Smeared, Scans, ScannedLength, Complete, Retained, CompactedTo, Record, WellFormed,
      NoteAppend, EndCompact, ReplaceIn, WithSlot, NoteSlot, NoteReset, NextTask, MaintainNext, Visible;
    t := On(first, s, PostResult);
    t := On(first, t, TakeResults);
  }

  // A finished job is posted, taken, settled and released.
  lemma Delivered(first: State, s: State, job: Done) returns (t: State)
    requires Leads(first, s) && s.worker == Finishing(job) && !job.ConsumeDone?
    requires s.w.done == [] && s.main.batch == [] && s.main.building.None? && s.w.snapshotBox.None?
    requires s.w.phase == if job.SnapshotDone? then WaitCallback else Resting
    ensures Leads(first, t) && AtRest(t)
    ensures t.w == s.w.(phase := Resting) && t.disk == s.disk && t.main.generation == s.main.generation
  {
    hide Leads, Restart, Smeared, Scans, ScannedLength, Complete, Retained, CompactedTo, Record, WellFormed,
      NoteAppend, EndCompact, ReplaceIn, WithSlot, NoteSlot, NoteReset, NextTask, MaintainNext, Visible;
    t := Posted(first, s, job);
    t := On(first, t, Settle(false));
    t := On(first, t, Release);
  }

  // A capture is made, queued and taken by the worker.
  lemma Captured(first: State, s: State, slots: set<nat>) returns (t: State)
    requires Leads(first, s) && AtRest(s) && Repair(s, slots) && !s.w.maintenance
    requires !s.w.compacting
    ensures Leads(first, t) && t.worker.Indexing? && t.worker.image.generation == s.main.generation + 1
    ensures t.w == s.w.(phase := Writing) && t.main == s.main.(generation := s.main.generation + 1)
  {
    hide Leads, Restart, Smeared, Scans, ScannedLength, Complete, Retained, CompactedTo, Record, WellFormed,
      NoteAppend, EndCompact, ReplaceIn, WithSlot, NoteSlot, NoteReset, SettleMain, MaintainNext, Visible, Unlink;
    t := On(first, s, StartCapture);
    t := On(first, t, Capture);
    t := On(first, t, SubmitCapture);
    t := On(first, t, TakeTask);
  }

  // The worker replaces the slot and reads its flags.
  lemma Rewritten(first: State, s: State, slots: set<nat>) returns (t: State)
    requires Leads(first, s) && s.worker.Indexing? && s.w.phase == Writing && Repair(s, slots)
    ensures Leads(first, t) && t.main == s.main
    ensures var left := slots - {s.worker.image.generation % 2};
      && Repair(t, left)
      && t.worker == (if left == {} then Resetting(SnapshotDone(true)) else Finishing(SnapshotDone(true)))
      && t.w == s.w.(index0 := t.w.index0, index1 := t.w.index1, repairSlots := left, phase := WaitCallback)
  {
    hide Leads, Restart, Smeared, Scans, ScannedLength, Complete, Retained, CompactedTo, Record, WellFormed,
      NoteAppend, EndCompact, NextTask, SettleMain, Unlink, MergeFailed, NoteReset;
    t := On(first, s, ReplaceSlot(Synced));
    t := On(first, t, RecordSlot(true));
    t := On(first, t, ReadFlags);
  }

  lemma Reopened(first: State, s: State, job: Done) returns (t: State)
    requires Leads(first, s) && s.worker == Resetting(job)
    ensures Leads(first, t) && t.worker == Finishing(job) && Usable(t) && t.main == s.main
    ensures t.w == NoteReset(s.w)
  {
    hide Leads, Restart, Smeared, Scans, ScannedLength, Complete, Retained, CompactedTo, Record, WellFormed,
      NoteAppend, EndCompact, NextTask, SettleMain, Unlink, MergeFailed, NoteSlot, MaintainNext;
    t := On(first, s, ResetFile(Synced, true));
    t := On(first, t, RecordReset);
  }

  // One snapshot of a repair.
  lemma Round(first: State, s: State, slots: set<nat>) returns (t: State)
    requires Leads(first, s) && AtRest(s) && Repair(s, slots) && !s.w.maintenance
    requires !s.w.compacting
    ensures Leads(first, t) && AtRest(t) && !t.w.maintenance && !t.w.compacting
    ensures t.main.generation == s.main.generation + 1
    ensures var left := slots - {t.main.generation % 2}; if left == {} then Usable(t) else Repair(t, left)
  {
    hide Leads, Apply;
    t := Captured(first, s, slots);
    t := Rewritten(first, t, slots);
    if t.worker.Resetting? { t := Reopened(first, t, SnapshotDone(true)); }
    t := Delivered(first, t, SnapshotDone(true));
  }

  lemma Begun(s: State) returns (t: State)
    requires Reachable(s) && AtRest(s) && s.w.bad && !s.w.repairStarted
    ensures Leads(s, t) && AtRest(t) && Repair(t, {0, 1}) && !t.w.compacting
  {
    ReachableOwned(s);
    GatedInv(s);
    hide Inv, Leads, Restart, Smeared, Reachable, Owned;
    LeadsItself(s);
    t := On(s, s, StartRepair);
  }

  lemma LastSlot(g: nat)
    ensures {0, 1} - {(g + 1) % 2} != {} && {0, 1} - {(g + 1) % 2} - {(g + 2) % 2} == {}
  {
  }

  /** A bad journal can always be repaired: from any reachable state at rest there is a crash-free run
      that begins the repair, replaces both slots and empties the journal, after which the journal
      takes records again. */
  lemma RepairCompletes(s: State)
    requires Reachable(s) && AtRest(s) && s.w.bad && !s.w.repairStarted
    ensures exists t :: Leads(s, t) && AtRest(t) && Usable(t) && IdSet(Visible(t.disk).journal) == {}
  {
    hide *;
    LeadsItself(s);
    var t := Begun(s);
    var g := t.main.generation;
    LastSlot(g);
    t := Maintained(s, t, {0, 1});
    t := Round(s, t, {0, 1});
    t := Round(s, t, {0, 1} - {(g + 1) % 2});
    UsableIsEmpty(t);
  }

  lemma UsableIsEmpty(t: State)
    requires Usable(t)
    ensures IdSet(Visible(t.disk).journal) == {}
  {
  }

  // ----- what the writer can always do -----

  /** While the journal is usable and below its limit, the next queued consumption can be recorded, and
      its success reported. */
  lemma ConsumptionSucceeds(s: State)
    requires s.worker.Idle? && s.w.consumeQueue != [] && !s.w.maintenance && s.w.snapshotBox.None?
    requires !s.w.bad && !s.w.poisoned && s.w.journalBytes + 33 <= JOURNAL_LIMIT
    ensures exists t ::
      && Leads(s, t) && t.w.done == s.w.done + [ConsumeDone(s.w.consumeQueue[0], true)]
      && t.spent == s.spent + {s.w.consumeQueue[0]} && t.main == s.main
  {
    hide Leads, Apply, Enabled;
    var t := Appendable(s);
    t := Appended(s, t, s.w.consumeQueue[0]);
  }

  lemma Appendable(s: State) returns (t: State)
    requires s.worker.Idle? && s.w.consumeQueue != [] && !s.w.maintenance && s.w.snapshotBox.None?
    requires !s.w.bad && !s.w.poisoned && s.w.journalBytes + 33 <= JOURNAL_LIMIT
    ensures Leads(s, t) && t.worker == Appending(s.w.consumeQueue[0]) && t.main == s.main && t.spent == s.spent
    ensures t.w.done == s.w.done
  {
    hide Leads, Restart, Smeared, Scans, ScannedLength, Complete, Retained, CompactedTo, Record, WellFormed, NoteAppend,
      EndCompact, ReplaceIn, WithSlot, NoteSlot, NoteReset, SettleMain, Visible, MaintainNext, Unlink;
    LeadsItself(s);
    t := On(s, s, TakeTask);
    t := On(s, t, CheckGate);
  }

  lemma Appended(first: State, s: State, id: Id) returns (t: State)
    requires Leads(first, s) && s.worker == Appending(id)
    ensures Leads(first, t) && t.w.done == s.w.done + [ConsumeDone(id, true)] && t.spent == s.spent + {id}
    ensures t.main == s.main
  {
    hide Leads, Restart, Smeared, Scans, ScannedLength, Complete, Retained, CompactedTo, Record, WellFormed,
      EndCompact, ReplaceIn, WithSlot, NoteSlot, NoteReset, SettleMain, Visible, MaintainNext, Unlink, NextTask;
    t := On(first, s, AppendSucceeds);
    t := On(first, t, RecordAppend(true));
    t := On(first, t, PostResult);
  }

  // The ids that a compaction keeps, each once.
  function Survivors(ids: seq<Id>, keep: set<Id>): seq<Id> {
    if ids == [] then []
    else
      var rest := Survivors(ids[1..], keep);
      if ids[0] in keep && ids[0] !in rest then [ids[0]] + rest else rest
  }

  lemma {:induction false} SurvivorsAre(ids: seq<Id>, keep: set<Id>)
    ensures ToSet(Survivors(ids, keep)) == ToSet(ids) * keep && NoRepeats(Survivors(ids, keep))
  {
    if ids != [] {
      SurvivorsAre(ids[1..], keep);
      var rest := Survivors(ids[1..], keep);
      assert ids == [ids[0]] + ids[1..];
      assert ToSet(ids) == {ids[0]} + ToSet(ids[1..]);
      assert ToSet([ids[0]] + rest) == {ids[0]} + ToSet(rest);
    }
  }

  lemma CompactionOf(journal: string, keep: set<Id>) returns (after: string)
    requires WellFormed(journal)
    ensures CompactedTo(journal, keep, after)
  {
    SurvivorsAre(Parse(journal).ids, keep);
    after := Render(Survivors(Parse(journal).ids, keep));
    ParseRender(Survivors(Parse(journal).ids, keep));
  }

  // The maintenance task gets past the gate and gathers what to keep.
  lemma Gathered(s: State) returns (t: State)
    requires AtRest(s) && !s.w.bad && !s.w.poisoned && !UnknownSlots(s.w) && !s.w.compacting && !s.w.repairStarted
    requires s.w.journalBytes > 0
    ensures Leads(s, t) && t.worker == Compacting(MaintainDone, Retained(s.w)) && t.main == s.main && t.disk == s.disk
    ensures t.w == s.w.(compacting := true, maintenance := false)
  {
    hide Leads, Restart, Smeared, Scans, ScannedLength, Complete, Retained, CompactedTo, Record, WellFormed, NoteAppend,
      EndCompact, ReplaceIn, WithSlot, NoteSlot, NoteReset, SettleMain, Visible, Unlink;
    LeadsItself(s);
    t := On(s, s, RequestMaintenance);
    t := On(s, t, TakeTask);
    t := Entered(s, t);
    assert Retained(t.w) == Retained(s.w) by { SameRetained(s.w, t.w); }
    t := On(s, t, Collect(true));
  }

  lemma SameRetained(v: Fields, w: Fields)
    requires v.index0 == w.index0 && v.index1 == w.index1 && v.pending == w.pending
    ensures Retained(v) == Retained(w)
  {
  }

  lemma Entered(first: State, s: State) returns (t: State)
    requires Leads(first, s) && s.worker == Maintaining(MaintainDone) && s.w.phase == Resting && !CompactBlocked(s.w)
    requires s.w.journalBytes > 0
    ensures Leads(first, t) && t == s.(worker := Collecting(MaintainDone), w := s.w.(compacting := true))
  {
    hide Leads, Restart, Smeared, Scans, ScannedLength, Complete, Retained, CompactedTo, Record, WellFormed, NoteAppend,
      EndCompact, ReplaceIn, WithSlot, NoteSlot, NoteReset, SettleMain, Visible, Unlink, NextTask;
    t := On(first, s, ReadFlags);
    t := On(first, t, EnterCompact);
  }

  // The file is replaced, or left alone because nothing would go.
  lemma Shortened(first: State, s: State, keep: set<Id>, after: string) returns (t: State)
    requires Leads(first, s) && s.worker == Compacting(MaintainDone, keep) && Scans(Visible(s.disk).journal, true)
    requires CompactedTo(Visible(s.disk).journal, keep, after)
    ensures Leads(first, t) && t.main == s.main && t.w == s.w
    ensures t.worker == Ending(MaintainDone, true, |after|)
    ensures Visible(t.disk).journal == if |after| == |Visible(s.disk).journal| then Visible(s.disk).journal else after
  {
    hide Leads, Restart, Smeared, Complete, Retained, Record, WellFormed, IdSet, NoteAppend, CompactedTo, NoRepeats,
      WithSlot, NoteSlot, NoteReset, SettleMain, Unlink, NextTask, MaintainNext, StartCompact, EndCompact, Parse;
    t := On(first, s, CompactFile(Synced, true, true, after));
  }

  lemma Left(first: State, s: State, bytes: nat) returns (t: State)
    requires Leads(first, s) && s.worker == Ending(MaintainDone, true, bytes)
    ensures Leads(first, t) && t.main == s.main && t.disk == s.disk && t.worker == Finishing(MaintainDone)
    ensures t.w == s.w.(compacting := false, poisoned := false, journalBytes := bytes)
  {
    hide Leads, Restart, Smeared, Complete, Retained, Record, WellFormed, IdSet, NoteAppend, CompactedTo,
      WithSlot, NoteSlot, NoteReset, SettleMain, Unlink, NextTask, MaintainNext, Scans, ReplaceIn;
    t := On(first, s, LeaveCompact);
  }

  lemma Compacted(first: State, s: State, keep: set<Id>) returns (t: State)
    requires Leads(first, s) && s.worker == Compacting(MaintainDone, keep) && Scans(Visible(s.disk).journal, true)
    ensures Leads(first, t) && t.worker == Finishing(MaintainDone) && t.main == s.main
    ensures t.w == s.w.(compacting := false, poisoned := false, journalBytes := |Visible(t.disk).journal|)
    ensures IdSet(Visible(t.disk).journal) == IdSet(Visible(s.disk).journal) * keep
    ensures WellFormed(Visible(t.disk).journal)
  {
    var journal := Visible(s.disk).journal;
    var after := CompactionOf(journal, keep);
    CompactedLength(journal, keep, after);
    hide Leads, IdSet, Visible, Parse;
    t := Shortened(first, s, keep, after);
    t := Left(first, t, |after|);
  }

  /** From any reachable state at rest with a usable journal and known slots, maintenance can compact the
      journal: it then names exactly the ids that it named and that slots or pending results need. */
  lemma CompactionCompletes(s: State)
    requires Reachable(s) && AtRest(s) && !s.w.bad && !s.w.poisoned && !UnknownSlots(s.w)
    requires 0 < s.w.journalBytes <= SIZE_MAX
    ensures exists t ::
      && Leads(s, t) && AtRest(t) && WellFormed(Visible(t.disk).journal)
      && IdSet(Visible(t.disk).journal) == IdSet(Visible(s.disk).journal) * Retained(s.w)
      && t.w.journalBytes == |Visible(t.disk).journal|
  {
    CompactionReady(s);
    hide *;
    var t := Gathered(s);
    t := Compacted(s, t, Retained(s.w));
    t := Delivered(s, t, MaintainDone);
  }

  lemma CompactionReady(s: State)
    requires Reachable(s) && AtRest(s) && !s.w.bad && !s.w.poisoned && s.w.journalBytes <= SIZE_MAX
    ensures !s.w.compacting && !s.w.repairStarted && Scans(Visible(s.disk).journal, true)
  {
    ReachableInv(s);
    assert Gated(s) && Counted(s);
    hide Inv;
  }
}
