/** What every step of the protocol keeps, and what follows for whole runs. */
module Safety {
  import opened Ids
  import opened Options
  import opened Journal
  import opened Writer
  import opened Protocol

  // ----- the invariant -----

  // Recovery from `d` drops every one of `ids`: it rejects the journal or finds them in it.
  ghost predicate Covered(d: Dir, ids: set<Id>) {
    WellFormed(d.journal) ==> ids <= IdSet(d.journal)
  }

  function SlotIds(d: Dir): set<Id> {
    SavedIn(d.slot0) + SavedIn(d.slot1)
  }

  function OptionIds(image: Option<Image>): set<Id> {
    if image.Some? then image.value.ids else {}
  }

  function WorkerIds(worker: Worker): set<Id> {
    match worker
    case Indexing(image) => image.ids
    case Replaced(image, ok) => image.ids
    case _ => {}
  }

  // Ids that memory or an image in flight could still bring back.
  function Live(s: State): set<Id> {
    s.main.saved.Keys + OptionIds(s.main.building) + OptionIds(s.w.snapshotBox) + WorkerIds(s.worker)
  }

  function Acks(done: seq<Done>): set<Id> {
    set j | j in done && j.ConsumeDone? && j.ok :: j.id
  }

  function WorkerAck(worker: Worker): set<Id> {
    match worker
    case Appended(id, result) => if result == 0 then {id} else {}
    case Finishing(job) => if job.ConsumeDone? && job.ok then {job.id} else {}
    case _ => {}
  }

  function Consumed(done: seq<Done>): seq<Id> {
    if done == [] then []
    else (if done[0].ConsumeDone? then [done[0].id] else []) + Consumed(done[1..])
  }

  function Unsettled(main: Main): seq<Done> {
    if main.settled && main.batch != [] then main.batch[1..] else main.batch
  }

  // Successful consumptions the main loop has not been told about yet.
  function Awaited(s: State): set<Id> {
    WorkerAck(s.worker) + Acks(Unsettled(s.main)) + Acks(s.w.done)
  }

  ghost predicate DisksCovered(disk: Disk, spent: set<Id>, live: set<Id>) {
    forall d :: d in disk ==> Covered(d, SlotIds(d) * spent) && Covered(d, live * spent)
  }

  ghost predicate Listed(s: State) {
    && s.main.saved.Keys * s.spent <= Awaited(s) <= s.spent
    && s.w.pending == Consumed(s.main.batch) + Consumed(s.w.done)
    && (s.main.settled ==> s.main.batch != [])
  }

  ghost predicate SlotIndexed(w: Fields, d: Dir, n: nat) {
    IndexOf(w, n).Unknown? || SavedIn(SlotOf(d, n)) <= IndexOf(w, n).ids
  }

  ghost predicate Indexed(s: State) {
    var d := Visible(s.disk);
    match s.worker
    case Replaced(image, ok) =>
      var n := SlotNumber(image);
      && SlotIndexed(s.w, d, 1 - n)
      && (SlotIndexed(s.w, d, n) || SavedIn(SlotOf(d, n)) == image.ids)
      && (ok ==> s.disk == [d] && SavedIn(SlotOf(d, n)) == image.ids)
    case _ => SlotIndexed(s.w, d, 0) && SlotIndexed(s.w, d, 1)
  }

  predicate InCompact(worker: Worker) {
    worker.Collecting? || worker.Compacting? || worker.FoundBad? || worker.LeftPoisoned? || worker.Ending?
  }

  // Maintenance runs on behalf of a snapshot or of itself, never of a consumption.
  predicate OwnJob(worker: Worker) {
    match worker
    case Maintaining(job) => !job.ConsumeDone?
    case Resetting(job) => !job.ConsumeDone?
    case WasReset(job) => !job.ConsumeDone?
    case Recovering(job) => !job.ConsumeDone?
    case WasRecovered(job, _) => !job.ConsumeDone?
    case AtGate(job) => !job.ConsumeDone?
    case Collecting(job) => !job.ConsumeDone?
    case Compacting(job, _) => !job.ConsumeDone?
    case FoundBad(job) => !job.ConsumeDone?
    case LeftPoisoned(job) => !job.ConsumeDone?
    case Ending(job, _, _) => !job.ConsumeDone?
    case _ => true
  }

  ghost predicate Gated(s: State) {
    && OwnJob(s.worker)
    && (s.w.compacting <==> InCompact(s.worker))
    && (InCompact(s.worker) ==> s.w.phase == Resting || s.w.phase == WaitCallback)
    && (InCompact(s.worker) && !s.worker.Ending? ==> !s.w.bad && !UnknownSlots(s.w) && !s.w.poisoned)
    && (s.worker.Ending? && s.worker.done ==> !s.w.bad)
    && (s.worker.Compacting? ==> s.main.saved.Keys * s.spent <= s.worker.keep
                                 && IndexIds(s.w.index0) + IndexIds(s.w.index1) <= s.worker.keep)
    && (s.w.snapshotBox.Some? <==> s.w.phase == Queued)
    && (s.worker.Indexing? || s.worker.Replaced? <==> s.w.phase == Writing)
    && (s.main.building.Some? ==> s.w.phase == Building)
    && (s.worker.Appending? || s.worker.Appended? ==> !s.w.poisoned)
    && (s.worker.Recovering? || s.worker.WasRecovered? ==> !s.w.bad && s.w.poisoned)
    && (s.worker.Appending? ==> s.w.journalBytes <= JOURNAL_LIMIT - 33)
    && (s.worker.Resetting? || s.worker.WasReset? ==> s.w.repairStarted && s.w.repairSlots == {})
    && (s.w.bad ==> s.w.poisoned)
    && (s.w.repairStarted ==> s.w.bad)
  }

  ghost predicate SlotsClean(d: Dir, dirty: set<nat>, spent: set<Id>) {
    && (0 !in dirty ==> SavedIn(d.slot0) * spent == {})
    && (1 !in dirty ==> SavedIn(d.slot1) * spent == {})
  }

  ghost predicate Repairing(s: State) {
    s.w.repairStarted ==>
      && Live(s) * s.spent == {}
      && forall d :: d in s.disk ==> SlotsClean(d, s.w.repairSlots, s.spent)
  }

  ghost predicate Once(s: State) {
    && (forall id :: id in s.forwarded ==> id in s.spent && id !in s.main.saved)
    && (forall i, j :: 0 <= i < j < |s.forwarded| ==> s.forwarded[i] != s.forwarded[j])
  }

  // Outside these states, and while the journal is neither bad nor poisoned, the
  // writer's byte count is the file's length.
  ghost predicate Counted(s: State) {
    var journal := Visible(s.disk).journal;
    match s.worker
    case Appended(id, result) =>
      result == 0 ==> WellFormed(journal) && |journal| == s.w.journalBytes + 33
    case LeftPoisoned(_) => true
    case WasReset(_) => journal == ""
    case WasRecovered(_, bytes) => WellFormed(journal) && bytes == |journal|
    case Ending(_, true, bytes) => WellFormed(journal) && bytes == |journal|
    case _ => !s.w.bad && !s.w.poisoned ==> WellFormed(journal) && s.w.journalBytes == |journal|
  }

  ghost predicate Inv(s: State) {
    && DisksCovered(s.disk, s.spent, Live(s))
    && Listed(s)
    && Indexed(s)
    && Gated(s)
    && Repairing(s)
    && Once(s)
    && Counted(s)
  }

  // ----- disk steps -----

  lemma LessLive(disk: Disk, spent: set<Id>, live: set<Id>, less: set<Id>)
    requires DisksCovered(disk, spent, live) && less * spent <= live
    ensures DisksCovered(disk, spent, less)
  {
    forall d | d in disk ensures Covered(d, less * spent) {
      assert less * spent <= live * spent;
    }
  }

  lemma GrownCovered(before: Dir, after: Dir, visible: string, id: Id, result: int, ids: set<Id>)
    requires WellFormed(visible) && Grown(before, after, visible, id, result) && Covered(before, ids)
    ensures Covered(after, ids)
  {
    if after.journal != before.journal {
      var k :| 0 <= k <= RECORD && after.journal == visible + Record(id)[..k];
      if k == RECORD {
        assert Record(id)[..k] == Record(id);
        AppendedIds(visible, id);
      } else if k > 0 {
        TornRejected(visible, id, k);
      }
    }
  }

  lemma SmearedCovered(disk: Disk, after: Disk, id: Id, result: int, spent: set<Id>, live: set<Id>)
    requires WellFormed(Visible(disk).journal)
    requires Smeared(disk, after, id, result) && DisksCovered(disk, spent, live)
    ensures DisksCovered(after, spent, live)
  {
    forall d | d in after ensures Covered(d, SlotIds(d) * spent) && Covered(d, live * spent) {
      var b :| b in disk && Grown(b, d, Visible(disk).journal, id, result);
      assert SlotIds(d) == SlotIds(b);
      GrownCovered(b, d, Visible(disk).journal, id, result, SlotIds(d) * spent);
      GrownCovered(b, d, Visible(disk).journal, id, result, live * spent);
    }
  }

  lemma AppendCovered(d: Dir, id: Id, spent: set<Id>, live: set<Id>)
    requires WellFormed(d.journal)
    requires Covered(d, SlotIds(d) * spent) && Covered(d, live * spent)
    ensures DisksCovered([d.(journal := d.journal + Record(id))], spent + {id}, live)
  {
    AppendedIds(d.journal, id);
    var e := d.(journal := d.journal + Record(id));
    assert SlotIds(e) == SlotIds(d);
  }

  lemma ReplacedCovered(disk: Disk, after: Dir, outcome: ReplaceOutcome, spent: set<Id>, live: set<Id>)
    requires DisksCovered(disk, spent, live)
    requires Covered(after, SlotIds(after) * spent) && Covered(after, live * spent)
    ensures DisksCovered(ReplaceIn(disk, after, outcome), spent, live)
  {
  }

  lemma NewSlotCovered(d: Dir, n: nat, image: Image, spent: set<Id>)
    requires Covered(d, SlotIds(d) * spent) && Covered(d, image.ids * spent)
    ensures Covered(WithSlot(d, n, Holds(image)), SlotIds(WithSlot(d, n, Holds(image))) * spent)
  {
  }

  lemma CompactedCovered(d: Dir, keep: set<Id>, compacted: string, ids: set<Id>)
    requires WellFormed(d.journal) && CompactedTo(d.journal, keep, compacted)
    requires Covered(d, ids) && ids <= keep
    ensures Covered(d.(journal := compacted), ids)
  {
  }

  lemma RestartCovered(d: Dir, disk: Disk, r: Readings, expired: set<Id>, spent: set<Id>, forwarded: seq<Id>)
    requires Covered(d, SlotIds(d) * spent)
    ensures RestoredIds(d, r) * spent == {}
    ensures Live(Restart(d, disk, r, expired, spent, forwarded)) * spent == {}
  {
    var t := Restart(d, disk, r, expired, spent, forwarded);
    assert RestoredIds(d, r) <= SlotIds(d);
    assert t.main.saved.Keys <= RestoredIds(d, r);
  }

  // A step that leaves disk and history alone and brings back no id.
  lemma Shrinks(s: State, t: State)
    requires Inv(s) && t.disk == s.disk && t.spent == s.spent && Live(t) <= Live(s)
    requires t.w.repairStarted ==> s.w.repairStarted && t.w.repairSlots == s.w.repairSlots
    ensures DisksCovered(t.disk, t.spent, Live(t)) && Repairing(t)
  {
    LessLive(s.disk, s.spent, Live(s), Live(t));
  }

  // A writer step that neither acknowledges, posts nor unlinks anything.
  lemma Quiet(s: State, t: State)
    requires Listed(s) && Once(s)
    requires t.main == s.main && t.spent == s.spent && t.forwarded == s.forwarded
    requires t.w.done == s.w.done && t.w.pending == s.w.pending
    requires WorkerAck(t.worker) == WorkerAck(s.worker)
    ensures Listed(t) && Once(t)
  {
    assert Awaited(t) == Awaited(s);
  }

  // ----- main-loop steps -----

  lemma SavePostKeeps(s: State, id: Id)
    requires Inv(s) && Enabled(s, SavePost(id))
    ensures Inv(Apply(s, SavePost(id)))
  {
    var t := Apply(s, SavePost(id));
    assert t.main.saved.Keys == s.main.saved.Keys + {id};
    LessLive(s.disk, s.spent, Live(s), Live(t));
  }

  lemma RequestsRest(s: State, e: Event)
    requires Indexed(s) && Gated(s) && Counted(s) && Enabled(s, e)
    requires e.RequestConsume? || e.RequestMaintenance?
    ensures var t := Apply(s, e); Indexed(t) && Gated(t) && Counted(t)
  {
  }

  lemma PostChangesRest(s: State, e: Event)
    requires Indexed(s) && Gated(s) && Counted(s) && Enabled(s, e)
    requires e.CompletePost? || e.LosePost? || e.RequestConsume? || e.RequestMaintenance?
    ensures var t := Apply(s, e); Indexed(t) && Gated(t) && Counted(t)
  {
    if e.RequestConsume? || e.RequestMaintenance? { RequestsRest(s, e); }
  }

  lemma PostChangesListed(s: State, e: Event)
    requires Listed(s) && Once(s) && Enabled(s, e)
    requires e.CompletePost? || e.LosePost? || e.RequestConsume? || e.RequestMaintenance?
    ensures var t := Apply(s, e); Listed(t) && Once(t) && Live(t) <= Live(s)
  {
    var t := Apply(s, e);
    assert t.main.saved.Keys <= s.main.saved.Keys;
    assert Awaited(t) == Awaited(s);
  }

  lemma PostChangesKeep(s: State, e: Event)
    requires Inv(s) && Enabled(s, e)
    requires e.CompletePost? || e.LosePost? || e.RequestConsume? || e.RequestMaintenance?
    ensures Inv(Apply(s, e))
  {
    PostChangesRest(s, e);
    PostChangesListed(s, e);
    Shrinks(s, Apply(s, e));
  }

  lemma CapturesKeep(s: State, e: Event)
    requires Inv(s) && Enabled(s, e)
    requires e.StartCapture? || e.Capture? || e.DropCapture? || e.SubmitCapture?
    ensures Inv(Apply(s, e))
  {
    var t := Apply(s, e);
    assert Complete(s.main.saved) <= s.main.saved.Keys;
    assert Live(t) <= Live(s);
    LessLive(s.disk, s.spent, Live(s), Live(t));
  }

  lemma StartRepairKeeps(s: State)
    requires Inv(s) && Enabled(s, StartRepair)
    ensures Inv(Apply(s, StartRepair))
  {
    var t := Apply(s, StartRepair);
    assert Live(t) == {};
    LessLive(s.disk, s.spent, Live(s), Live(t));
  }

  lemma ConsumedHead(job: Done, rest: seq<Done>)
    ensures Consumed([job] + rest) == (if job.ConsumeDone? then [job.id] else []) + Consumed(rest)
  {
    assert ([job] + rest)[1..] == rest;
  }

  lemma ConsumedJoin(job: Done, more: seq<Done>, b: seq<Done>)
    requires Consumed(more + b) == Consumed(more) + Consumed(b)
    ensures Consumed([job] + (more + b)) == Consumed([job] + more) + Consumed(b)
  {
    ConsumedHead(job, more);
    ConsumedHead(job, more + b);
  }

  lemma {:induction false} ConsumedConcat(a: seq<Done>, b: seq<Done>)
    ensures Consumed(a + b) == Consumed(a) + Consumed(b)
  {
    if a == [] {
      assert a + b == b;
    } else {
      ConsumedConcat(a[1..], b);
      ConsumedJoin(a[0], a[1..], b);
      assert a == [a[0]] + a[1..] && a + b == [a[0]] + (a[1..] + b);
    }
  }

  lemma {:induction false} AcksListed(done: seq<Done>)
    ensures Acks(done) <= ToSet(Consumed(done))
  {
    if done != [] {
      AcksListed(done[1..]);
      forall id | id in Acks(done) ensures id in Consumed(done) {
        var j :| j in done && j.ConsumeDone? && j.ok && j.id == id;
        if j != done[0] { assert j in done[1..]; assert id in Acks(done[1..]); }
      }
    }
  }

  lemma AcksHead(done: seq<Done>)
    requires done != []
    ensures Acks(done) == Acks(done[1..]) + if done[0].ConsumeDone? && done[0].ok then {done[0].id} else {}
  {
    assert forall j :: j in done <==> j == done[0] || j in done[1..];
  }

  lemma TakeResultsKeeps(s: State)
    requires Inv(s) && Enabled(s, TakeResults)
    ensures Inv(Apply(s, TakeResults))
  {
    var t := Apply(s, TakeResults);
    assert Live(t) == Live(s);
    assert Unsettled(s.main) == [] && Unsettled(t.main) == s.w.done && t.w.done == [];
    assert Awaited(t) == Awaited(s);
  }

  lemma SettleAwaited(s: State, take: bool)
    requires Listed(s) && Enabled(s, Settle(take))
    ensures Listed(Apply(s, Settle(take)))
  {
    var t, job := Apply(s, Settle(take)), s.main.batch[0];
    AcksHead(s.main.batch);
    assert Unsettled(s.main) == s.main.batch && Unsettled(t.main) == s.main.batch[1..];
    var told := if job.ConsumeDone? && job.ok then {job.id} else {};
    assert Awaited(t) <= Awaited(s) <= Awaited(t) + told;
    SettleSaved(s, take, told);
    assert t.main.saved.Keys * s.spent <= Awaited(s) - told;
    assert t.w.pending == s.w.pending && t.w.done == s.w.done && t.main.batch == s.main.batch;
  }

  // A success takes its POST out of memory, whether it is forwarded or cancelled.
  lemma SettleSaved(s: State, take: bool, told: set<Id>)
    requires Enabled(s, Settle(take))
    requires told == if s.main.batch[0].ConsumeDone? && s.main.batch[0].ok then {s.main.batch[0].id} else {}
    ensures Apply(s, Settle(take)).main.saved.Keys <= s.main.saved.Keys - told
  {
  }

  lemma SettleLive(s: State, take: bool)
    requires Enabled(s, Settle(take))
    ensures var t := Apply(s, Settle(take)); Live(t) <= Live(s)
  {
  }

  lemma SettleOnce(s: State, take: bool)
    requires Inv(s) && Enabled(s, Settle(take))
    ensures Once(Apply(s, Settle(take)))
  {
    AcksHead(s.main.batch);
    if take {
      assert s.main.batch[0].id in Awaited(s);
    }
  }

  lemma SettleRest(s: State, take: bool)
    requires Indexed(s) && Gated(s) && Counted(s) && Enabled(s, Settle(take))
    ensures var t := Apply(s, Settle(take)); Indexed(t) && Gated(t) && Counted(t)
  {
  }

  lemma SettleKeeps(s: State, take: bool)
    requires Inv(s) && Enabled(s, Settle(take))
    ensures Inv(Apply(s, Settle(take)))
  {
    SettleAwaited(s, take);
    SettleOnce(s, take);
    SettleRest(s, take);
    SettleLive(s, take);
    Shrinks(s, Apply(s, Settle(take)));
  }

  lemma ReleaseRest(s: State)
    requires Indexed(s) && Gated(s) && Counted(s) && Once(s) && Enabled(s, Release)
    ensures var t := Apply(s, Release); Indexed(t) && Gated(t) && Counted(t) && Once(t) && Live(t) == Live(s)
  {
  }

  lemma UnlinkHead(w: Fields, job: Done, rest: seq<Id>)
    requires w.pending == (if job.ConsumeDone? then [job.id] else []) + rest
    ensures Unlink(w, job) == w.(pending := rest)
  {
    if job.ConsumeDone? { assert w.pending[1..] == rest; }
  }

  lemma ReleaseListed(s: State)
    requires Listed(s) && Enabled(s, Release)
    ensures Listed(Apply(s, Release))
  {
    var t, job, rest := Apply(s, Release), s.main.batch[0], Consumed(s.main.batch[1..]);
    var first := if job.ConsumeDone? then [job.id] else [];
    assert s.w.pending == first + (rest + Consumed(s.w.done));
    UnlinkHead(s.w, job, rest + Consumed(s.w.done));
    assert Unsettled(s.main) == s.main.batch[1..] == Unsettled(t.main);
    assert Awaited(t) == Awaited(s);
  }

  lemma ReleaseKeeps(s: State)
    requires Inv(s) && Enabled(s, Release)
    ensures Inv(Apply(s, Release))
  {
    ReleaseRest(s);
    ReleaseListed(s);
    Shrinks(s, Apply(s, Release));
  }

  // ----- writer-thread steps on memory -----

  lemma TakeTaskKeeps(s: State)
    requires Inv(s) && Enabled(s, TakeTask)
    ensures Inv(Apply(s, TakeTask))
  {
    var t := Apply(s, TakeTask);
    Shrinks(s, t);
    assert Awaited(t) == Awaited(s);
    TakeTaskGated(s);
  }

  lemma TakeTaskGated(s: State)
    requires Indexed(s) && Gated(s) && Counted(s) && Enabled(s, TakeTask)
    ensures var t := Apply(s, TakeTask); Indexed(t) && Gated(t) && Counted(t)
  {
  }

  lemma WorkerMemoryKeeps(s: State, e: Event)
    requires Inv(s) && Enabled(s, e)
    requires e.CheckGate? || e.ReadFlags?
    ensures Inv(Apply(s, e))
  {
    var t := Apply(s, e);
    assert Live(t) == Live(s);
    assert Awaited(t) == Awaited(s);
  }

  lemma CannotIndexKeeps(s: State)
    requires Inv(s) && Enabled(s, CannotIndex)
    ensures Inv(Apply(s, CannotIndex))
  {
    var t := Apply(s, CannotIndex);
    assert Live(t) <= Live(s);
    LessLive(s.disk, s.spent, Live(s), Live(t));
    assert Awaited(t) == Awaited(s);
  }

  lemma AcksSnoc(done: seq<Done>, job: Done)
    ensures Acks(done + [job]) == Acks(done) + WorkerAck(Finishing(job))
  {
    assert forall j :: j in done + [job] <==> j in done || j == job;
  }

  lemma ConsumedSnoc(done: seq<Done>, job: Done)
    ensures Consumed(done + [job]) == Consumed(done) + if job.ConsumeDone? then [job.id] else []
  {
    ConsumedConcat(done, [job]);
    assert [job][1..] == [];
  }

  lemma PostResultListed(s: State)
    requires Listed(s) && Enabled(s, PostResult)
    ensures Listed(Apply(s, PostResult))
  {
    var t, job := Apply(s, PostResult), s.worker.job;
    AcksSnoc(s.w.done, job);
    assert Awaited(t) == Awaited(s);
    ConsumedSnoc(s.w.done, job);
    if job.ConsumeDone? {
      assert t.w.pending == Consumed(t.main.batch) + (Consumed(s.w.done) + [job.id]);
    }
  }

  lemma PostResultKeeps(s: State)
    requires Inv(s) && Enabled(s, PostResult)
    ensures Inv(Apply(s, PostResult))
  {
    PostResultListed(s);
    assert Live(Apply(s, PostResult)) == Live(s);
  }

  lemma NoteAppendFrame(w: Fields, result: int, scanned: Option<nat>)
    ensures var u := NoteAppend(w, result, scanned);
      && u.done == w.done && u.pending == w.pending && u.snapshotBox == w.snapshotBox
      && u.repairStarted == w.repairStarted && u.repairSlots == w.repairSlots
  {
  }

  // t is s once the worker has noted how its append went.
  ghost predicate AppendNoted(s: State, t: State, scanned: Option<nat>) {
    && s.worker.Appended?
    && t == s.(w := NoteAppend(s.w, s.worker.result, scanned),
               worker := Finishing(ConsumeDone(s.worker.id, s.worker.result == 0)))
  }

  lemma RecordAppendQuiet(s: State, t: State, scanned: Option<nat>)
    requires Listed(s) && Once(s) && AppendNoted(s, t, scanned)
    ensures Listed(t) && Once(t) && Live(t) == Live(s)
    ensures t.w.repairStarted == s.w.repairStarted && t.w.repairSlots == s.w.repairSlots
  {
    NoteAppendFrame(s.w, s.worker.result, scanned);
    hide NoteAppend;
    Quiet(s, t);
  }

  lemma RecordAppendRest(s: State, readable: bool)
    requires Indexed(s) && Gated(s) && Counted(s) && Enabled(s, RecordAppend(readable))
    ensures var t := Apply(s, RecordAppend(readable)); Indexed(t) && Gated(t) && Counted(t)
  {
  }

  lemma RecordAppendKeeps(s: State, readable: bool)
    requires Inv(s) && Enabled(s, RecordAppend(readable))
    ensures Inv(Apply(s, RecordAppend(readable)))
  {
    var t := Apply(s, RecordAppend(readable));
    RecordAppendQuiet(s, t, ScannedLength(Visible(s.disk).journal, readable));
    RecordAppendRest(s, readable);
    hide Listed, Once, Indexed, Gated, Counted, Live;
    Shrinks(s, t);
  }

  lemma NoteSlotOk(w: Fields, image: Image, room: bool)
    ensures var u := NoteSlot(w, image, true, room);
      u == w.(index0 := u.index0, index1 := u.index1, repairSlots := u.repairSlots, phase := WaitCallback)
    ensures w.repairStarted ==> NoteSlot(w, image, true, room).repairSlots == w.repairSlots - {SlotNumber(image)}
  {
  }

  lemma NoteSlotFailed(w: Fields, image: Image, room: bool)
    ensures var u := NoteSlot(w, image, false, room);
      u == w.(index0 := u.index0, index1 := u.index1, phase := WaitCallback)
  {
  }

  lemma NoteSlotFrame(w: Fields, image: Image, ok: bool, room: bool)
    ensures var u := NoteSlot(w, image, ok, room);
      u == w.(index0 := u.index0, index1 := u.index1, repairSlots := u.repairSlots, phase := WaitCallback)
    ensures !ok ==> NoteSlot(w, image, ok, room).repairSlots == w.repairSlots
    ensures ok && w.repairStarted ==>
      NoteSlot(w, image, ok, room).repairSlots == w.repairSlots - {SlotNumber(image)}
  {
    if ok { NoteSlotOk(w, image, room); } else { NoteSlotFailed(w, image, room); }
  }

  // t is s once the worker has noted how its slot replacement went.
  ghost predicate SlotNoted(s: State, t: State, room: bool) {
    && s.worker.Replaced?
    && t == s.(w := NoteSlot(s.w, s.worker.image, s.worker.ok, room),
               worker := Maintaining(SnapshotDone(s.worker.ok)))
  }

  lemma RecordSlotLive(s: State, t: State, room: bool)
    requires SlotNoted(s, t, room)
    ensures Live(t) <= Live(s) && s.worker.image.ids <= Live(s)
  {
    NoteSlotFrame(s.w, s.worker.image, s.worker.ok, room);
  }

  lemma RecordSlotClean(s: State, n: nat)
    requires Repairing(s) && Indexed(s) && s.w.repairStarted
    requires s.worker.Replaced? && s.worker.ok && n == SlotNumber(s.worker.image)
    requires s.worker.image.ids <= Live(s)
    ensures forall d :: d in s.disk ==> SlotsClean(d, s.w.repairSlots - {n}, s.spent)
  {
    assert s.worker.image.ids * s.spent <= Live(s) * s.spent;
    var d := Visible(s.disk);
    assert n == 0 || n == 1;
    assert s.disk == [d] && d in s.disk;
    assert SavedIn(SlotOf(d, n)) * s.spent == {};
  }

  lemma RecordSlotRepairing(s: State, t: State, room: bool)
    requires Repairing(s) && Indexed(s) && SlotNoted(s, t, room)
    requires Live(t) <= Live(s) && s.worker.image.ids <= Live(s)
    ensures Repairing(t)
  {
    NoteSlotFrame(s.w, s.worker.image, s.worker.ok, room);
    if s.w.repairStarted {
      assert Live(t) * s.spent <= Live(s) * s.spent;
      if s.worker.ok {
        RecordSlotClean(s, SlotNumber(s.worker.image));
      }
    }
  }

  lemma RecordSlotIndexed(s: State, t: State, room: bool)
    requires Indexed(s) && SlotNoted(s, t, room)
    ensures Indexed(t)
  {
    var n := SlotNumber(s.worker.image);
    assert n == 0 || n == 1;
  }

  lemma RecordSlotGated(s: State, t: State, room: bool)
    requires Gated(s) && Counted(s) && SlotNoted(s, t, room)
    ensures Gated(t) && Counted(t)
  {
    NoteSlotFrame(s.w, s.worker.image, s.worker.ok, room);
  }

  lemma RecordSlotQuiet(s: State, t: State, room: bool)
    requires Listed(s) && Once(s) && SlotNoted(s, t, room)
    ensures Listed(t) && Once(t)
  {
    NoteSlotFrame(s.w, s.worker.image, s.worker.ok, room);
    Quiet(s, t);
  }

  lemma RecordSlotKeeps(s: State, t: State, room: bool)
    requires Inv(s) && SlotNoted(s, t, room)
    ensures Inv(t)
  {
    RecordSlotLive(s, t, room);
    LessLive(s.disk, s.spent, Live(s), Live(t));
    RecordSlotRepairing(s, t, room);
    RecordSlotIndexed(s, t, room);
    RecordSlotGated(s, t, room);
    RecordSlotQuiet(s, t, room);
  }

  lemma RecordSlotStepKeeps(s: State, room: bool)
    requires Inv(s) && Enabled(s, RecordSlot(room))
    ensures Inv(Apply(s, RecordSlot(room)))
  {
    hide Inv;
    RecordSlotKeeps(s, Apply(s, RecordSlot(room)), room);
  }

  lemma RecordsRest(s: State, e: Event)
    requires Indexed(s) && Gated(s) && Counted(s) && Enabled(s, e)
    requires e.RecordReset? || e.RecordRecovery? || e.EnterCompact?
    ensures var t := Apply(s, e); Indexed(t) && Gated(t) && Counted(t)
  {
  }

  lemma CompactRest(s: State, e: Event)
    requires Indexed(s) && Gated(s) && Counted(s) && Enabled(s, e)
    requires e.RecordBad? || e.RecordPoison? || e.LeaveCompact?
    ensures var t := Apply(s, e); Indexed(t) && Gated(t) && Counted(t)
  {
  }

  lemma RecordsKeep(s: State, e: Event)
    requires Inv(s) && Enabled(s, e)
    requires e.RecordReset? || e.RecordRecovery? || e.EnterCompact?
    ensures Inv(Apply(s, e))
  {
    RecordsRest(s, e);
    Shrinks(s, Apply(s, e));
    Quiet(s, Apply(s, e));
  }

  lemma CompactRecordsKeep(s: State, e: Event)
    requires Inv(s) && Enabled(s, e)
    requires e.RecordBad? || e.RecordPoison? || e.LeaveCompact?
    ensures Inv(Apply(s, e))
  {
    CompactRest(s, e);
    Shrinks(s, Apply(s, e));
    Quiet(s, Apply(s, e));
  }

  lemma CollectKeeps(s: State, memory: bool)
    requires Inv(s) && Enabled(s, Collect(memory))
    ensures Inv(Apply(s, Collect(memory)))
  {
    var t := Apply(s, Collect(memory));
    assert Live(t) == Live(s);
    assert Awaited(t) == Awaited(s);
    AcksListed(s.main.batch);
    AcksListed(s.w.done);
    assert Acks(Unsettled(s.main)) <= Acks(s.main.batch);
    assert Awaited(s) <= ToSet(s.w.pending);
  }

  // ----- writer-thread steps on the disk -----

  lemma AppendSucceedsKeeps(s: State)
    requires Inv(s) && Enabled(s, AppendSucceeds)
    ensures Inv(Apply(s, AppendSucceeds))
  {
    var t := Apply(s, AppendSucceeds);
    var d := Visible(s.disk);
    assert d in s.disk;
    AppendCovered(d, s.worker.id, s.spent, Live(s));
    AppendedIds(d.journal, s.worker.id);
    assert Live(t) == Live(s);
    assert WorkerAck(t.worker) == {s.worker.id} && WorkerAck(s.worker) == {};
    assert Awaited(t) == Awaited(s) + {s.worker.id};
    AppendOnce(s);
  }

  lemma AppendOnce(s: State)
    requires Once(s) && Listed(s) && Enabled(s, AppendSucceeds)
    ensures Once(Apply(s, AppendSucceeds))
  {
  }

  lemma AppendFailsKeeps(s: State, result: int, after: Disk)
    requires Inv(s) && Enabled(s, AppendFails(result, after))
    ensures Inv(Apply(s, AppendFails(result, after)))
  {
    var t := Apply(s, AppendFails(result, after));
    SmearedCovered(s.disk, after, s.worker.id, result, s.spent, Live(s));
    assert Live(t) == Live(s);
    Quiet(s, t);
  }

  lemma ReplaceSlotCovered(s: State, outcome: ReplaceOutcome)
    requires DisksCovered(s.disk, s.spent, Live(s)) && Enabled(s, ReplaceSlot(outcome))
    ensures var t := Apply(s, ReplaceSlot(outcome)); DisksCovered(t.disk, t.spent, Live(t))
  {
    var t := Apply(s, ReplaceSlot(outcome));
    var d, n := Visible(s.disk), SlotNumber(s.worker.image);
    var e := WithSlot(d, n, Holds(s.worker.image));
    assert d in s.disk && Live(t) == Live(s);
    assert s.worker.image.ids * s.spent <= Live(s) * s.spent;
    NewSlotCovered(d, n, s.worker.image, s.spent);
    ReplacedCovered(s.disk, e, outcome, s.spent, Live(s));
  }

  lemma ReplaceSlotRepairing(s: State, outcome: ReplaceOutcome)
    requires Repairing(s) && Enabled(s, ReplaceSlot(outcome))
    ensures Repairing(Apply(s, ReplaceSlot(outcome)))
  {
    var t := Apply(s, ReplaceSlot(outcome));
    assert Live(t) == Live(s);
    if s.w.repairStarted {
      assert s.worker.image.ids * s.spent <= Live(s) * s.spent;
      assert Visible(s.disk) in s.disk;
    }
  }

  lemma ReplaceSlotRest(s: State, outcome: ReplaceOutcome)
    requires Indexed(s) && Gated(s) && Counted(s) && Enabled(s, ReplaceSlot(outcome))
    ensures var t := Apply(s, ReplaceSlot(outcome)); Indexed(t) && Gated(t) && Counted(t)
  {
    var n := SlotNumber(s.worker.image);
    assert n == 0 || n == 1;
  }

  lemma ReplaceSlotKeeps(s: State, outcome: ReplaceOutcome)
    requires Inv(s) && Enabled(s, ReplaceSlot(outcome))
    ensures Inv(Apply(s, ReplaceSlot(outcome)))
  {
    ReplaceSlotCovered(s, outcome);
    ReplaceSlotRepairing(s, outcome);
    ReplaceSlotRest(s, outcome);
    Quiet(s, Apply(s, ReplaceSlot(outcome)));
  }

  lemma ResetFileCovered(s: State, outcome: ReplaceOutcome, readable: bool)
    requires Repairing(s) && Gated(s) && DisksCovered(s.disk, s.spent, Live(s))
    requires Enabled(s, ResetFile(outcome, readable))
    ensures var t := Apply(s, ResetFile(outcome, readable));
      DisksCovered(t.disk, t.spent, Live(t)) && Repairing(t)
  {
    var t := Apply(s, ResetFile(outcome, readable));
    var d := Visible(s.disk);
    assert d in s.disk && Live(t) == Live(s);
    assert SlotsClean(d, {}, s.spent);
    assert SlotIds(d) * s.spent == SavedIn(d.slot0) * s.spent + SavedIn(d.slot1) * s.spent;
    ReplacedCovered(s.disk, d.(journal := ""), outcome, s.spent, Live(s));
  }

  lemma ResetFileKeeps(s: State, outcome: ReplaceOutcome, readable: bool)
    requires Inv(s) && Enabled(s, ResetFile(outcome, readable))
    ensures Inv(Apply(s, ResetFile(outcome, readable)))
  {
    ResetFileCovered(s, outcome, readable);
    Quiet(s, Apply(s, ResetFile(outcome, readable)));
  }

  lemma RecoverFileKeeps(s: State, synced: bool, readable: bool)
    requires Inv(s) && Enabled(s, RecoverFile(synced, readable))
    ensures Inv(Apply(s, RecoverFile(synced, readable)))
  {
    var t := Apply(s, RecoverFile(synced, readable));
    assert Visible(s.disk) in s.disk && Live(t) == Live(s);
    Quiet(s, t);
  }

  lemma CompactFileCovered(s: State, e: Event)
    requires Inv(s) && e.CompactFile? && Enabled(s, e)
    ensures var t := Apply(s, e); DisksCovered(t.disk, t.spent, Live(t))
  {
    var t := Apply(s, e);
    var d := Visible(s.disk);
    assert d in s.disk && Live(t) == Live(s) == s.main.saved.Keys;
    if Scans(d.journal, e.readable) {
      assert SlotIds(d) <= s.worker.keep;
      CompactedCovered(d, s.worker.keep, e.compacted, SlotIds(d) * s.spent);
      CompactedCovered(d, s.worker.keep, e.compacted, Live(s) * s.spent);
      ReplacedCovered(s.disk, d.(journal := e.compacted), e.outcome, s.spent, Live(s));
    }
  }

  lemma CompactFileRest(s: State, e: Event)
    requires Indexed(s) && Gated(s) && Counted(s) && e.CompactFile? && Enabled(s, e)
    ensures var t := Apply(s, e); Indexed(t) && Gated(t) && Counted(t)
  {
  }

  lemma CompactFileKeeps(s: State, e: Event)
    requires Inv(s) && e.CompactFile? && Enabled(s, e)
    ensures Inv(Apply(s, e))
  {
    CompactFileCovered(s, e);
    CompactFileRest(s, e);
    Quiet(s, Apply(s, e));
  }

  // ----- crashes -----

  lemma RestartKeeps(d: Dir, disk: Disk, r: Readings, expired: set<Id>, spent: set<Id>, forwarded: seq<Id>)
    requires forall e :: e in disk ==> Covered(e, SlotIds(e) * spent)
    requires d == Visible(disk)
    requires forall id :: id in forwarded ==> id in spent
    requires forall i, j :: 0 <= i < j < |forwarded| ==> forwarded[i] != forwarded[j]
    ensures Inv(Restart(d, disk, r, expired, spent, forwarded))
  {
    var t := Restart(d, disk, r, expired, spent, forwarded);
    assert d in disk;
    RestartCovered(d, disk, r, expired, spent, forwarded);
    assert t.main.saved.Keys * spent == {} by { assert t.main.saved.Keys <= Live(t); }
    assert Awaited(t) == {};
  }

  // What the disks and the history alone say.
  lemma InvDisks(s: State)
    requires Inv(s)
    ensures forall e :: e in s.disk ==> Covered(e, SlotIds(e) * s.spent)
    ensures forall id :: id in s.forwarded ==> id in s.spent
    ensures forall i, j :: 0 <= i < j < |s.forwarded| ==> s.forwarded[i] != s.forwarded[j]
  {
  }

  lemma ProcessCrashRestarts(s: State, r: Readings, expired: set<Id>)
    ensures Apply(s, ProcessCrash(r, expired)) ==
      Restart(Visible(s.disk), s.disk, r, expired, s.spent, s.forwarded)
  {
    hide Restart;
  }

  lemma PowerLossRestarts(s: State, survivor: nat, r: Readings, expired: set<Id>)
    requires survivor < |s.disk|
    ensures Apply(s, PowerLoss(survivor, r, expired)) ==
      Restart(s.disk[survivor], [s.disk[survivor]], r, expired, s.spent, s.forwarded)
  {
    hide Restart;
  }

  lemma ProcessCrashKeeps(s: State, r: Readings, expired: set<Id>)
    requires Inv(s)
    ensures Inv(Apply(s, ProcessCrash(r, expired)))
  {
    InvDisks(s);
    ProcessCrashRestarts(s, r, expired);
    hide Inv, Covered, Restart, Apply;
    RestartKeeps(Visible(s.disk), s.disk, r, expired, s.spent, s.forwarded);
  }

  lemma PowerLossKeeps(s: State, survivor: nat, r: Readings, expired: set<Id>)
    requires Inv(s) && survivor < |s.disk|
    ensures Inv(Apply(s, PowerLoss(survivor, r, expired)))
  {
    InvDisks(s);
    assert s.disk[survivor] in s.disk;
    PowerLossRestarts(s, survivor, r, expired);
    hide Inv, Covered, Restart, Apply;
    RestartKeeps(s.disk[survivor], [s.disk[survivor]], r, expired, s.spent, s.forwarded);
  }

  lemma PowerLossStepKeeps(s: State, survivor: nat, r: Readings, expired: set<Id>)
    requires Inv(s) && Enabled(s, PowerLoss(survivor, r, expired))
    ensures Inv(Apply(s, PowerLoss(survivor, r, expired)))
  {
    PowerLossKeeps(s, survivor, r, expired);
  }

  // ----- whole runs -----

  predicate PostEvent(e: Event) {
    || e.SavePost? || e.CompletePost? || e.LosePost? || e.RequestConsume? || e.RequestMaintenance?
  }

  predicate CaptureEvent(e: Event) {
    e.StartCapture? || e.Capture? || e.DropCapture? || e.SubmitCapture?
  }

  predicate RecordEvent(e: Event) {
    || e.RecordReset? || e.RecordRecovery? || e.EnterCompact?
    || e.RecordBad? || e.RecordPoison? || e.LeaveCompact?
  }

  lemma PostStepKeeps(s: State, e: Event)
    requires Inv(s) && Enabled(s, e) && PostEvent(e)
    ensures Inv(Apply(s, e))
  {
    if e.SavePost? { SavePostKeeps(s, e.id); } else { PostChangesKeep(s, e); }
  }

  lemma RecordStepKeeps(s: State, e: Event)
    requires Inv(s) && Enabled(s, e) && RecordEvent(e)
    ensures Inv(Apply(s, e))
  {
    if e.RecordReset? || e.RecordRecovery? || e.EnterCompact? { RecordsKeep(s, e); }
    else { CompactRecordsKeep(s, e); }
  }

  /** No step of the main loop, the writer thread or a failure breaks the invariant. */
  lemma StepKeeps(s: State, e: Event)
    requires Inv(s) && Enabled(s, e)
    ensures Inv(Apply(s, e))
  {
    hide Inv, Enabled, Apply;
    if PostEvent(e) { PostStepKeeps(s, e); }
    else if CaptureEvent(e) { CapturesKeep(s, e); }
    else if RecordEvent(e) { RecordStepKeeps(s, e); }
    else {
      match e {
        case StartRepair => StartRepairKeeps(s);
        case TakeResults => TakeResultsKeeps(s);
        case Settle(take) => SettleKeeps(s, take);
        case Release => ReleaseKeeps(s);
        case TakeTask => TakeTaskKeeps(s);
        case CheckGate => WorkerMemoryKeeps(s, e);
        case ReadFlags => WorkerMemoryKeeps(s, e);
        case AppendSucceeds => AppendSucceedsKeeps(s);
        case AppendFails(result, after) => AppendFailsKeeps(s, result, after);
        case RecordAppend(readable) => RecordAppendKeeps(s, readable);
        case PostResult => PostResultKeeps(s);
        case CannotIndex => CannotIndexKeeps(s);
        case ReplaceSlot(outcome) => ReplaceSlotKeeps(s, outcome);
        case RecordSlot(room) => RecordSlotStepKeeps(s, room);
        case ResetFile(outcome, readable) => ResetFileKeeps(s, outcome, readable);
        case RecoverFile(synced, readable) => RecoverFileKeeps(s, synced, readable);
        case Collect(memory) => CollectKeeps(s, memory);
        case CompactFile(_, _, _, _) => CompactFileKeeps(s, e);
        case ProcessCrash(r, expired) => ProcessCrashKeeps(s, r, expired);
        case PowerLoss(survivor, r, expired) => PowerLossStepKeeps(s, survivor, r, expired);
        case _ =>
      }
    }
  }

  lemma {:induction false} RunKeeps(s: State, events: seq<Event>, t: State)
    requires Inv(s) && Runs(s, events, t)
    ensures Inv(t)
    decreases |events|
  {
    if events != [] {
      StepKeeps(s, events[0]);
      RunKeeps(Apply(s, events[0]), events[1..], t);
    }
  }

  lemma ReachableInv(t: State)
    requires Reachable(t)
    ensures Inv(t)
  {
    var s, events :| Start(s) && Runs(s, events, t);
    var disk: Disk, r: Readings, expired: set<Id> :|
      s == Restart(Visible(disk), disk, r, expired, {}, []);
    RestartKeeps(Visible(disk), disk, r, expired, {}, []);
    RunKeeps(s, events, t);
  }

  // ----- the theorems -----

  /** A POST whose consumption succeeded is never restored by any later recovery:
      not after a process crash, not after a power loss that takes any surviving
      directory state, and whichever of the files can be read. */
  lemma NeverRestored(s: State, id: Id, d: Dir, r: Readings)
    requires Reachable(s) && id in s.spent && d in s.disk
    ensures id !in RestoredIds(d, r)
  {
    ReachableInv(s);
    RestartCovered(d, [d], r, {}, s.spent, s.forwarded);
  }

  /** Every success the main loop is told of is a spent id, so the theorem above
      covers exactly the acknowledged consumptions. */
  lemma AcknowledgedIsSpent(s: State, id: Id)
    requires Reachable(s)
    requires ConsumeDone(id, true) in Unsettled(s.main) || ConsumeDone(id, true) in s.w.done
    ensures id in s.spent
  {
    ReachableInv(s);
    assert id in Awaited(s);
  }

  /** Each POST is forwarded at most once over the whole run, crashes included. */
  lemma ForwardedOnce(s: State)
    requires Reachable(s)
    ensures forall i, j :: 0 <= i < j < |s.forwarded| ==> s.forwarded[i] != s.forwarded[j]
    ensures forall id :: id in s.forwarded ==> id in s.spent && id !in s.main.saved
  {
    ReachableInv(s);
  }

  /** A completed consumption that the main loop has not settled is listed for compaction or
      about to be, and so is every spent POST that memory still holds. */
  lemma UnsettledStaysListed(s: State, id: Id)
    requires Reachable(s) && (id in Awaited(s) || (id in s.main.saved && id in s.spent))
    ensures id in s.w.pending || WorkerAck(s.worker) == {id}
  {
    ReachableInv(s);
    AwaitedListed(s);
    assert id in Awaited(s);
  }

  lemma AwaitedListed(s: State)
    requires Listed(s)
    ensures Awaited(s) <= ToSet(s.w.pending) + WorkerAck(s.worker)
  {
    AcksListed(s.main.batch);
    AcksListed(s.w.done);
    assert Acks(Unsettled(s.main)) <= Acks(s.main.batch);
  }

  // What recovery would restore from one slot under the directory's journal.
  function SlotRecovered(d: Dir, n: nat): set<Id> {
    Recovered(SavedIn(SlotOf(d, n)), d.journal)
  }

  // What a compaction under way keeps includes every consumption that is still unsettled.
  ghost predicate AwaitedKept(s: State) {
    s.worker.Compacting? ==> Awaited(s) <= s.worker.keep
  }

  lemma ResultsAwait(s: State, e: Event)
    requires Enabled(s, e) && (e.Settle? || e.TakeResults? || e.Release?)
    ensures Awaited(Apply(s, e)) <= Awaited(s) && Apply(s, e).worker == s.worker
  {
    var t := Apply(s, e);
    if e.Settle? {
      AcksHead(s.main.batch);
      assert Unsettled(s.main) == s.main.batch && Unsettled(t.main) == s.main.batch[1..];
    } else if e.TakeResults? {
      assert Unsettled(t.main) == s.w.done && t.w.done == [];
    } else {
      assert Unsettled(s.main) == s.main.batch[1..] == Unsettled(t.main);
    }
  }

  // Only the main loop acts while the writer compacts, and it settles but never adds.
  lemma MainAwaits(s: State, e: Event)
    requires Enabled(s, e) && s.worker.Compacting? && Apply(s, e).worker.Compacting?
    ensures Awaited(Apply(s, e)) <= Awaited(s) && Apply(s, e).worker == s.worker
  {
    hide Awaited;
    if e.Settle? || e.TakeResults? || e.Release? {
      ResultsAwait(s, e);
    } else {
      MainAloneAwaits(s, e);
    }
  }

  // What the main loop does apart from handling results.
  predicate MainEvent(e: Event) {
    PostEvent(e) || CaptureEvent(e) || e.StartRepair?
  }

  lemma OnlyMainActs(s: State, e: Event)
    requires Enabled(s, e) && s.worker.Compacting? && Apply(s, e).worker.Compacting?
    requires !e.Settle? && !e.TakeResults? && !e.Release?
    ensures MainEvent(e)
  {
    hide BeginCapture, CancelCapture, QueueSnapshot, QueueMaintenance, BeginRepair, QueueConsume, Complete;
  }

  lemma MainEventAwaits(s: State, e: Event)
    requires Enabled(s, e) && MainEvent(e)
    ensures var t := Apply(s, e); t.worker == s.worker && t.w.done == s.w.done && Unsettled(t.main) == Unsettled(s.main)
  {
  }

  lemma MainAloneAwaits(s: State, e: Event)
    requires Enabled(s, e) && s.worker.Compacting? && Apply(s, e).worker.Compacting?
    requires !e.Settle? && !e.TakeResults? && !e.Release?
    ensures Awaited(Apply(s, e)) == Awaited(s) && Apply(s, e).worker == s.worker
  {
    hide Acks, Apply, Enabled, Unsettled, MainEvent;
    OnlyMainActs(s, e);
    MainEventAwaits(s, e);
  }

  lemma CollectAwaits(s: State, e: Event)
    requires Inv(s) && Enabled(s, e) && !s.worker.Compacting? && Apply(s, e).worker.Compacting?
    ensures AwaitedKept(Apply(s, e))
  {
    hide Acks;
    assert e.Collect? && Awaited(Apply(s, e)) == Awaited(s);
    AwaitedListed(s);
  }

  lemma StepKeepsAwaited(s: State, e: Event)
    requires Inv(s) && Enabled(s, e) && AwaitedKept(s)
    ensures AwaitedKept(Apply(s, e))
  {
    hide Inv, Awaited;
    if Apply(s, e).worker.Compacting? {
      if s.worker.Compacting? {
        MainAwaits(s, e);
      } else {
        CollectAwaits(s, e);
      }
    }
  }

  lemma {:induction false} RunKeepsAwaited(s: State, events: seq<Event>, t: State)
    requires Inv(s) && AwaitedKept(s) && Runs(s, events, t)
    ensures Inv(t) && AwaitedKept(t)
    decreases |events|
  {
    hide Inv, AwaitedKept, Enabled, Apply;
    if events != [] {
      StepKeeps(s, events[0]);
      StepKeepsAwaited(s, events[0]);
      RunKeepsAwaited(Apply(s, events[0]), events[1..], t);
    }
  }

  lemma ReachableKeeps(t: State)
    requires Reachable(t)
    ensures Inv(t) && AwaitedKept(t)
  {
    var s, events :| Start(s) && Runs(s, events, t);
    var disk: Disk, r: Readings, expired: set<Id> :|
      s == Restart(Visible(disk), disk, r, expired, {}, []);
    RestartKeeps(Visible(disk), disk, r, expired, {}, []);
    RunKeepsAwaited(s, events, t);
  }

  /** Compaction is invisible to recovery: in every directory state it may leave, each slot
      recovers exactly what it would have before; every completed but unsettled consumption
      that was journaled stays journaled; and every spent POST that memory still holds is. */
  lemma CompactionInvisible(s: State, e: Event, d: Dir, n: nat)
    requires Reachable(s) && e.CompactFile? && Enabled(s, e) && d in Apply(s, e).disk
    ensures d in s.disk || SlotRecovered(d, n) == SlotRecovered(Visible(s.disk), n)
    ensures d in s.disk || Awaited(s) * IdSet(Visible(s.disk).journal) <= IdSet(d.journal)
    ensures d in s.disk || s.main.saved.Keys * s.spent <= IdSet(d.journal)
  {
    ReachableKeeps(s);
    var b := Visible(s.disk);
    if d !in s.disk {
      assert d == b.(journal := e.compacted);
      assert SavedIn(SlotOf(b, n)) <= s.worker.keep;
      assert b in s.disk && Covered(b, Live(s) * s.spent);
    }
  }

  /** Each slot index is unknown or holds every saved id really in the file, except
      between replacing a slot and recording it. */
  lemma IndexesCoverSlots(s: State, n: nat)
    requires Reachable(s) && n < 2 && !s.worker.Replaced?
    ensures IndexOf(s.w, n).Unknown? || SavedIn(SlotOf(Visible(s.disk), n)) <= IndexOf(s.w, n).ids
  {
    ReachableInv(s);
  }

  /** While the journal is neither bad nor poisoned and the writer is not between a
      file operation and its bookkeeping, its byte count is the true length. */
  lemma BytesAreTrue(s: State)
    requires Reachable(s) && !s.w.bad && !s.w.poisoned
    requires !s.worker.Appended? && !s.worker.LeftPoisoned? && !(s.worker.Ending? && s.worker.done)
    ensures WellFormed(Visible(s.disk).journal) && s.w.journalBytes == |Visible(s.disk).journal|
  {
    ReachableInv(s);
  }

  ghost predicate Within(disk: Disk) {
    forall d :: d in disk ==> |d.journal| <= JOURNAL_LIMIT
  }

  lemma FailedAppendWithin(disk: Disk, after: Disk, id: Id, result: int)
    requires Within(disk) && Smeared(disk, after, id, result)
    requires |Visible(disk).journal| <= JOURNAL_LIMIT - 33
    ensures Within(after)
  {
    forall d | d in after ensures |d.journal| <= JOURNAL_LIMIT {
      var b :| b in disk && Grown(b, d, Visible(disk).journal, id, result);
    }
  }

  lemma CompactWithin(s: State, e: Event)
    requires Within(s.disk) && e.CompactFile? && Enabled(s, e)
    ensures Within(Apply(s, e).disk)
  {
    if Scans(Visible(s.disk).journal, e.readable) {
      CompactedLength(Visible(s.disk).journal, s.worker.keep, e.compacted);
      assert Visible(s.disk) in s.disk;
    }
  }

  lemma AppendSucceedsWithin(s: State)
    requires Gated(s) && Counted(s) && Enabled(s, AppendSucceeds) && Within(s.disk)
    ensures Within(Apply(s, AppendSucceeds).disk)
  {
    assert Visible(s.disk) in s.disk;
  }

  lemma ReplaceWithin(s: State, e: Event)
    requires Within(s.disk) && Enabled(s, e)
    requires e.ReplaceSlot? || e.ResetFile? || e.RecoverFile? || e.ProcessCrash? || e.PowerLoss?
    ensures Within(Apply(s, e).disk)
  {
    assert Visible(s.disk) in s.disk;
  }

  predicate WritesDisk(e: Event) {
    || e.AppendSucceeds? || e.AppendFails? || e.ReplaceSlot? || e.ResetFile? || e.RecoverFile?
    || e.CompactFile? || e.ProcessCrash? || e.PowerLoss?
  }

  lemma DiskUntouched(s: State, e: Event)
    requires Enabled(s, e) && !WritesDisk(e)
    ensures Apply(s, e).disk == s.disk
  {
  }

  lemma FailsWithin(s: State, e: Event)
    requires Gated(s) && Counted(s) && e.AppendFails? && Enabled(s, e) && Within(s.disk)
    ensures Within(Apply(s, e).disk)
  {
    FailedAppendWithin(s.disk, e.after, s.worker.id, e.result);
  }

  lemma StepWithin(s: State, e: Event)
    requires Gated(s) && Counted(s) && Enabled(s, e) && Within(s.disk)
    ensures Within(Apply(s, e).disk)
  {
    if !WritesDisk(e) { DiskUntouched(s, e); }
    else if e.AppendSucceeds? { AppendSucceedsWithin(s); }
    else if e.AppendFails? { FailsWithin(s, e); }
    else if e.CompactFile? { CompactWithin(s, e); }
    else { ReplaceWithin(s, e); }
  }

  lemma {:induction false} RunWithin(s: State, events: seq<Event>, t: State)
    requires Inv(s) && Within(s.disk) && Runs(s, events, t)
    ensures Within(t.disk)
    decreases |events|
  {
    if events != [] {
      StepWithin(s, events[0]);
      StepKeeps(s, events[0]);
      RunWithin(Apply(s, events[0]), events[1..], t);
    }
  }

  /** A journal that is within the limit stays within it for the rest of the run. */
  lemma JournalStaysWithin(s: State, events: seq<Event>, t: State)
    requires Reachable(s) && Within(s.disk) && Runs(s, events, t)
    ensures Within(t.disk)
  {
    ReachableInv(s);
    RunWithin(s, events, t);
  }

  // ----- the machine does forward -----

  lemma {:induction false} RunsSnoc(s: State, events: seq<Event>, t: State, e: Event)
    requires Runs(s, events, t) && Enabled(t, e)
    ensures Runs(s, events + [e], Apply(t, e))
    decreases |events|
  {
    if events == [] {
      assert [e][1..] == [];
    } else {
      RunsSnoc(Apply(s, events[0]), events[1..], t, e);
      assert (events + [e])[1..] == events[1..] + [e];
    }
  }

  lemma Step(s: State, e: Event) returns (t: State)
    requires Reachable(s) && Enabled(s, e)
    ensures t == Apply(s, e) && Reachable(t)
  {
    t := Apply(s, e);
    var first, events :| Start(first) && Runs(first, events, s);
    RunsSnoc(first, events, s, e);
  }

  // Starting on an empty disk.
  lemma Fresh() returns (t: State)
    ensures Reachable(t) && t.worker.Idle? && t.w.consumeQueue == [] && !t.w.maintenance
    ensures t.w.snapshotBox.None? && !AppendBlocked(t.w) && CanConsume(t.w) && t.w.done == []
    ensures t.forwarded == [] && t.spent == {} && t.main.saved == map[] && t.main.batch == []
  {
    var disk: Disk := [Dir(NoFile, NoFile, "")];
    var r := Readings(true, true, true, true, true, true);
    t := Restart(Visible(disk), disk, r, {}, {}, []);
    assert Start(t);
    assert Runs(t, [], t);
  }

  lemma Requested(id: Id) returns (t: State)
    ensures Reachable(t) && t.worker.Idle? && t.w.consumeQueue == [id] && !t.w.maintenance
    ensures t.w.snapshotBox.None? && !AppendBlocked(t.w) && t.forwarded == [] && t.w.done == []
    ensures id in t.main.saved && t.main.saved[id].complete && t.main.batch == []
  {
    var s := Fresh();
    t := Step(s, SavePost(id));
    t := Step(t, CompletePost(id));
    t := Step(t, RequestConsume(id));
  }

  lemma Appendable(id: Id) returns (t: State)
    ensures Reachable(t) && t.worker == Appending(id) && t.w.done == [] && t.forwarded == []
    ensures id in t.main.saved && t.main.saved[id].complete && t.main.batch == []
  {
    t := Requested(id);
    t := Step(t, TakeTask);
    t := Step(t, CheckGate);
  }

  lemma Recorded(id: Id) returns (t: State)
    ensures Reachable(t) && t.worker == Finishing(ConsumeDone(id, true)) && t.w.done == [] && t.forwarded == []
    ensures id in t.main.saved && t.main.saved[id].complete && t.main.batch == []
  {
    var s := Appendable(id);
    var a := Step(s, AppendSucceeds);
    assert a.worker == Appended(id, 0);
    t := Step(a, RecordAppend(true));
  }

  lemma Acknowledged(id: Id) returns (t: State)
    ensures Reachable(t) && t.w.done == [ConsumeDone(id, true)] && t.forwarded == []
    ensures id in t.main.saved && t.main.saved[id].complete && t.main.batch == []
  {
    var s := Recorded(id);
    t := Step(s, PostResult);
  }

  /** The theorems are not about an idle machine: any POST can be saved, consumed
      and forwarded. */
  lemma AnyPostCanBeForwarded(id: Id)
    ensures exists t :: Reachable(t) && t.forwarded == [id]
  {
    var t := Acknowledged(id);
    t := Step(t, TakeResults);
    t := Step(t, Settle(true));
  }
}
