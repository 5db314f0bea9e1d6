/** One-time POST consumption as a state machine: the main loop, the writer thread
    and the disk, with ambiguous write failures, crashes and recovery. */
module Protocol {
  import opened Ids
  import opened Options
  import opened Journal
  import opened Writer

  // ----- the disk -----

  datatype SlotFile = NoFile | Corrupt | Holds(image: Image)

  datatype Dir = Dir(slot0: SlotFile, slot1: SlotFile, journal: string)

  function SlotOf(d: Dir, n: nat): SlotFile {
    if n == 0 then d.slot0 else d.slot1
  }

  function WithSlot(d: Dir, n: nat, f: SlotFile): Dir {
    if n == 0 then d.(slot0 := f) else d.(slot1 := f)
  }

  function SavedIn(f: SlotFile): set<Id> {
    if f.Holds? then f.image.ids else {}
  }

  // The directory as running processes see it is the last element. The earlier
  // ones are the states a power loss may still fall back to: a rename that was
  // not followed by a successful directory sync.
  type Disk = disk: seq<Dir> | |disk| > 0 witness [Dir(NoFile, NoFile, "")]

  function Visible(disk: Disk): Dir {
    disk[|disk| - 1]
  }

  datatype ReplaceOutcome = Synced | RenamedUnsynced | NotRenamed

  // ankah_file_replace: write aside, rename, sync the directory.
  function ReplaceIn(disk: Disk, after: Dir, outcome: ReplaceOutcome): Disk {
    match outcome
    case Synced => [after]
    case RenamedUnsynced => disk + [after]
    case NotRenamed => disk
  }

  // What a failed append may do to one directory state: the states that share the
  // visible journal may gain part of the record.
  predicate Grown(before: Dir, after: Dir, visible: string, id: Id, result: int) {
    && after.slot0 == before.slot0 && after.slot1 == before.slot1
    && (|| after.journal == before.journal
        || (before.journal == visible &&
            exists k :: 0 <= k <= RECORD && AppendOutcome(result, k) && after.journal == visible + Record(id)[..k]))
  }

  ghost predicate Smeared(disk: Disk, after: Disk, id: Id, result: int) {
    && (forall d :: d in after ==> exists b :: b in disk && Grown(b, d, Visible(disk).journal, id, result))
    && Grown(Visible(disk), Visible(after), Visible(disk).journal, id, result)
  }

  predicate Scans(journal: string, readable: bool) {
    readable && WellFormed(journal) && |journal| <= SIZE_MAX
  }

  function ScannedLength(journal: string, readable: bool): Option<nat> {
    if Scans(journal, readable) then Some(|journal|) else None
  }

  // ----- recovery -----

  // Which files could be read: by ankah_session_restore, then by ankah_disk_start.
  datatype Readings = Readings(
    restore0: bool, restore1: bool, replay: bool, start0: bool, start1: bool, scan: bool)

  function Candidate(f: SlotFile, readable: bool): Option<Image> {
    if readable && f.Holds? then Some(f.image) else None
  }

  // The newest image that could be read and validated; slot 0 on a tie.
  function Chosen(d: Dir, r: Readings): Option<Image> {
    var first, second := Candidate(d.slot0, r.restore0), Candidate(d.slot1, r.restore1);
    if first.None? then second
    else if second.Some? && second.value.generation > first.value.generation then second
    else first
  }

  function RestoredIds(d: Dir, r: Readings): set<Id> {
    match Chosen(d, r)
    case None => {}
    case Some(image) => if r.replay then Recovered(image.ids, d.journal) else {}
  }

  function LoadedIndex(f: SlotFile, readable: bool): Index {
    match f
    case NoFile => if readable then Known({}) else Unknown
    case Corrupt => Unknown
    case Holds(image) => if readable then Known(image.ids) else Unknown
  }

  // ----- the whole state -----

  datatype Post = Post(complete: bool, reserved: bool)

  datatype Main = Main(saved: map<Id, Post>, building: Option<Image>, batch: seq<Done>,
                       settled: bool, generation: nat)

  // Where the writer thread is between its critical sections.
  datatype Worker =
    | Idle
    | Consuming(id: Id)
    | Appending(id: Id)
    | Appended(id: Id, result: int)
    | Finishing(job: Done)
    | Indexing(image: Image)
    | Replaced(image: Image, ok: bool)
    | Maintaining(job: Done)
    | Resetting(job: Done)
    | WasReset(job: Done)
    | Recovering(job: Done)
    | WasRecovered(job: Done, bytes: nat)
    | AtGate(job: Done)
    | Collecting(job: Done)
    | Compacting(job: Done, keep: set<Id>)
    | FoundBad(job: Done)
    | LeftPoisoned(job: Done)
    | Ending(job: Done, done: bool, bytes: nat)

  // `spent` and `forwarded` are the history the theorems speak about: the ids whose
  // append succeeded, and the POSTs handed upstream in order.
  datatype State = State(w: Fields, main: Main, worker: Worker, disk: Disk,
                         spent: set<Id>, forwarded: seq<Id>)

  datatype Event =
    // main loop
    | SavePost(id: Id)
    | CompletePost(id: Id)
    | LosePost(id: Id)
    | RequestConsume(id: Id)
    | StartCapture
    | Capture
    | DropCapture
    | SubmitCapture
    | RequestMaintenance
    | StartRepair
    | TakeResults
    | Settle(take: bool)
    | Release
    // writer thread
    | TakeTask
    | CheckGate
    | AppendSucceeds
    | AppendFails(result: int, after: Disk)
    | RecordAppend(readable: bool)
    | PostResult
    | CannotIndex
    | ReplaceSlot(outcome: ReplaceOutcome)
    | RecordSlot(room: bool)
    | ReadFlags
    | ResetFile(outcome: ReplaceOutcome, readable: bool)
    | RecordReset
    | RecoverFile(synced: bool, readable: bool)
    | RecordRecovery
    | EnterCompact
    | Collect(memory: bool)
    | CompactFile(outcome: ReplaceOutcome, readable: bool, memory: bool, compacted: string)
    | RecordBad
    | RecordPoison
    | LeaveCompact
    // failures
    | ProcessCrash(readings: Readings, expired: set<Id>)
    | PowerLoss(survivor: nat, readings: Readings, expired: set<Id>)

  function Restart(d: Dir, disk: Disk, r: Readings, expired: set<Id>, spent: set<Id>, forwarded: seq<Id>): State {
    var scanned := ScannedLength(d.journal, r.scan);
    State(
      Fields([], None, false, [], [], scanned.None?, scanned.None?, false, false, Resting, {},
             LoadedIndex(d.slot0, r.start0), LoadedIndex(d.slot1, r.start1),
             if scanned.Some? then scanned.value else 0),
      Main(map id | id in RestoredIds(d, r) - expired :: Post(true, false), None, [], false,
           match Chosen(d, r) case Some(image) => image.generation case None => 0),
      Idle, disk, spent, forwarded)
  }

  function Complete(saved: map<Id, Post>): set<Id> {
    set id | id in saved && saved[id].complete
  }

  // Which steps each state allows. Saving assumes only that a random id is not one
  // that is saved or already spent.
  ghost predicate Enabled(s: State, e: Event) {
    match e
    case SavePost(id) => id !in s.main.saved && id !in s.spent
    case CompletePost(id) => id in s.main.saved
    case LosePost(id) => true
    case RequestConsume(id) =>
      id in s.main.saved && s.main.saved[id].complete && !s.main.saved[id].reserved && CanConsume(s.w)
    case StartCapture => CanCapture(s.w)
    case Capture => s.w.phase == Building && s.main.building.None?
    case DropCapture => true
    case SubmitCapture => s.main.building.Some? && CanQueueSnapshot(s.w)
    case RequestMaintenance => true
    case StartRepair => CanRepair(s.w) && s.main.building.None?
    case TakeResults => s.main.batch == []
    case Settle(take) =>
      s.main.batch != [] && !s.main.settled &&
      (take ==> s.main.batch[0].ConsumeDone? && s.main.batch[0].ok &&
                s.main.batch[0].id in s.main.saved && s.main.saved[s.main.batch[0].id].complete)
    case Release => s.main.batch != [] && s.main.settled
    case TakeTask => s.worker.Idle? && !NextTask(s.w).0.NoTask?
    case CheckGate => s.worker.Consuming?
    case AppendSucceeds => s.worker.Appending?
    case AppendFails(result, after) =>
      s.worker.Appending? && (result == -1 || result == -2) && Smeared(s.disk, after, s.worker.id, result)
    case RecordAppend(readable) => s.worker.Appended?
    case PostResult => s.worker.Finishing?
    case CannotIndex => s.worker.Indexing?
    case ReplaceSlot(outcome) => s.worker.Indexing?
    case RecordSlot(room) => s.worker.Replaced?
    case ReadFlags => s.worker.Maintaining?
    case ResetFile(outcome, readable) => s.worker.Resetting?
    case RecordReset => s.worker.WasReset?
    case RecoverFile(synced, readable) => s.worker.Recovering?
    case RecordRecovery => s.worker.WasRecovered?
    case EnterCompact => s.worker.AtGate?
    case Collect(memory) => s.worker.Collecting?
    case CompactFile(outcome, readable, memory, compacted) =>
      s.worker.Compacting? &&
      (WellFormed(Visible(s.disk).journal) ==> CompactedTo(Visible(s.disk).journal, s.worker.keep, compacted))
    case RecordBad => s.worker.FoundBad?
    case RecordPoison => s.worker.LeftPoisoned?
    case LeaveCompact => s.worker.Ending?
    case ProcessCrash(r, expired) => true
    case PowerLoss(survivor, r, expired) => survivor < |s.disk|
  }

  function AfterTask(task: Task): Worker {
    match task
    case NoTask => Idle
    case ConsumeTask(id) => Consuming(id)
    case SnapshotTask(image) => Indexing(image)
    case MaintainTask => Maintaining(MaintainDone)
  }

  // The callback of one result, as the driver settles it (src/main.c).
  function SettleMain(main: Main, take: bool): Main
    requires main.batch != []
  {
    match main.batch[0]
    case ConsumeDone(id, ok) =>
      if ok then main.(saved := main.saved - {id}, settled := true)
      else if id in main.saved then
        main.(saved := main.saved[id := main.saved[id].(reserved := false)], settled := true)
      else main.(settled := true)
    case SnapshotDone(ok) => main.(settled := true)
    case MaintainDone => main.(settled := true)
  }

  function MaintainNext(w: Fields, job: Done): Worker {
    if w.bad then (if w.repairStarted && w.repairSlots == {} then Resetting(job) else Finishing(job))
    else if w.poisoned then Recovering(job)
    else if w.journalBytes > 0 then AtGate(job)
    else Finishing(job)
  }

  ghost function Apply(s: State, e: Event): State
    requires Enabled(s, e)
  {
    var d := Visible(s.disk);
    match e
    case SavePost(id) => s.(main := s.main.(saved := s.main.saved[id := Post(false, false)]))
    case CompletePost(id) =>
      s.(main := s.main.(saved := s.main.saved[id := s.main.saved[id].(complete := true)]))
    case LosePost(id) => s.(main := s.main.(saved := s.main.saved - {id}))
    case RequestConsume(id) =>
      s.(main := s.main.(saved := s.main.saved[id := s.main.saved[id].(reserved := true)]),
         w := QueueConsume(s.w, id))
    case StartCapture => s.(w := BeginCapture(s.w))
    case Capture =>
      s.(main := s.main.(building := Some(Image(s.main.generation + 1, Complete(s.main.saved))),
                         generation := s.main.generation + 1))
    case DropCapture => s.(main := s.main.(building := None), w := CancelCapture(s.w))
    case SubmitCapture =>
      s.(main := s.main.(building := None), w := QueueSnapshot(s.w, s.main.building.value))
    case RequestMaintenance => s.(w := QueueMaintenance(s.w))
    case StartRepair => s.(main := s.main.(saved := map[]), w := BeginRepair(s.w))
    case TakeResults => s.(main := s.main.(batch := s.w.done, settled := false), w := TakeDone(s.w))
    case Settle(take) =>
      s.(main := SettleMain(s.main, take),
         w := if s.main.batch[0].SnapshotDone? then ResultDone(s.w) else s.w,
         forwarded := if take then s.forwarded + [s.main.batch[0].id] else s.forwarded)
    case Release =>
      s.(main := s.main.(batch := s.main.batch[1..], settled := false), w := Unlink(s.w, s.main.batch[0]))
    case TakeTask => var (task, w) := NextTask(s.w); s.(w := w, worker := AfterTask(task))
    case CheckGate =>
      s.(worker := if AppendBlocked(s.w) then Finishing(ConsumeDone(s.worker.id, false))
                   else Appending(s.worker.id))
    case AppendSucceeds =>
      s.(disk := [d.(journal := d.journal + Record(s.worker.id))],
         spent := s.spent + {s.worker.id}, worker := Appended(s.worker.id, 0))
    case AppendFails(result, after) => s.(disk := after, worker := Appended(s.worker.id, result))
    case RecordAppend(readable) =>
      s.(w := NoteAppend(s.w, s.worker.result, ScannedLength(d.journal, readable)),
         worker := Finishing(ConsumeDone(s.worker.id, s.worker.result == 0)))
    case PostResult => s.(w := PostDone(s.w, s.worker.job), worker := Idle)
    case CannotIndex => s.(w := s.w.(phase := WaitCallback), worker := Finishing(SnapshotDone(false)))
    case ReplaceSlot(outcome) =>
      s.(disk := ReplaceIn(s.disk, WithSlot(d, SlotNumber(s.worker.image), Holds(s.worker.image)), outcome),
         worker := Replaced(s.worker.image, outcome.Synced?))
    case RecordSlot(room) =>
      s.(w := NoteSlot(s.w, s.worker.image, s.worker.ok, room),
         worker := Maintaining(SnapshotDone(s.worker.ok)))
    case ReadFlags => s.(worker := MaintainNext(s.w, s.worker.job))
    case ResetFile(outcome, readable) =>
      s.(disk := ReplaceIn(s.disk, d.(journal := ""), outcome),
         worker := if outcome.Synced? && readable then WasReset(s.worker.job) else Finishing(s.worker.job))
    case RecordReset => s.(w := NoteReset(s.w), worker := Finishing(s.worker.job))
    case RecoverFile(synced, readable) =>
      s.(disk := if synced then [d] else s.disk,
         worker := if synced && Scans(d.journal, readable) then WasRecovered(s.worker.job, |d.journal|)
                   else Finishing(s.worker.job))
    case RecordRecovery => s.(w := NoteRecovered(s.w, s.worker.bytes), worker := AtGate(s.worker.job))
    case EnterCompact =>
      s.(w := StartCompact(s.w),
         worker := if CompactBlocked(s.w) then Finishing(s.worker.job) else Collecting(s.worker.job))
    case Collect(memory) =>
      s.(worker := if memory then Compacting(s.worker.job, Retained(s.w)) else Ending(s.worker.job, false, 0))
    case CompactFile(outcome, readable, memory, compacted) =>
      if !Scans(d.journal, readable) then s.(worker := FoundBad(s.worker.job))
      else if |compacted| == |d.journal| then s.(worker := Ending(s.worker.job, true, |d.journal|))
      else if !memory then s.(worker := Ending(s.worker.job, false, 0))
      else s.(disk := ReplaceIn(s.disk, d.(journal := compacted), outcome),
              worker := if outcome.Synced? then Ending(s.worker.job, true, |compacted|)
                        else LeftPoisoned(s.worker.job))
    case RecordBad => s.(w := MarkBad(s.w), worker := Ending(s.worker.job, false, 0))
    case RecordPoison => s.(w := s.w.(poisoned := true), worker := Ending(s.worker.job, false, 0))
    case LeaveCompact =>
      s.(w := EndCompact(s.w, s.worker.done, s.worker.bytes), worker := Finishing(s.worker.job))
    case ProcessCrash(r, expired) => Restart(d, s.disk, r, expired, s.spent, s.forwarded)
    case PowerLoss(survivor, r, expired) =>
      Restart(s.disk[survivor], [s.disk[survivor]], r, expired, s.spent, s.forwarded)
  }

  // A run begins by recovering from any disk at all, before anything was spent.
  ghost predicate Start(s: State) {
    exists disk: Disk, r: Readings, expired: set<Id> ::
      s == Restart(Visible(disk), disk, r, expired, {}, [])
  }

  ghost predicate Runs(s: State, events: seq<Event>, t: State)
    decreases |events|
  {
    if events == [] then s == t
    else Enabled(s, events[0]) && Runs(Apply(s, events[0]), events[1..], t)
  }

  ghost predicate Reachable(t: State) {
    exists s, events :: Start(s) && Runs(s, events, t)
  }
}
