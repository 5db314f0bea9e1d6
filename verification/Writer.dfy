/** The disk writer's shared fields. Each critical section of the source is a
    function on those fields, and a method of the class that performs it. */
module Writer {
  import opened Ids
  import opened Options

  const JOURNAL_LIMIT := 1024 * 1024
  const JOURNAL_REFRESH := 256 * 1024
  const SESSION_CAPACITY := 4096
  const QUEUE_LIMIT := 4096

  datatype Phase = Resting | Building | Queued | Writing | WaitCallback

  // One snapshot slot's saved-POST ids, as far as the writer knows them.
  datatype Index = Unknown | Known(ids: set<Id>)

  datatype Image = Image(generation: nat, ids: set<Id>)

  datatype Done = ConsumeDone(id: Id, ok: bool) | SnapshotDone(ok: bool) | MaintainDone

  datatype Task = NoTask | ConsumeTask(id: Id) | SnapshotTask(image: Image) | MaintainTask

  datatype Fields = Fields(
    consumeQueue: seq<Id>, snapshotBox: Option<Image>, maintenance: bool,
    done: seq<Done>, pending: seq<Id>,
    poisoned: bool, bad: bool, repairStarted: bool, compacting: bool,
    phase: Phase, repairSlots: set<nat>, index0: Index, index1: Index, journalBytes: nat)

  function SlotNumber(image: Image): nat {
    image.generation % 2
  }

  predicate UnknownSlots(w: Fields) {
    w.index0.Unknown? || w.index1.Unknown?
  }

  predicate CanCapture(w: Fields) {
    !w.compacting && w.phase == Resting
  }

  function BeginCapture(w: Fields): Fields {
    if CanCapture(w) then w.(phase := Building) else w
  }

  function CancelCapture(w: Fields): Fields {
    if w.phase == Building then w.(phase := Resting) else w
  }

  function ResultDone(w: Fields): Fields {
    if w.phase == WaitCallback then w.(phase := Resting) else w
  }

  predicate CanRepair(w: Fields) {
    w.bad && !w.repairStarted && w.phase == Resting
  }

  function BeginRepair(w: Fields): Fields {
    if CanRepair(w) then w.(repairStarted := true, repairSlots := {0, 1}) else w
  }

  predicate CanQueueSnapshot(w: Fields) {
    w.phase == Building && w.snapshotBox.None?
  }

  function QueueSnapshot(w: Fields, image: Image): Fields {
    if CanQueueSnapshot(w) then w.(snapshotBox := Some(image), phase := Queued) else w
  }

  predicate CanConsume(w: Fields) {
    |w.consumeQueue| < QUEUE_LIMIT
  }

  function QueueConsume(w: Fields, id: Id): Fields {
    if CanConsume(w) then w.(consumeQueue := w.consumeQueue + [id]) else w
  }

  function QueueMaintenance(w: Fields): Fields {
    w.(maintenance := true)
  }

  // A snapshot overtakes waiting consumptions when it is needed to shrink the
  // journal or to replace a slot that could not be read.
  predicate SnapshotFirst(w: Fields) {
    || w.consumeQueue == []
    || w.journalBytes >= JOURNAL_REFRESH
    || w.repairStarted || w.bad || w.poisoned || UnknownSlots(w)
  }

  function NextTask(w: Fields): (Task, Fields) {
    if w.maintenance then (MaintainTask, w.(maintenance := false))
    else if w.snapshotBox.Some? && SnapshotFirst(w) then
      (SnapshotTask(w.snapshotBox.value), w.(snapshotBox := None, phase := Writing))
    else if w.consumeQueue != [] then
      (ConsumeTask(w.consumeQueue[0]), w.(consumeQueue := w.consumeQueue[1..]))
    else (NoTask, w)
  }

  predicate AppendBlocked(w: Fields) {
    w.poisoned || w.bad || w.journalBytes > JOURNAL_LIMIT - 33
  }

  function MarkBad(w: Fields): Fields {
    w.(bad := true, poisoned := true)
  }

  // After an append: a success adds a record, a failed rollback or an unreadable
  // journal marks it bad, and any other failure takes the scanned length.
  function NoteAppend(w: Fields, result: int, scanned: Option<nat>): Fields {
    if result == 0 then w.(journalBytes := w.journalBytes + 33)
    else if result == -2 || scanned.None? then MarkBad(w)
    else w.(journalBytes := scanned.value)
  }

  function SetIndex(w: Fields, n: nat, index: Index): Fields {
    if n == 0 then w.(index0 := index) else w.(index1 := index)
  }

  function IndexOf(w: Fields, n: nat): Index {
    if n == 0 then w.index0 else w.index1
  }

  // merge_failed_slot: the file may hold either image, so the index covers both.
  function MergeFailed(index: Index, ids: set<Id>, room: bool): Index {
    if index.Unknown? then Unknown
    else if |index.ids| + |ids| > 2 * SESSION_CAPACITY || !room then Unknown
    else Known(index.ids + ids)
  }

  function NoteSlot(w: Fields, image: Image, ok: bool, room: bool): Fields {
    var n := SlotNumber(image);
    if ok then
      var cleared := if w.repairStarted then w.repairSlots - {n} else w.repairSlots;
      SetIndex(w, n, Known(image.ids)).(repairSlots := cleared, phase := WaitCallback)
    else
      SetIndex(w, n, MergeFailed(IndexOf(w, n), image.ids, room)).(phase := WaitCallback)
  }

  function NoteReset(w: Fields): Fields {
    w.(journalBytes := 0, bad := false, poisoned := false, repairStarted := false)
  }

  function NoteRecovered(w: Fields, bytes: nat): Fields {
    w.(journalBytes := bytes, poisoned := false)
  }

  // force_replace is 0 on the POSIX branch.
  predicate CompactBlocked(w: Fields) {
    || w.compacting || w.bad || w.repairStarted || w.poisoned || UnknownSlots(w)
    || w.phase == Building || w.phase == Queued || w.phase == Writing
  }

  function StartCompact(w: Fields): Fields {
    if CompactBlocked(w) then w else w.(compacting := true)
  }

  function IndexIds(index: Index): set<Id> {
    if index.Known? then index.ids else {}
  }

  // The ids a compaction keeps: both slots' and every unsettled consumption's.
  function Retained(w: Fields): set<Id> {
    IndexIds(w.index0) + IndexIds(w.index1) + ToSet(w.pending)
  }

  function EndCompact(w: Fields, ok: bool, bytes: nat): Fields {
    if ok then w.(journalBytes := bytes, poisoned := false, compacting := false)
    else w.(compacting := false)
  }

  function PostDone(w: Fields, job: Done): Fields {
    w.(done := w.done + [job],
       pending := if job.ConsumeDone? then w.pending + [job.id] else w.pending)
  }

  function TakeDone(w: Fields): Fields {
    w.(done := [])
  }

  function RemoveFirst(s: seq<Id>, id: Id): seq<Id> {
    if s == [] then [] else if s[0] == id then s[1..] else [s[0]] + RemoveFirst(s[1..], id)
  }

  function Unlink(w: Fields, job: Done): Fields {
    if job.ConsumeDone? then w.(pending := RemoveFirst(w.pending, job.id)) else w
  }

  /** The `writer` struct. Every method is one critical section. */
  class DiskWriter {
    var consumeQueue: seq<Id>
    var snapshotBox: Option<Image>
    var maintenance: bool
    var done: seq<Done>
    var pending: seq<Id>
    var poisoned: bool
    var bad: bool
    var repairStarted: bool
    var compacting: bool
    var phase: Phase
    var repairSlots: set<nat>
    var index0: Index
    var index1: Index
    var journalBytes: nat

    function View(): Fields
      reads this
    {
      Fields(consumeQueue, snapshotBox, maintenance, done, pending, poisoned, bad,
             repairStarted, compacting, phase, repairSlots, index0, index1, journalBytes)
    }

    /** ankah_disk_start: what was read from the two slots and the journal. */
    constructor (first: Index, second: Index, scanned: Option<nat>)
      ensures View() == Fields([], None, false, [], [], scanned.None?, scanned.None?, false, false,
                               Resting, {}, first, second, if scanned.Some? then scanned.value else 0)
    {
      consumeQueue, snapshotBox, maintenance, done, pending := [], None, false, [], [];
      poisoned, bad, repairStarted, compacting := scanned.None?, scanned.None?, false, false;
      phase, repairSlots, index0, index1 := Resting, {}, first, second;
      journalBytes := if scanned.Some? then scanned.value else 0;
    }

    /** ankah_disk_session_capture_begin */
    method CaptureBegin() returns (result: int)
      modifies this
      ensures View() == BeginCapture(old(View())) && (result == 0 <==> CanCapture(old(View())))
    {
      result := -1;
      if !compacting && phase == Resting {
        phase := Building;
        result := 0;
      }
    }

    /** ankah_disk_session_capture_cancel */
    method CaptureCancel()
      modifies this
      ensures View() == CancelCapture(old(View()))
    {
      if phase == Building { phase := Resting; }
    }

    /** ankah_disk_session_result_done */
    method SessionResultDone()
      modifies this
      ensures View() == ResultDone(old(View()))
    {
      if phase == WaitCallback { phase := Resting; }
    }

    /** ankah_disk_session_repair_begin */
    method RepairBegin() returns (result: int)
      modifies this
      ensures View() == BeginRepair(old(View())) && (result == 0 <==> CanRepair(old(View())))
    {
      result := -1;
      if bad && !repairStarted && phase == Resting {
        repairStarted, repairSlots := true, {0, 1};
        result := 0;
      }
    }

    /** ankah_disk_snapshot for session images */
    method Snapshot(image: Image) returns (result: int)
      modifies this
      ensures View() == QueueSnapshot(old(View()), image)
      ensures result == 0 <==> CanQueueSnapshot(old(View()))
    {
      if phase != Building || snapshotBox.Some? { return -1; }
      snapshotBox, phase := Some(image), Queued;
      result := 0;
    }

    /** ankah_disk_consume */
    method Consume(id: Id) returns (result: int)
      modifies this
      ensures View() == QueueConsume(old(View()), id) && (result == 0 <==> CanConsume(old(View())))
    {
      if |consumeQueue| >= QUEUE_LIMIT { return -1; }
      consumeQueue := consumeQueue + [id];
      result := 0;
    }

    /** ankah_disk_maintain */
    method Maintain() returns (result: int)
      modifies this
      ensures View() == QueueMaintenance(old(View())) && (result == 0 <==> !old(maintenance))
    {
      if maintenance { return -1; }
      maintenance := true;
      result := 0;
    }

    /** The choice at the head of writer_thread's loop. */
    method Choose() returns (task: Task)
      modifies this
      ensures (task, View()) == NextTask(old(View()))
      ensures task.MaintainTask? <==> old(maintenance)
      ensures task.SnapshotTask? <==>
        && !old(maintenance) && old(snapshotBox).Some?
        && (|| old(consumeQueue) == [] || old(journalBytes) >= JOURNAL_REFRESH || old(repairStarted) || old(bad)
            || old(poisoned) || old(index0).Unknown? || old(index1).Unknown?)
      ensures task.NoTask? <==> !old(maintenance) && old(snapshotBox).None? && old(consumeQueue) == []
      ensures task.ConsumeTask? ==> [task.id] + consumeQueue == old(consumeQueue)
    {
      if maintenance {
        task, maintenance := MaintainTask, false;
      } else if snapshotBox.Some? && SnapshotFirst(View()) {
        task := SnapshotTask(snapshotBox.value);
        snapshotBox, phase := None, Writing;
      } else if consumeQueue != [] {
        task, consumeQueue := ConsumeTask(consumeQueue[0]), consumeQueue[1..];
      } else {
        task := NoTask;
      }
    }

    /** The critical sections after an append, lines 684-699. */
    method AfterAppend(result: int, scanned: Option<nat>)
      modifies this
      ensures View() == NoteAppend(old(View()), result, scanned)
    {
      if result == 0 {
        journalBytes := journalBytes + 33;
      } else if result == -2 {
        bad, poisoned := true, true;
      } else if scanned.None? {
        bad, poisoned := true, true;
      } else {
        journalBytes := scanned.value;
      }
    }

    /** The critical section of write_session_snapshot, with merge_failed_slot. */
    method AfterSnapshot(image: Image, ok: bool, room: bool)
      modifies this
      ensures View() == NoteSlot(old(View()), image, ok, room)
      ensures var n := image.generation % 2; var was := IndexOf(old(View()), n);
        && (ok ==> IndexOf(View(), n) == Known(image.ids))
        && (!ok && was.Known? && |was.ids| + |image.ids| <= 2 * SESSION_CAPACITY && room ==>
              IndexOf(View(), n) == Known(was.ids + image.ids))
        && IndexOf(View(), 1 - n) == IndexOf(old(View()), 1 - n)
    {
      var number := image.generation % 2;
      if ok {
        if number == 0 { index0 := Known(image.ids); } else { index1 := Known(image.ids); }
        if repairStarted { repairSlots := repairSlots - {number}; }
      } else {
        var slot := if number == 0 then index0 else index1;
        if slot.Known? {
          if |slot.ids| + |image.ids| > 2 * SESSION_CAPACITY || !room {
            slot := Unknown;
          } else {
            slot := Known(slot.ids + image.ids);
          }
        }
        if number == 0 { index0 := slot; } else { index1 := slot; }
      }
      phase := WaitCallback;
    }

    /** The gate of compact_journal. */
    method CompactStart() returns (started: bool)
      modifies this
      ensures View() == StartCompact(old(View())) && (started <==> !CompactBlocked(old(View())))
    {
      if compacting || bad || repairStarted || poisoned || index0.Unknown? || index1.Unknown?
         || phase == Building || phase == Queued || phase == Writing {
        return false;
      }
      compacting := true;
      started := true;
    }

    /** The last critical section of compact_journal. */
    method CompactFinish(ok: bool, bytes: nat)
      modifies this
      ensures View() == EndCompact(old(View()), ok, bytes)
    {
      if ok { journalBytes, poisoned := bytes, false; }
      compacting := false;
    }

    /** The end of the worker's loop: link the result for the main loop, and keep a
        consumption's id listed until the main loop has settled it. */
    method Complete(job: Done)
      modifies this
      ensures View() == PostDone(old(View()), job)
    {
      if job.ConsumeDone? { pending := pending + [job.id]; }
      done := done + [job];
    }

    /** The first critical section of on_async. */
    method CollectDone() returns (batch: seq<Done>)
      modifies this
      ensures View() == TakeDone(old(View())) && batch == old(done)
    {
      batch, done := done, [];
    }

    /** The unlinking at the end of on_async's loop. */
    method Forget(job: Done)
      modifies this
      ensures View() == Unlink(old(View()), job)
    {
      if job.ConsumeDone? { pending := RemoveFirst(pending, job.id); }
    }
  }
}
