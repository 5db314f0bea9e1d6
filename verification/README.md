# Ankah: a model of its state machines and codecs

Ankah is a gateway in C that terminates TLS, asks unknown clients for a proof of work, and forwards their requests
upstream. Under its input and output sit small state machines, codecs and tables. This project restates them in Dafny
and proves what the program relies on.

1. **One-time POST consumption.** A blocked POST is saved in a session and captured into one of two snapshot slots.
   When it is replayed, its 33-byte record is appended to a journal first. `Protocol` is the transition system of the
   main loop, the writer thread and the disk: every critical section of the writer is one step, an append or a replace
   may fail and leave either file, an unsynced rename may survive or not, the process may crash or power may be lost
   between any two steps, and recovery may find any of its files unreadable. `Safety` proves the theorems over all
   runs, from any initial disk whose slot images name no id twice. `Journal` holds the byte formats and the loops over
   them, `Ids` the sorting, and `Writer` the class whose methods are the critical sections. `Recovery` ties the
   protocol to the session table: the id set of a captured image, and the saved map after a restart from the newest
   readable file. `Durability` proves that no crash goes back behind a synced snapshot, and `Progress` what the writer
   can always do: leave each phase, record, compact, and repair a bad journal.
2. **Statistics history.** `History` keeps the two rings, the evicted summary and the totals, and proves them equal to
   what a plain log of hours stands for (`Reflect`). On it rest the export (`Csv`, and `CsvContents` row by row), the
   snapshot codec (`Codec`), the restart (`StatsFile`) and the class that is updated in place (`Stats`, over `Ring`).
3. **Session table and snapshot encoder.** `Sessions` specifies the operations, `SessionSafety` their accounting, pins
   and caps over runs, `SessionContents` that a pinned payload never changes, `SessionImage` and `SessionRecords` the
   format and what fits it, `SessionSnapshot` the resumable encoder, `SessionRecovery` the way out and back,
   `SessionScan` what find and expire do session by session, `SessionAnswers` exactly when a session is admitted or
   accepted and a POST reserved or handed over, `SessionNames` that ids stay distinct, `SessionRestart`
   what any accepted image and any journal leave in the table of a new process, and `SessionTable` the classes that
   update the table and the cursors in place.
4. **Stream codecs.** `Chunked` is the incremental decoder, `ChunkGrammar` the grammar of section 7.1 of RFC 9112 it
   accepts, `Upload` and `UploadQueue` the encoder and its queue, `Link` the framing between peers.
5. **Admission and limits.** `Admission` counts connection classes, and `AdmissionLog` is the plain history of requests
   that they stand for. `Rate` is the pair of token buckets (with tokens as reals), and `RateLedger` the lists of
   admission times that decide the same. `Trackers`, `Dots` and `Abuse` are the bounded sliding-window trackers and the
   unbounded logs they refine.
6. **Fast forms.** `StaticIndex` is the open-addressing index, `Sha256`, `PowBits` and `Pow` the browser's one-block
   hash and search against SHA-256 (FIPS 180-4) and the server's check, `Decimals` the decimal text both use,
   `Authorities` and `Hosts` the reading of an authority and the choice of a route.

`Bytes`, `LittleEndian`, `Options` and `Records` are shared vocabulary.

Code that changes state is a class or an in-place method whose contract equates the new state with a specification
function; the properties are lemmas about those functions.

## What the driver has to do

The consumption theorems assume of the main loop in `src/main.c` only the guards of `Protocol.Enabled`:

- a new POST has an id that is not saved and was not spent, and a new session an id that no active session has (ids
  are random);
- a settled consumption with result 0 takes or cancels the saved POST, any other result unreserves it
  (`src/main.c:4563-4649`);
- a snapshot is begun only after `ankah_disk_session_capture_begin` succeeded, and the result of a snapshot is
  acknowledged with `ankah_disk_session_result_done` in its callback;
- repair discards every saved POST in the same turn in which it calls `ankah_disk_session_repair_begin`
  (`src/main.c:6519-6524`). No assumption about unsettled consumptions is needed beyond that.

## Where the code and its promise differ

- `h2_enqueue_upload`, taken as a function, writes an empty payload as the zero-length chunk that ends the body. An
  upload is read back as sent exactly when no payload was empty (`Upload.UploadAccepted`,
  `UploadQueue.UploadDelivered`, with the input in `Upload.EmptyPayloadEndsBody`). Whether nghttp2 ever hands over an
  empty DATA payload is not shown by the repository.
- `valid_image` accepts two records with one id, and the journal replay releases only the first living session that
  `ankah_session_find` meets. So a POST that the journal names comes back when an earlier living record has its id
  (`SessionRestart.DuplicateComesBack` is the input). The exact condition is that no unexpired POST record has an
  earlier living namesake (`SessionRestart.JournalIsObeyed`); every image the program writes meets it, because active
  sessions have distinct ids (`SessionNames.ReachableIdentified`, `Recovery.CapturedRestored`).
- `chunk_token` accepts NUL in a trailer name, since `strchr` finds the terminator. An accepted name is a token of
  RFC 9110 exactly when it holds no NUL (`Chunked.TrailerNameToken`, with the input in `Chunked.NulNameAccepted`).

## Model

| member | source | states |
|---|---|---|
| Ids.SortIds | src/disk_writer.c:170-180 | the kept prefix is strictly increasing and holds exactly the ids that were there |
| Ids.Search | src/disk_writer.c:365-368 | binary search over such a prefix finds an id exactly when it is there |
| Journal.ScanJournal | src/disk_writer.c:265-290 | accepts exactly the files made of whole lowercase-hex records, and counts their bytes |
| Journal.NextLine | src/session.c:626-638 | the next line that fgets reads is good exactly when the next 33 bytes are a record; after a bad one the file is not whole |
| SessionTable.Store.ReplayJournal | src/session.c:618-649 | the line reader finds and releases the session of each good line, and a bad line or a read error costs every saved POST; it reports exactly the files the writer's scan rejects |
| Journal.AppendConsumption | src/disk_writer.c:444-500 | against any answers of write, fsync and close: 0 means the whole record is there and synced, -1 that none of it or all of it is, -2 that any part may be |
| Journal.AppendedIds | src/disk_writer.c:444-500 | a completed append adds exactly its id to the journaled ids |
| Journal.TornRejected | src/disk_writer.c:274-290 | a journal with part of a record is rejected by both readers |
| Journal.MarkSeen | src/disk_writer.c:349-380 | the read loop marks exactly the retained ids the journal names, or finds the journal bad |
| Journal.WriteMarked | src/disk_writer.c:389-395 | the write loop emits the marked ids in order, one record each |
| Journal.CompactBytes | src/disk_writer.c:326-395 | the new journal names exactly the journaled ids that a slot or a pending consumption still needs |
| Journal.CompactedLength | src/disk_writer.c:381-386 | a compacted journal is never longer, and one of equal length lost no id, so leaving the file alone is right |
| Writer.DiskWriter.constructor | src/disk_writer.c:758-794 | the writer's state after start, for any outcome of reading the slots and the journal |
| Writer.DiskWriter.Snapshot | src/disk_writer.c:796-823 | a session image is queued only in the building phase and moves the phase on |
| Writer.DiskWriter.CaptureBegin | src/disk_writer.c:825-836 | a capture starts exactly when the session phase is resting |
| Writer.DiskWriter.CaptureCancel | src/disk_writer.c:838-844 | cancelling returns a building capture to rest and touches nothing else |
| Writer.DiskWriter.SessionResultDone | src/disk_writer.c:846-852 | the phase returns to rest once the callback ran |
| Writer.DiskWriter.RepairBegin | src/disk_writer.c:867-879 | repair starts exactly for a bad journal at rest, and then wants both slots rewritten |
| Writer.DiskWriter.Maintain | src/disk_writer.c:881-897 | one maintenance task is queued at a time |
| Writer.DiskWriter.Consume | src/disk_writer.c:899-919 | a consumption is queued exactly when fewer than 4096 wait |
| Writer.DiskWriter.Choose | src/disk_writer.c:630-668 | maintenance first, then a snapshot that is urgent or alone, then consumptions in order |
| Writer.DiskWriter.AfterAppend | src/disk_writer.c:684-699 | the bookkeeping after an append, for each result and rescan |
| Writer.DiskWriter.AfterSnapshot | src/disk_writer.c:612-621 | a written slot's index becomes exactly its ids, a failed one covers both images or is forgotten, the other stays |
| Writer.DiskWriter.CompactStart | src/disk_writer.c:310-320 | compaction starts exactly when no guard forbids it |
| Writer.DiskWriter.CompactFinish | src/disk_writer.c:404-412 | only a completed compaction updates the byte count and clears the poison |
| Writer.DiskWriter.Complete | src/disk_writer.c:708-723 | a result is linked for the main loop and a consumption stays listed as pending |
| Writer.DiskWriter.CollectDone | src/disk_writer.c:728-735 | the main loop takes all results, in order |
| Writer.DiskWriter.Forget | src/disk_writer.c:736-756 | a settled consumption leaves the pending list |
| Safety.StepKeeps | src/disk_writer.c:303-756 | no step of main loop, writer, failure, crash or recovery breaks the invariant |
| Safety.NeverRestored | src/session.c:591-652 | in every reachable state, a spent id is in the id set recovered from no directory state that a crash or power loss may leave, whatever can be read; Recovery.RestartRefines ties that set to the table |
| Safety.AcknowledgedIsSpent | src/disk_writer.c:728-756 | every success reported to the main loop is a spent id |
| Safety.ForwardedOnce | src/main.c:4563-4649 | no POST is forwarded twice in a run, crashes included |
| Safety.UnsettledStaysListed | src/disk_writer.c:708-716 | every completed consumption that the main loop has not settled is listed for compaction or about to be, and so is every spent POST still in memory |
| Safety.CompactionInvisible | src/disk_writer.c:303-417 | each slot recovers the same ids before and after a compaction, even if the replace failed ambiguously; every completed but unsettled consumption that was journaled stays journaled; and every spent POST still in memory is journaled |
| Safety.IndexesCoverSlots | src/disk_writer.c:601-625 | each slot index is unknown or holds all ids really in the file |
| Safety.BytesAreTrue | src/disk_writer.c:404-411 | while neither bad nor poisoned, the byte count is the file's length |
| Safety.JournalStaysWithin | src/disk_writer.c:676-683 | a journal within its limit stays within it for the rest of any run |
| Safety.AnyPostCanBeForwarded | src/main.c:4563-4649 | any POST can be saved, consumed and forwarded, so the theorems are not about an idle machine |
| Durability.SnapshotLasts | src/disk_writer.c:601-625 | once a slot was replaced and synced, every directory state that a later crash may leave has a slot at least as new, and no process that could read its slots is at an older generation |
| Progress.PhaseOwned | src/disk_writer.c:796-852 | no snapshot phase is stuck: a queued image is in its box, a written one with the worker, and a result that waits for its callback is underway exactly once, and settling it ends the phase |
| Progress.RepairCompletes | src/disk_writer.c:584-621 | a bad journal can be repaired from any reachable state at rest: both slots are replaced, the journal is emptied and takes records again |
| Progress.ConsumptionSucceeds | src/disk_writer.c:670-723 | while the journal is usable and below its limit, the next queued consumption can be recorded and its success reported |
| Progress.CompactionCompletes | src/disk_writer.c:303-417 | at rest with a usable journal and known slots, maintenance can leave exactly the journaled ids that slots or pending results need |
| Records.MergeInto | src/stats.c:92-99 | the merge loop adds sum fields modulo 2^64 and takes the larger of maximum fields |
| Ring.StatRing.Push | src/stats.c:102-112 | a full ring gives up exactly its oldest row |
| Ring.StatRing.Age | src/stats.c:114-117 | age 0 is the newest row, and only stored ages answer |
| History.HistoryReflects | src/stats.c:127-178 | after any operations on any clock, rings, evicted summary and totals are what the log of hours stands for |
| History.RollReflects | src/stats.c:155-178 | rolling adds exactly the elapsed empty hours, across any gap, and nothing for a backward clock |
| History.AddReflects | src/stats.c:141-146 | an addition is an addition to the current hour of the log |
| History.RaiseReflects | src/stats.c:148-153 | a maximum is a maximum in the current hour of the log |
| Csv.CutoffFits | src/stats.c:600-613 | the cutoff between day rows and hour rows is a day boundary the day rows reach, or the epoch's hour |
| Csv.CsvTiles | src/stats.c:582-626 | the rows tile the time from the epoch to the later of clock and current hour, with no gap or overlap |
| Csv.CsvConserves | src/stats.c:582-626 | sum or maximum over all rows is the cumulative record |
| Csv.AnyExport | src/stats.c:582-626 | both, for every history and every clock |
| CsvContents.AnyDetail | src/stats.c:596-626 | for every history and clock, exactly these rows: each hour still held but those of the completed day that the oldest held hour cuts, each day still held that began before that hour, one row for all earlier days, and the current hour |
| CsvContents.HourKept | src/stats.c:600-621 | an hour still held has its own row with its own record, or else the row of its day, exactly when the oldest held hour cuts that day |
| Codec.RoundTrip | src/stats.c:280-369 | a valid history survives encoding and decoding |
| Codec.ReflectValid | src/stats.c:246-278 | every reachable history passes the decoder's consistency check |
| Codec.AnySnapshotRestores | src/stats.c:280-369 | every snapshot of any history is accepted and brings back the same rings and totals |
| StatsFile.PutInt | src/stats.c:197-211 | the byte loop writes the little-endian form |
| StatsFile.GetInt | src/stats.c:213-225 | the byte loop reads it back |
| StatsFile.CheckTotals | src/stats.c:246-278 | the validity check accepts exactly consistent counts and totals |
| StatsFile.DecodedFits | src/stats.c:280-330 | an accepted snapshot fits both rings and passes the consistency check |
| StatsFile.RestartContinues | src/stats.c:371-408 | restoring the newer of two snapshots continues the history as if the process had not stopped |
| Stats.StatState.Disable | src/stats.c:137-139 | disabling keeps the history as it is |
| Stats.StatState.Add | src/stats.c:141-146 | in place, the specified addition |
| Stats.StatState.Max | src/stats.c:148-153 | in place, the specified maximum |
| Stats.StatState.PushDay | src/stats.c:119-125 | a displaced day is merged into the evicted summary |
| Stats.StatState.Roll | src/stats.c:155-178 | the hour and day loops perform the specified roll |
| Stats.StatState.WriteCsv | src/stats.c:582-626 | the loops over ages emit exactly the specified rows |
| Stats.StatState.EncodeSnapshot | src/stats.c:332-369 | the writer over both rings, oldest first, emits the specified image |
| Stats.StatState.Restore | src/stats.c:371-408 | adopts the newer decoded slot and rolls, or starts afresh |
| SessionSafety.StepKeeps | src/session.c:26-277 | every operation of the table keeps accounting and pins, and the caps, or the wider bounds a restore left |
| SessionSafety.AccountingHolds | src/session.c:153-228 | in every reachable table the pending bytes are the saved bodies and requests, within 64 MiB, and the unsolved unproved sessions stay within 3072 and 64 per address |
| SessionSafety.FreedExactlyWhenReleased | src/session.c:26-58 | a payload exists exactly while its owner or an outside holder has it |
| SessionContents.StepContent | src/session.c:230-277 | no operation changes or frees a payload that a snapshot or a taker holds |
| SessionImage.RecordRoundTrip | src/session.c:296-316 | a fixed-size session record is read back as written |
| SessionImage.WrittenAccepted | src/session.c:463-506 | whatever a table can write passes the image check, item for item |
| SessionRecords.StepRecordable | src/session.c:111-228 | every reachable session fits its record |
| SessionSnapshot.DriveCopies | src/session.c:396-436 | one step moves exactly the budget, or what is left, from the front of what is left |
| SessionSnapshot.MoveKeeps | src/session.c:396-436 | steps and table operations in any order keep the captured image |
| SessionRecovery.BeginWorks | src/session.c:328-394 | a snapshot of a reachable table fits and pins its payloads |
| SessionRecovery.SnapshotIsCaptured | src/session.c:328-461 | for any budgets and any operations between steps, a finished snapshot is byte for byte the image at its begin, of its declared size, and is accepted |
| SessionRecovery.LoadPlaces | src/session.c:537-589 | loading puts every unexpired record and payload in its place and nothing elsewhere |
| SessionRecovery.LoadAccounts | src/session.c:537-589 | loading leaves accounting and pins exact |
| SessionRecovery.CapturedComesBack | src/session.c:463-589 | each captured session that has not expired comes back with its body and request |
| SessionRecovery.ReachableCaptures | src/session.c:328-394 | every reachable table can be captured |
| SessionScan.FindIs | src/session.c:84-104 | find meets the first living session with the id and expires exactly the sessions up to it |
| SessionNames.StepIdentified | src/session.c:111-228 | every operation keeps the ids of active sessions distinct and of 32 hex digits, if drawn ids are new |
| SessionNames.ReachableIdentified | src/session.c:185-198 | so they are in every reachable table |
| SessionAnswers.TakeExactly | src/session.c:253-277 | a POST is handed over exactly when the session is active, solved and in time, its body complete and the token right; then the caller holds it and nobody can take it again, and otherwise nothing changes |
| SessionAnswers.ReserveExactly | src/session.c:64-75 | the same for a reservation, once at a time, and what was reserved can be taken |
| SessionAnswers.TakenOnce | src/session.c:253-277 | in every run, a payload that was handed over is in no session as long as the taker holds it |
| SessionAnswers.ExpireExactly | src/session.c:84-93 | which sessions and which POSTs expiry ends, and that the rest stays as it was |
| SessionAnswers.SolveExactly | src/session.c:245-256 | solvable exactly within five minutes of the issue; then the session lives thirty minutes and its POST five |
| SessionAnswers.NewWhen | src/session.c:153-184 | a session is admitted exactly when the request is acceptable, a place is free or expired, and both caps leave room among the living sessions |
| SessionAnswers.NewPlaces | src/session.c:169-228 | it gets the first such place, as request and draws say, and the others only age |
| SessionAnswers.AcceptExactly | src/session.c:111-151 | a solved id is accepted exactly when the arguments are good and its living session has this host, or there is none and a place is free or expired; and what that session then is |
| SessionAnswers.ReceivedExactly | src/session.c:230-243 | a body that comes in any pieces is refused exactly when it is too long, and else is their concatenation, complete exactly when none are missing |
| SessionRestart.AcceptedImageLoads | src/session.c:463-589 | whatever image is accepted, of either version, loading it leaves accounting, pins and shapes exact |
| SessionRestart.ReplayExact | src/session.c:618-649 | over any table, a session keeps its POST exactly when it held one, the journal was whole, and it is not both named there and the first living session with its id |
| SessionRestart.ReplayKeeps | src/session.c:618-649 | the replay keeps accounting and pins exact, and the content of what it keeps |
| SessionRestart.RestoredPosts | src/session.c:591-652 | for any image and journal, which records' POSTs come back |
| SessionRestart.JournalIsObeyed | src/session.c:463-506 | every journal keeps out every POST it names if and only if no unexpired POST record has an earlier living namesake |
| SessionRestart.DuplicateComesBack | src/session.c:639-640 | two records with one id are accepted, and the second POST comes back although it is journaled |
| SessionRestart.RestoredKeeps | src/session.c:591-652 | whatever is accepted and journaled, the new process starts with exact accounting and pins |
| SessionRestart.AfterRestart | src/session.c:591-652 | in every run after a restart from any accepted image and any journal, the accounting is exact and payloads are freed exactly when released |
| Recovery.CaptureIds | src/session.c:507-530 | the ids a captured image names are the complete saved POSTs, the set the protocol puts into its image |
| Recovery.RestoredIsRecovered | src/session.c:591-652 | the POSTs in the restored table are the ids of the image without the journaled and the expired ones |
| Recovery.CaptureExactly | src/session.c:338-367 | a snapshot captures every living session, with or without a POST, except those whose POST is not complete, and nothing else |
| Recovery.RestoresNewest | src/session.c:591-616 | no readable slot is newer than the generation a restart goes on from, and the saved POSTs are those of the newest readable slot, the first on a tie, without the journaled and the expired ones |
| Recovery.RestartRefines | src/session.c:591-652 | the table restored from the newest valid file holds exactly the saved map with which the protocol restarts, and the generations agree |
| Recovery.RestoredSingle | src/session.c:537-589 | after any restart every saved POST has one session |
| Recovery.CapturedRestored | src/session.c:328-652 | from capture through encoder, validation, loading and replay: a session holds its POST again exactly when it held one, it has not expired, and the journal is whole and does not name it |
| Recovery.RestartKeeps | src/session.c:591-652 | a restart from a finished snapshot, replay included, keeps all that runs and snapshots rely on |
| SessionTable.Store.ReleasePost | src/session.c:46-58 | in place, the specified release |
| SessionTable.Store.DiscardSession | src/session.c:77-82 | in place, the specified discard |
| SessionTable.Store.ExpireSession | src/session.c:84-93 | in place, the specified expiry |
| SessionTable.Store.Find | src/session.c:95-104 | the scan expires what it passes and finds the specified session |
| SessionTable.Store.Accept | src/session.c:111-151 | both scans and the refill of a solved session |
| SessionTable.Store.DiscardSavedPosts | src/session.c:532-535 | in place, every saved POST is released |
| SessionTable.Store.LoadImage | src/session.c:537-589 | the loop over the records fills the table as specified |
| SessionTable.Store.Restore | src/session.c:591-652 | from what came of reading both files, the newest valid one is loaded and the journal replayed; the result is -2 exactly for a bad journal, else -1 exactly if a file was there and unusable |
| SessionTable.Store.CountUnsolved | src/session.c:174-184 | one loop counts both caps |
| SessionTable.Store.NewSession | src/session.c:153-228 | in place, the specified admission of a new session |
| SessionTable.Store.AppendBody | src/session.c:236-243 | in place, the specified append |
| SessionTable.Store.SolveSession | src/session.c:245-251 | in place, the specified solution |
| SessionTable.Store.ReservePost | src/session.c:64-71 | in place, the specified reservation |
| SessionTable.Store.UnreservePost | src/session.c:73-75 | in place, the reservation is dropped |
| SessionTable.Store.TakePost | src/session.c:258-277 | in place, the specified hand-over, and the payload returned is the one the session held |
| SessionTable.Encoder.Step | src/session.c:396-438 | in place, the specified step |
| Chunked.ParseChunkSize | src/http.c:250-274 | one pass with the overflow test yields the specified size of a size line |
| Chunked.ParseChunkTrailer | src/http.c:276-292 | accepts exactly the specified trailer lines |
| Chunked.TrailerNameToken | src/http.c:230-235 | an accepted trailer name is a token exactly when it holds no NUL |
| Chunked.NulNameAccepted | src/http.c:230-235 | a trailer with a NUL in its name that is accepted |
| Chunked.SplitIndependent | src/http.c:299-357 | verdict, limit flag and total do not depend on how the input is split |
| Chunked.ChunkedBody.Consume | src/http.c:299-357 | the loop, taking data in bulk, computes the byte machine's run |
| ChunkGrammar.Grammar | src/http.c:299-357 | the decoder accepts exactly the written forms of proper messages within the limit, with their total |
| ChunkGrammar.PiecesGrammar | src/http.c:299-357 | the same for input in pieces |
| Upload.UploadAccepted | src/frontend.c:1776-1806 | an ended upload is accepted with its whole length exactly when no payload was empty |
| Upload.EmptyPayloadEndsBody | src/frontend.c:1782-1802 | one empty payload already completes the body, and the end of the upload is refused |
| Upload.SizeLine | src/frontend.c:1782-1786 | the hexadecimal size line is read back as its size |
| UploadQueue.StepKeeps | src/frontend.c:1498-1620 | no event of the queue breaks its accounting |
| UploadQueue.CounterIsSum | src/h2_flow_policy.h:37-39 | the global counter is the sum of queued and in-flight bytes of counted streams, within both limits |
| UploadQueue.UploadDelivered | src/frontend.c:1536-1620 | what went upstream is the encoded upload, and the credit paid back is the number of payload bytes |
| UploadQueue.Drains | src/frontend.c:1536-1620 | while writes succeed a queue drains: every waiting piece is sent in order, its credit paid back, and the counter comes down by what was sent |
| UploadQueue.H2Stream.DiscardRequest | src/frontend.c:1498-1510 | in place, the specified discard |
| UploadQueue.H2Stream.RequestFailure | src/frontend.c:1521-1534 | in place, the specified stop, and nothing while the connection is closing |
| UploadQueue.H2Stream.WriteRequest | src/frontend.c:1568-1620 | in place, the specified write |
| UploadQueue.H2Stream.OnRequestWrite | src/frontend.c:1536-1566 | in place, the specified completion |
| UploadQueue.H2Stream.EnqueueUpload | src/frontend.c:1776-1806 | in place, the specified enqueue, with its refusals |
| Link.U32RoundTrip | src/link.c:186-196 | the length prefix is read back as written |
| Link.PrefixExtract | src/link.c:198-224 | from any prefix of a message stream come exactly its whole messages, and the rest waits |
| Link.LinkDelivers | src/link.c:198-263 | for any partial writes and read splits the receiver gets the sent messages in order, the counter is the unsent bytes, and the buffer limit is never met |
| Link.Connection.Send | src/link.c:480-501 | a message is queued whole or not at all |
| Link.Connection.WriteFrames | src/link.c:246-263 | the loop writes a prefix of the unsent bytes and counts it |
| Link.Connection.AppendPlain | src/link.c:198-224 | the loop hands out exactly the whole messages and keeps the rest |
| Admission.CountersExact | src/frontend.c:544-581 | in every reachable state both counters are exact and within 32 and 192 |
| Admission.AnonymousWhen | src/frontend.c:1994-2002 | an HTTP/2 connection is anonymous exactly when it has a live anonymous stream or its latest admitted request was anonymous |
| AdmissionLog.GateRefines | src/frontend.c:918-930 | in every run the connections are those accepted and not freed, each in the class that its admitted requests and open streams stand for (over HTTP/1 the first request), and both counters count the classes |
| AdmissionLog.FirstRequestDecides | src/frontend.c:918-928 | an HTTP/1 connection that has left the pending class never changes its class again |
| Admission.Gate.AcceptConnection | src/frontend.c:2288-2314 | a connection is accepted exactly below both limits, as pending |
| Admission.Gate.SendH1Header | src/frontend.c:918-930 | the class change of an HTTP/1 request, and its one refusal |
| Admission.Gate.OnRequestHeaders | src/frontend.c:1875-1902 | the class change of an HTTP/2 request, and its one refusal |
| Admission.Gate.OnStreamClose | src/frontend.c:1994-2002 | the class change when a stream ends |
| Admission.Gate.Forget | src/frontend.c:576-579 | a freed connection leaves its counter |
| Rate.GlobalBound | src/rate.c:5-40 | over any stretch, admissions are at most the global burst plus the refill |
| Rate.ClientBound | src/rate.c:5-40 | from its own request on, a client is admitted at most its burst plus its refill while its bucket is resident |
| Rate.RunBound | src/rate.c:5-40 | the bound for any stretch of any run from an empty limiter |
| Rate.RejectionIsFree | src/rate.c:35-39 | a rejected request of a resident client changes no later answer to resident clients, and at any later time both buckets hold what they would have held |
| Rate.ClientStretch | src/rate.c:5-40 | the client's bound for any stretch, whoever opens it |
| Rate.ClientRunBound | src/rate.c:5-40 | the same for any stretch of any run from an empty limiter |
| Rate.AllowDistinct | src/rate.c:18-30 | addresses stay distinct and the caller's becomes resident |
| RateLedger.LevelExhausted | src/rate.c:13-36 | a bucket lacks a token exactly when one more admission would put more into some stretch than burst and refill allow |
| RateLedger.AnswerIs | src/rate.c:5-40 | in every run the answer is 1 exactly when the client's admissions since its bucket was filled leave no room in some stretch, else 2 exactly when all admissions leave none, else 0 |
| RateLedger.NewcomerAdmitted | src/rate.c:25-39 | a client without a bucket is admitted unless the global limit is exhausted, and the first request of a run always is |
| RateLedger.ResidentUnlessCrowded | src/rate.c:18-30 | a client keeps its bucket until 1024 other addresses have called at or after any of its calls |
| Rate.RateLimit.Scan | src/rate.c:18-24 | the loop finds the address or the bucket to evict |
| Rate.RateLimit.AllowRequest | src/rate.c:5-40 | in place, the specified decision |
| Trackers.ScanFirstEmpty | src/dots_policy.c:11-17 | finds the address, else an empty cell, else the least recently seen |
| Trackers.ScanLastEmpty | src/abuse_policy.c:60-67 | the same, with the other choice among empty cells |
| Trackers.PlacedKeeps | src/abuse_policy.c:62-73 | writing there keeps addresses distinct and every other resident cell |
| Trackers.KeptTwice | src/dots_policy.c:24-28 | filtering what was stored keeps what filtering the whole log would keep |
| Trackers.KeptMeans | src/dots_policy.c:24-28 | the filter keeps as many marks as there are events in the window, and only those |
| Trackers.PushHeld | src/abuse_policy.c:75-94 | pushing onto what is stored of a log is what is stored of the longer log |
| Trackers.PushInPlace | src/dots_policy.c:24-33 | the loop moves the marks down, drops one when full, and appends |
| Dots.HitRefines | src/dots_policy.c:5-37 | one hit fires exactly when the log says so |
| Dots.FiresExactly | src/dots_policy.c:29-33 | the log says so when its requests of the last window and this one reach the threshold |
| Dots.TrackerRefines | src/dots_policy.c:5-37 | over any run the bounded tracker fires exactly when the unbounded logs of resident addresses say so |
| Dots.Tracker.TrackerHit | src/dots_policy.c:5-37 | in place, the specified hit |
| Abuse.CountPaths | src/abuse_policy.c:33-40 | the bitmap's population count is the number of distinct hashes |
| Abuse.RecordRefines | src/abuse_policy.c:51-111 | one event signals exactly when the history says so, with distinct paths and cooldown |
| Abuse.FiresExactly | src/abuse_policy.c:52-110 | the history says so when its events within the kind's time reach the kind's count, for scans on enough paths, a minute after the last signal |
| Abuse.TrackerRefines | src/abuse_policy.c:51-111 | the same over any run with one profile |
| Abuse.Policy.RecordEvent | src/abuse_policy.c:51-111 | in place, the specified record |
| StaticIndex.MissMeansAbsent | src/static.c:254-265 | a probe that meets an empty slot has seen every entry with that URL |
| StaticIndex.InsertKeeps | src/static.c:228-240 | an insertion keeps every earlier entry reachable |
| StaticIndex.SlotCount | src/static.c:228-229 | the table is a power of two and at most half full |
| StaticIndex.Bundle.Build | src/static.c:228-240 | loading succeeds exactly when all URLs are distinct, and then every entry is reachable |
| StaticIndex.Bundle.Find | src/static.c:254-265 | a URL is found exactly when some entry has it, and that entry is returned |
| Sha256.OneBlock | src/browser_pow.c:27-34 | a message of at most 55 bytes is one block, and the digest starts with the first word of its compression |
| Pow.FilledBlock | src/browser_pow.c:36-46 | a block filled like that is the padded message of section 5.1.1 of FIPS 180-4 |
| Pow.FillBlock | src/browser_pow.c:36-46 | the loops build the padded text of nonce, colon and decimal counter |
| Pow.FillWords | src/browser_pow.c:47-57 | the loops compute the message schedule of section 6.2.2 of FIPS 180-4 |
| Pow.FirstWord | src/browser_pow.c:58-73 | the 64 rounds compute the first word of the compression |
| PowBits.WordMeans | src/browser_pow.c:74-74 | shifting that word asks whether the first 8 to 24 bits of the digest are zero |
| PowBits.BytesMean | src/pow.c:162-165 | so does the server's test of bytes, for any number of bits |
| Pow.Passes | src/browser_pow.c:27-76 | the specialised hash answers exactly whether SHA-256 of the text starts with enough zero bits |
| Pow.SearchBatch | src/browser_pow.c:78-86 | returns the smallest passing counter, and -1 exactly when refused or none passes |
| Pow.CheckDifficulty | src/pow.c:153-166 | the server accepts a digest exactly when the difficulty is 8 to 24 and that many bits are zero |
| Decimals.ReadU64 | src/pow.c:39-53 | reads exactly the texts that print a 64-bit number, each as that number |
| Decimals.CanonicalDecimal | src/pow.c:39-53 | a digit text without a superfluous zero is the decimal text of its value |
| Authorities.ReadName | src/host.c:20-35 | the loop accepts exactly host names, lower-cased |
| Authorities.ReadPort | src/host.c:37-47 | the loop accepts exactly decimal numbers from 1 to 65535 |
| Authorities.ReadAuthority | src/host.c:14-49 | accepts exactly the acceptable texts and returns what they mean |
| Authorities.CaseDoesNotMatter | src/host.c:20-35 | authorities that differ in case mean the same |
| Authorities.DefaultPortMayBeOmitted | src/host.c:36-47 | an omitted port means the default port |
| Hosts.UnambiguousPrefixPath | src/host.c:105-119 | one pass finds exactly the paths with escapes, empty segments or dot segments |
| Hosts.FindOwner | src/host.c:165-175 | the first pass finds a most specific matching route, or none exists |
| Hosts.HostRequest | src/host.c:163-189 | both passes answer as the owners of the path decide, and a refusal is final |
| Hosts.ChosenIsMostSpecific | src/host.c:165-187 | an exact owner beats any prefix, and the longest prefix wins |
| Hosts.StatusExactly | src/host.c:176-189 | 413 exactly for a chosen route with too small a limit, 405 only when no owner has the method, and without an owner the local answer or 404 |
| Hosts.OrderDoesNotMatter | src/host.c:163-189 | for routes distinct in path, kind and method, status and route do not depend on the table's order |

## Left out

- Windows branches, `stopping`, the statistics and log tasks of the writer thread, thread priorities and test hooks.
- libuv, TLS, HTTP parsers, QUIC, DNS, dashboards and scripts: only what they hand to this code is modelled, as events.
- File system internals: `ankah_file_replace` and the append are reduced to their outcomes, durable or not.
- Allocation failure where it only returns an error; where it changes state it is a parameter (`room`, `memory`).
- SHA-256 outside the proof of work, FNV hashing and `hash_path`: parameters, without any assumed property.
- HMAC, challenge issuing and the text splitting of `ankah_check_answer`.
- C string layout: texts of a session record are fixed byte fields, a payload's `received` and `size` are kept with it.
- CSV text formatting: a row is its interval and its record.
- The cursor of `decode_snapshot`: decoding is a function of the bytes, the encoder is a loop.
- Kernighan's loop of `path_bits`: the bitmap is an array of flags and the count runs over it.
- Cookie coalescing in `src/http.c`, the manifest parser in `src/static.c` and the header checks that come before the choice of a route in `src/host.c`.
- Per-direction queue budgets of `src/host.c`.
- Writer.DiskWriter.Snapshot: the statistics kind and the stopping flag are not modelled.
- Writer.DiskWriter.Choose: the statistics and log tasks that come after the consumptions are not modelled.
- Stats.StatState.Restore: the result flags and the generation counter for the next save are not modelled.
- Abuse.Policy.RecordEvent: the per-reason counters of signals, which no decision reads, are not kept.
- Link.Connection.AppendPlain: the exit when a callback closes the connection is not modelled.
- Safety.NeverRestored: it speaks of id sets; on images with two records of one id the set and the table differ, as said above.
- SessionRestart.AfterRestart: the change counter that a restore resets to zero is not modelled.
- Rate.RejectionIsFree: a rejected request refreshes its bucket's place among the least recently used, so later evictions may differ.
- Pow.Passes: the second-word test for more than 32 bits, which `search_batch` never asks for, is not modelled.
- Rate.GlobalBound: tokens are real numbers, so rounding of `double` is not modelled.
- RateLedger.AnswerIs: requests have a non-empty address, as every peer has.
- Durability.SnapshotLasts: it speaks of runs whose recoveries can read the slots; a slot that cannot be read may be the newest.
- SessionTable.Store.Restore: running out of memory while loading and a path that does not fit are not modelled.
- Link.LinkDelivers: a callback that closes the link in the middle of a buffer is not modelled.
- SessionTable.Store.NewSession: drawing a random id and token is one parameter, and the session slot of a failed draw stays blank.
- SessionSafety.AccountingHolds: a taker is assumed not to write into a payload it took.
- Abuse.TrackerRefines: the profile is fixed during a run, and the clock is monotone.
