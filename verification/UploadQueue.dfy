/** The queues of HTTP/2 uploads: one list of pieces per stream, at most one write in
    flight, flow-control credit paid back as pieces are written, and one counter of
    everything queued on all counted streams. */
module UploadQueue {
  import opened Bytes
  import opened Chunked
  import opened ChunkGrammar
  import opened Upload

  datatype Piece = Piece(data: Bytes, credit: nat)

  datatype Flight = NoFlight | Head | Flying(piece: Piece)

  // A stream is counted when it declares a length or is bridged to chunked coding.
  // `payloads`, `ended`, `sent` and `paid` record its history: what was queued, the
  // pieces whose write began, and the credit given back.
  datatype Stream = Stream(
    counted: bool, chunked: bool, connected: bool, stopped: bool, closing: bool, head: bool,
    waiting: seq<Piece>, flight: Flight, queued: int,
    payloads: seq<Bytes>, ended: bool, sent: seq<Piece>, paid: nat)

  datatype Limits = Limits(perStream: nat, total: nat)

  // How the attempt to start a write goes.
  datatype Answer = Started | NoMemory | Refused

  function Fresh(counted: bool, chunked: bool): Stream {
    Stream(counted, chunked, false, false, false, false, [], NoFlight, 0, [], false, [], 0)
  }

  // ankah_h2_queue_release
  function Release(total: nat, released: nat): nat {
    total - if released <= total then released else total
  }

  function ReleaseFor(s: Stream, total: nat, released: nat): nat {
    if s.counted then Release(total, released) else total
  }

  // h2_discard_request
  function Discard(total: nat, s: Stream): (nat, Stream)
    decreases |s.waiting|
  {
    if s.waiting == [] then (total, s)
    else
      var wire := |s.waiting[0].data|;
      Discard(ReleaseFor(s, total, wire), s.(waiting := s.waiting[1..], queued := s.queued - wire))
  }

  // A failed write and the end of a stream: stop and discard.
  function Stop(total: nat, s: Stream): (nat, Stream) {
    Discard(total, s.(stopped := true))
  }

  // h2_request_failure: while the connection is closing it does nothing. A stream that HTTP/2
  // has closed is stopped and has nothing waiting, so stopping it again changes nothing.
  function Fail(total: nat, s: Stream): (nat, Stream) {
    if s.closing then (total, s) else Stop(total, s)
  }

  // h2_write_request
  function WriteNext(total: nat, s: Stream, answer: Answer): (nat, Stream) {
    if !s.connected || s.flight != NoFlight || s.stopped then (total, s)
    else if s.head then
      match answer
      case Started => (total, s.(head := false, flight := Head))
      case NoMemory => Fail(total, s)
      case Refused => Fail(total, s.(head := false))
    else if s.waiting == [] then (total, s)
    else
      var first, rest := s.waiting[0], s.(waiting := s.waiting[1..]);
      match answer
      case Started => (total, rest.(flight := Flying(first), sent := s.sent + [first]))
      case NoMemory => Fail(total, s)
      case Refused => var (t, gone) := Drop(total, rest, first); Fail(t, gone)
  }

  // A piece that leaves the queue outside a discard.
  function Drop(total: nat, s: Stream, piece: Piece): (nat, Stream) {
    var wire := |piece.data|;
    (ReleaseFor(s, total, wire), s.(queued := if s.queued >= wire then s.queued - wire else s.queued))
  }

  // The first half of on_h2_request_write: the write has ended.
  function Landed(total: nat, s: Stream, ok: bool): (nat, Stream) {
    match s.flight
    case NoFlight => (total, s)
    case Head => (total, s.(flight := NoFlight))
    case Flying(piece) =>
      var (t, gone) := Drop(total, s.(flight := NoFlight), piece);
      (t, gone.(paid := if ok && s.counted && !s.stopped then s.paid + piece.credit else s.paid))
  }

  // on_h2_request_write
  function Written(total: nat, s: Stream, ok: bool, answer: Answer): (nat, Stream) {
    var (t, landed) := Landed(total, s, ok);
    if !ok && !s.closing && !s.stopped then Stop(t, landed)
    else if !s.closing then WriteNext(t, landed, answer)
    else (t, landed)
  }

  function PieceOf(chunked: bool, payload: Bytes, final: bool): Piece {
    Piece(if chunked then Encoded(payload) else payload, if final then 0 else |payload|)
  }

  predicate HasRoom(total: nat, s: Stream, wire: nat, limits: Limits) {
    s.queued <= limits.perStream && wire <= limits.perStream - s.queued
    && total <= limits.total && wire <= limits.total - total
  }

  function Queued(s: Stream, payload: Bytes, final: bool): Stream {
    var piece := PieceOf(s.chunked, payload, final);
    s.(waiting := s.waiting + [piece], queued := s.queued + |piece.data|,
       payloads := if final then s.payloads else s.payloads + [payload], ended := s.ended || final)
  }

  // h2_enqueue_upload; `room` is whether memory and the shared budget allow the piece.
  function Enqueue(total: nat, s: Stream, payload: Bytes, final: bool, room: bool, answer: Answer, limits: Limits)
    : (nat, Stream)
  {
    var wire := |PieceOf(s.chunked, payload, final).data|;
    if HasRoom(total, s, wire, limits) && room then WriteNext(total + wire, Queued(s, payload, final), answer)
    else (total, s)
  }

  // on_h2_core_connected: the request head is ready, and an uncounted stream's whole
  // body follows it.
  function Connect(total: nat, s: Stream, body: Bytes, answer: Answer): (nat, Stream) {
    var ready := s.(connected := true, head := true);
    WriteNext(total, if !s.counted && body != [] then ready.(waiting := [Piece(body, 0)], queued := |body|) else ready,
              answer)
  }

  // ----- what each stream keeps -----

  function WireBytes(pieces: seq<Piece>): nat {
    if pieces == [] then 0 else |pieces[0].data| + WireBytes(pieces[1..])
  }

  function Credits(pieces: seq<Piece>): nat {
    if pieces == [] then 0 else pieces[0].credit + Credits(pieces[1..])
  }

  function FlightBytes(flight: Flight): nat {
    if flight.Flying? then |flight.piece.data| else 0
  }

  function FlightCredit(flight: Flight): nat {
    if flight.Flying? then flight.piece.credit else 0
  }

  function PiecesOf(chunked: bool, payloads: seq<Bytes>): seq<Piece> {
    if payloads == [] then []
    else PiecesOf(chunked, payloads[..|payloads| - 1]) + [PieceOf(chunked, payloads[|payloads| - 1], false)]
  }

  function AllPieces(s: Stream): seq<Piece> {
    PiecesOf(s.chunked, s.payloads) + if s.ended then [PieceOf(s.chunked, [], true)] else []
  }

  // The bytes of a stream that are queued or being written.
  function Outstanding(s: Stream): nat {
    WireBytes(s.waiting) + FlightBytes(s.flight)
  }

  // The credit a stream may still pay back.
  function Owed(s: Stream): nat {
    Credits(s.waiting) + FlightCredit(s.flight)
  }

  predicate Good(s: Stream) {
    && s.queued == Outstanding(s)
    && (s.stopped ==> s.waiting == [])
    && (s.chunked ==> s.counted)
    && (!s.connected ==> s.flight == NoFlight && (!s.counted ==> s.waiting == []))
  }

  // While a counted stream is neither stopped nor closing, every piece is sent or waiting, in order,
  // and every payload byte is paid back or owed.
  predicate Faithful(s: Stream) {
    s.counted ==>
      && s.paid + Owed(s) <= TotalSize(s.payloads)
      && (!s.stopped && !s.closing ==> s.sent + s.waiting == AllPieces(s) && s.paid + Owed(s) == TotalSize(s.payloads))
  }

  function Share(s: Stream): int {
    if s.counted then s.queued else 0
  }

  // The counter moves down exactly as this stream's share of it.
  predicate Moves(total: nat, s: Stream, total': nat, s': Stream) {
    total' - total == Share(s') - Share(s) <= 0 && s'.counted == s.counted && s'.chunked == s.chunked
  }

  lemma {:induction false} DiscardKeeps(total: nat, s: Stream)
    requires s.queued == Outstanding(s) && Share(s) <= total
    ensures var (t, u) := Discard(total, s);
      Moves(total, s, t, u) && u == s.(waiting := [], queued := u.queued) && u.queued == FlightBytes(s.flight)
    decreases |s.waiting|
  {
    if s.waiting != [] {
      var wire := |s.waiting[0].data|;
      DiscardKeeps(ReleaseFor(s, total, wire), s.(waiting := s.waiting[1..], queued := s.queued - wire));
    }
  }

  lemma StopKeeps(total: nat, s: Stream)
    requires s.queued == Outstanding(s) && (s.chunked ==> s.counted) && (!s.connected ==> s.flight == NoFlight)
    requires Share(s) <= total
    requires s.counted ==> s.paid + Owed(s) <= TotalSize(s.payloads)
    ensures var (t, u) := Stop(total, s); Good(u) && Faithful(u) && Moves(total, s, t, u) && u.stopped
  {
    DiscardKeeps(total, s.(stopped := true));
  }

  lemma FailKeeps(total: nat, s: Stream)
    requires s.queued == Outstanding(s) && (s.chunked ==> s.counted) && (!s.connected ==> s.flight == NoFlight)
    requires Share(s) <= total && s.connected && !s.stopped
    requires s.counted ==> s.paid + Owed(s) <= TotalSize(s.payloads)
    ensures var (t, u) := Fail(total, s); Good(u) && Faithful(u) && Moves(total, s, t, u)
  {
    StopKeeps(total, s);
  }

  lemma WriteNextKeeps(total: nat, s: Stream, answer: Answer)
    requires Good(s) && Faithful(s) && Share(s) <= total
    ensures var (t, u) := WriteNext(total, s, answer); Good(u) && Faithful(u) && Moves(total, s, t, u)
  {
    if s.connected && s.flight == NoFlight && !s.stopped {
      if s.head {
        FailKeeps(total, s);
        FailKeeps(total, s.(head := false));
      } else if s.waiting != [] {
        match answer
        case Started => StartKeeps(s);
        case NoMemory => FailKeeps(total, s);
        case Refused =>
          var rest := s.(waiting := s.waiting[1..]);
          var (t, gone) := Drop(total, rest, s.waiting[0]);
          FailKeeps(t, gone);
      }
    }
  }

  lemma StartKeeps(s: Stream)
    requires Good(s) && Faithful(s) && s.waiting != [] && s.flight == NoFlight && !s.stopped && s.connected
    ensures var u := s.(waiting := s.waiting[1..], flight := Flying(s.waiting[0]), sent := s.sent + [s.waiting[0]]);
      Good(u) && Faithful(u)
  {
    assert s.waiting == [s.waiting[0]] + s.waiting[1..];
    assert (s.sent + [s.waiting[0]]) + s.waiting[1..] == s.sent + s.waiting;
  }

  lemma LandedKeeps(total: nat, s: Stream, ok: bool)
    requires Good(s) && Faithful(s) && Share(s) <= total
    ensures var (t, u) := Landed(total, s, ok);
      && Good(u) && Moves(total, s, t, u) && u.stopped == s.stopped
      && (ok || s.closing ==> Faithful(u)) && (u.counted ==> u.paid + Owed(u) <= TotalSize(u.payloads))
  {
  }

  lemma LandedKeepsFlags(total: nat, s: Stream, ok: bool)
    ensures var u := Landed(total, s, ok).1; u.stopped == s.stopped && u.closing == s.closing
  {
    if s.flight.Flying? {
      var gone := Drop(total, s.(flight := NoFlight), s.flight.piece).1;
      assert gone.stopped == s.stopped && gone.closing == s.closing;
    }
  }

  lemma WrittenKeeps(total: nat, s: Stream, ok: bool, answer: Answer)
    requires Good(s) && Faithful(s) && Share(s) <= total
    ensures var (t, u) := Written(total, s, ok, answer); Good(u) && Faithful(u) && Moves(total, s, t, u)
  {
    LandedKeeps(total, s, ok);
    var (t, landed) := Landed(total, s, ok);
    if !ok && !s.closing && !s.stopped { StopKeeps(t, landed); }
    else if !s.closing { WriteNextKeeps(t, landed, answer); }
  }

  lemma {:induction false} WireSnoc(pieces: seq<Piece>, piece: Piece)
    ensures WireBytes(pieces + [piece]) == WireBytes(pieces) + |piece.data|
    ensures Credits(pieces + [piece]) == Credits(pieces) + piece.credit
  {
    if pieces != [] {
      WireSnoc(pieces[1..], piece);
      assert (pieces + [piece])[1..] == pieces[1..] + [piece];
    } else {
      assert [piece][1..] == [];
    }
  }

  lemma {:induction false} SizeSnoc(payloads: seq<Bytes>, payload: Bytes)
    ensures TotalSize(payloads + [payload]) == TotalSize(payloads) + |payload|
  {
    if payloads != [] {
      SizeSnoc(payloads[1..], payload);
      assert (payloads + [payload])[1..] == payloads[1..] + [payload];
    } else {
      assert [payload][1..] == [];
    }
  }

  lemma AllPiecesSnoc(s: Stream, payload: Bytes, final: bool)
    requires !s.ended && (final ==> payload == [])
    ensures AllPieces(Queued(s, payload, final)) == AllPieces(s) + [PieceOf(s.chunked, payload, final)]
  {
    if !final { assert (s.payloads + [payload])[..|s.payloads|] == s.payloads; }
  }

  lemma QueuedKeeps(s: Stream, payload: Bytes, final: bool)
    requires Good(s) && Faithful(s) && s.counted && !s.stopped && !s.ended && (final ==> payload == [])
    ensures Good(Queued(s, payload, final)) && Faithful(Queued(s, payload, final))
  {
    var piece := PieceOf(s.chunked, payload, final);
    WireSnoc(s.waiting, piece);
    SizeSnoc(s.payloads, payload);
    AllPiecesSnoc(s, payload, final);
    assert s.sent + (s.waiting + [piece]) == (s.sent + s.waiting) + [piece];
  }

  lemma ConnectKeeps(total: nat, s: Stream, body: Bytes, answer: Answer)
    requires Good(s) && Faithful(s) && Share(s) <= total && !s.connected && !s.stopped
    ensures var (t, u) := Connect(total, s, body, answer); Good(u) && Faithful(u) && Moves(total, s, t, u)
  {
    var ready := s.(connected := true, head := true);
    var filled := if !s.counted && body != [] then ready.(waiting := [Piece(body, 0)], queued := |body|) else ready;
    assert WireBytes([Piece(body, 0)]) == |body| by { assert [Piece(body, 0)][1..] == []; }
    WriteNextKeeps(total, filled, answer);
  }

  // ----- all the streams -----

  datatype Queues = Queues(total: nat, streams: seq<Stream>)

  datatype Event =
    | Open(counted: bool, chunked: bool)
    | Data(i: nat, payload: Bytes, room: bool, answer: Answer)
    | EndStream(i: nat, room: bool, answer: Answer)
    | Connected(i: nat, body: Bytes, answer: Answer)
    | WriteDone(i: nat, ok: bool, answer: Answer)
    | Halt(i: nat)
    | CloseFront(i: nat)

  // What the HTTP/2 library and the event loop deliver: data only before the end of an
  // open stream, one connection, one completion for each write.
  predicate Enabled(q: Queues, e: Event) {
    match e
    case Open(counted, chunked) => chunked ==> counted
    case Data(i, _, _, _) => i < |q.streams| && q.streams[i].counted && !q.streams[i].stopped && !q.streams[i].ended
    case EndStream(i, _, _) => i < |q.streams| && q.streams[i].chunked && !q.streams[i].stopped && !q.streams[i].ended
    case Connected(i, _, _) => i < |q.streams| && !q.streams[i].connected && !q.streams[i].stopped
    case WriteDone(i, _, _) => i < |q.streams| && q.streams[i].flight != NoFlight
    case Halt(i) => i < |q.streams|
    case CloseFront(i) => i < |q.streams|
  }

  function Put(q: Queues, i: nat, next: (nat, Stream)): Queues
    requires i < |q.streams|
  {
    Queues(next.0, q.streams[i := next.1])
  }

  function Apply(q: Queues, e: Event, limits: Limits): Queues
    requires Enabled(q, e)
  {
    match e
    case Open(counted, chunked) => q.(streams := q.streams + [Fresh(counted, chunked)])
    case Data(i, payload, room, answer) =>
      Put(q, i, Enqueue(q.total, q.streams[i], payload, false, room, answer, limits))
    case EndStream(i, room, answer) => Put(q, i, Enqueue(q.total, q.streams[i], [], true, room, answer, limits))
    case Connected(i, body, answer) => Put(q, i, Connect(q.total, q.streams[i], body, answer))
    case WriteDone(i, ok, answer) => Put(q, i, Written(q.total, q.streams[i], ok, answer))
    case Halt(i) => Put(q, i, Stop(q.total, q.streams[i]))
    case CloseFront(i) => q.(streams := q.streams[i := q.streams[i].(closing := true)])
  }

  predicate Runs(q: Queues, events: seq<Event>, limits: Limits, r: Queues)
    decreases |events|
  {
    if events == [] then q == r
    else Enabled(q, events[0]) && Runs(Apply(q, events[0], limits), events[1..], limits, r)
  }

  function Shares(streams: seq<Stream>): int {
    if streams == [] then 0 else Shares(streams[..|streams| - 1]) + Share(streams[|streams| - 1])
  }

  predicate Within(s: Stream, limits: Limits) {
    s.counted ==> s.queued <= limits.perStream
  }

  predicate Inv(q: Queues, limits: Limits) {
    && (forall i :: 0 <= i < |q.streams| ==>
          Good(q.streams[i]) && Faithful(q.streams[i]) && Within(q.streams[i], limits))
    && q.total == Shares(q.streams)
    && q.total <= limits.total
  }

  lemma {:induction false} SharesUpdate(streams: seq<Stream>, i: nat, s: Stream)
    requires i < |streams| && forall k :: 0 <= k < |streams| ==> Share(streams[k]) >= 0
    ensures Shares(streams[i := s]) == Shares(streams) - Share(streams[i]) + Share(s)
    ensures Share(streams[i]) <= Shares(streams)
    decreases |streams|
  {
    var n := |streams| - 1;
    SharesPositive(streams[..n]);
    if i < n {
      SharesUpdate(streams[..n], i, s);
      assert streams[i := s][..n] == streams[..n][i := s];
    } else {
      assert streams[i := s][..n] == streams[..n];
    }
  }

  lemma {:induction false} SharesPositive(streams: seq<Stream>)
    requires forall k :: 0 <= k < |streams| ==> Share(streams[k]) >= 0
    ensures Shares(streams) >= 0
    decreases |streams|
  {
    if streams != [] { SharesPositive(streams[..|streams| - 1]); }
  }

  lemma PutKeeps(q: Queues, i: nat, next: (nat, Stream), limits: Limits)
    requires Inv(q, limits) && i < |q.streams| && Good(next.1) && Faithful(next.1) && Within(next.1, limits)
    requires next.0 - q.total == Share(next.1) - Share(q.streams[i]) && next.0 <= limits.total
    ensures Inv(Put(q, i, next), limits)
  {
    forall k | 0 <= k < |q.streams| ensures Share(q.streams[k]) >= 0 { assert Good(q.streams[k]); }
    SharesUpdate(q.streams, i, next.1);
  }

  lemma ShareFits(q: Queues, i: nat, limits: Limits)
    requires Inv(q, limits) && i < |q.streams|
    ensures Share(q.streams[i]) <= q.total
  {
    forall k | 0 <= k < |q.streams| ensures Share(q.streams[k]) >= 0 { assert Good(q.streams[k]); }
    SharesUpdate(q.streams, i, q.streams[i]);
  }

  // Moving down keeps a stream within its limit.
  lemma MovesWithin(total: nat, s: Stream, t: nat, u: Stream, limits: Limits)
    requires Moves(total, s, t, u) && Within(s, limits)
    ensures Within(u, limits)
  {
  }

  lemma AcceptedKeeps(total: nat, s: Stream, wire: nat, u: Stream, answer: Answer, limits: Limits)
    requires Good(u) && Faithful(u) && Share(s) <= total && s.counted && HasRoom(total, s, wire, limits)
    requires u.queued == s.queued + wire && u.counted
    ensures var (t, v) := WriteNext(total + wire, u, answer);
      && Good(v) && Faithful(v) && Within(v, limits) && t - total == Share(v) - Share(s) && t <= limits.total
  {
    WriteNextKeeps(total + wire, u, answer);
  }

  lemma EnqueueKeeps(total: nat, s: Stream, payload: Bytes, final: bool, room: bool, answer: Answer, limits: Limits)
    requires Good(s) && Faithful(s) && Within(s, limits) && Share(s) <= total <= limits.total
    requires s.counted && !s.stopped && !s.ended && (final ==> payload == [])
    ensures var (t, u) := Enqueue(total, s, payload, final, room, answer, limits);
      && Good(u) && Faithful(u) && Within(u, limits) && t - total == Share(u) - Share(s) && t <= limits.total
  {
    hide WriteNext, Good, Faithful;
    var wire := |PieceOf(s.chunked, payload, final).data|;
    if HasRoom(total, s, wire, limits) && room {
      QueuedKeeps(s, payload, final);
      AcceptedKeeps(total, s, wire, Queued(s, payload, final), answer, limits);
    }
  }

  lemma FeedKeeps(q: Queues, i: nat, payload: Bytes, final: bool, room: bool, answer: Answer, limits: Limits)
    requires Inv(q, limits) && i < |q.streams| && (final ==> payload == [])
    requires q.streams[i].counted && !q.streams[i].stopped && !q.streams[i].ended
    ensures Inv(Put(q, i, Enqueue(q.total, q.streams[i], payload, final, room, answer, limits)), limits)
  {
    ShareFits(q, i, limits);
    EnqueueKeeps(q.total, q.streams[i], payload, final, room, answer, limits);
    PutKeeps(q, i, Enqueue(q.total, q.streams[i], payload, final, room, answer, limits), limits);
  }

  lemma MoveKeeps(q: Queues, i: nat, next: (nat, Stream), limits: Limits)
    requires Inv(q, limits) && i < |q.streams| && Good(next.1) && Faithful(next.1)
    requires Moves(q.total, q.streams[i], next.0, next.1)
    ensures Inv(Put(q, i, next), limits)
  {
    MovesWithin(q.total, q.streams[i], next.0, next.1, limits);
    PutKeeps(q, i, next, limits);
  }

  lemma OpenKeeps(q: Queues, counted: bool, chunked: bool, limits: Limits)
    requires Inv(q, limits) && (chunked ==> counted)
    ensures Inv(q.(streams := q.streams + [Fresh(counted, chunked)]), limits)
  {
    FreshGood(counted, chunked, limits);
    SharesSnoc(q.streams, Fresh(counted, chunked));
    hide Good, Faithful, Within, Shares, Fresh;
  }

  lemma FreshGood(counted: bool, chunked: bool, limits: Limits)
    requires chunked ==> counted
    ensures var s := Fresh(counted, chunked); Good(s) && Faithful(s) && Within(s, limits) && Share(s) == 0
  {
  }

  lemma SharesSnoc(streams: seq<Stream>, s: Stream)
    ensures Shares(streams + [s]) == Shares(streams) + Share(s)
  {
    assert (streams + [s])[..|streams|] == streams;
  }

  lemma StepKeeps(q: Queues, e: Event, limits: Limits)
    requires Inv(q, limits) && Enabled(q, e)
    ensures Inv(Apply(q, e, limits), limits)
  {
    match e
    case Open(counted, chunked) => OpenKeeps(q, counted, chunked, limits);
    case Data(i, payload, room, answer) => FeedKeeps(q, i, payload, false, room, answer, limits);
    case EndStream(i, room, answer) =>
      assert Good(q.streams[i]);
      FeedKeeps(q, i, [], true, room, answer, limits);
    case Connected(i, body, answer) =>
      ShareFits(q, i, limits);
      ConnectKeeps(q.total, q.streams[i], body, answer);
      MoveKeeps(q, i, Connect(q.total, q.streams[i], body, answer), limits);
    case WriteDone(i, ok, answer) =>
      ShareFits(q, i, limits);
      WrittenKeeps(q.total, q.streams[i], ok, answer);
      MoveKeeps(q, i, Written(q.total, q.streams[i], ok, answer), limits);
    case Halt(i) =>
      ShareFits(q, i, limits);
      StopKeeps(q.total, q.streams[i]);
      MoveKeeps(q, i, Stop(q.total, q.streams[i]), limits);
    case CloseFront(i) =>
      MoveKeeps(q, i, (q.total, q.streams[i].(closing := true)), limits);
  }

  lemma {:induction false} RunKeeps(q: Queues, events: seq<Event>, limits: Limits, r: Queues)
    requires Inv(q, limits) && Runs(q, events, limits, r)
    ensures Inv(r, limits)
    decreases |events|
  {
    if events != [] {
      StepKeeps(q, events[0], limits);
      RunKeeps(Apply(q, events[0], limits), events[1..], limits, r);
    }
  }

  /** After any run the shared counter is exactly the queued and in-flight bytes of the
      counted streams, and neither limit is passed. */
  lemma CounterIsSum(events: seq<Event>, limits: Limits, r: Queues)
    requires Runs(Queues(0, []), events, limits, r)
    ensures r.total == Shares(r.streams) && r.total <= limits.total
    ensures forall i :: 0 <= i < |r.streams| && r.streams[i].counted ==>
      r.streams[i].queued == Outstanding(r.streams[i]) <= limits.perStream
  {
    RunKeeps(Queues(0, []), events, limits, r);
  }

  function Joined(pieces: seq<Piece>): Bytes {
    if pieces == [] then [] else Joined(pieces[..|pieces| - 1]) + pieces[|pieces| - 1].data
  }

  // What is left of a queue when every write succeeds: each one starts the next.
  function Drained(total: nat, s: Stream): (nat, Stream)
    decreases |s.waiting|
  {
    var (t, u) := Written(total, s, true, Started);
    if u.flight.Flying? && |u.waiting| < |s.waiting| then Drained(t, u) else (t, u)
  }

  /** While writes succeed a queue drains: every waiting piece is sent, in order, the credit of each is
      paid back, and the queue and the stream's share of the counter come down by what was sent. */
  lemma {:induction false} Drains(total: nat, s: Stream)
    requires s.flight.Flying? && s.connected && !s.stopped && !s.closing && !s.head && s.counted
    requires s.queued == Outstanding(s) <= total
    ensures var (t, u) := Drained(total, s);
      && u.waiting == [] && u.flight == NoFlight && u.sent == s.sent + s.waiting
      && u.paid == s.paid + s.flight.piece.credit + Credits(s.waiting)
      && u.queued == 0 && t == total - s.queued
    decreases |s.waiting|
  {
    var (t, u) := Written(total, s, true, Started);
    if s.waiting == [] {
      assert s.sent + [] == s.sent;
    } else {
      Drains(t, u);
      assert s.sent + [s.waiting[0]] + s.waiting[1..] == s.sent + s.waiting;
    }
  }

  lemma JoinedSnoc(pieces: seq<Piece>, piece: Piece)
    ensures Joined(pieces + [piece]) == Joined(pieces) + piece.data
  {
    assert (pieces + [piece])[..|pieces|] == pieces;
  }

  lemma WireSnocPayload(payloads: seq<Bytes>, last: Bytes)
    ensures Wire(payloads + [last]) == Wire(payloads) + Encoded(last)
  {
    WireConcat(payloads, [last]);
    WireHead(last, []);
    assert [last] + [] == [last] && Wire([]) == [];
  }

  lemma {:induction false} JoinedPieces(payloads: seq<Bytes>)
    ensures Joined(PiecesOf(true, payloads)) == Wire(payloads)
    decreases |payloads|
  {
    if payloads != [] {
      var init, last := payloads[..|payloads| - 1], payloads[|payloads| - 1];
      JoinedPieces(init);
      JoinedSnoc(PiecesOf(true, init), PieceOf(true, last, false));
      WireSnocPayload(init, last);
      LastSplit(payloads);
    }
  }

  /** When a bridged upload has ended and its last write is done, what went upstream is
      read by the chunked decoder as the whole upload, provided no payload was empty, and
      the credit paid back is the number of payload bytes. */
  lemma UploadDelivered(events: seq<Event>, limits: Limits, r: Queues, i: nat, max: nat)
    requires Runs(Queues(0, []), events, limits, r) && i < |r.streams|
    requires var s := r.streams[i];
      s.chunked && s.ended && !s.stopped && !s.closing && s.waiting == [] && s.flight == NoFlight
      && Sized(s.payloads) && TotalSize(s.payloads) <= max
    ensures var s := r.streams[i];
      && s.paid == TotalSize(s.payloads)
      && (Completes(START, Joined(s.sent), max) <==> NoneEmpty(s.payloads))
      && (NoneEmpty(s.payloads) ==> Run(START, Joined(s.sent), max).body.decoded == TotalSize(s.payloads))
  {
    RunKeeps(Queues(0, []), events, limits, r);
    var s := r.streams[i];
    assert Good(s) && Faithful(s);
    assert s.sent + [] == s.sent == AllPieces(s);
    JoinedPieces(s.payloads);
    assert s.sent[..|s.sent| - 1] == PiecesOf(true, s.payloads);
    UploadAccepted(s.payloads, max);
  }

  // ----- the callbacks, updating their stream and the shared counter in place -----

  class Frontend {
    var requestQueued: nat

    constructor ()
      ensures requestQueued == 0
    {
      requestQueued := 0;
    }
  }

  class H2Stream {
    var counted: bool
    var chunked: bool
    var connected: bool
    var stopped: bool
    var closing: bool
    var head: bool
    var waiting: seq<Piece>
    var flight: Flight
    var queued: int
    ghost var payloads: seq<Bytes>
    ghost var ended: bool
    ghost var sent: seq<Piece>
    ghost var paid: nat

    ghost function View(): Stream
      reads this
    {
      Stream(counted, chunked, connected, stopped, closing, head, waiting, flight, queued, payloads, ended, sent, paid)
    }

    /** h2_discard_request: the loop over the waiting pieces. */
    method DiscardRequest(front: Frontend)
      modifies this`waiting, this`queued, front
      ensures (front.requestQueued, View()) == Discard(old(front.requestQueued), old(View()))
    {
      while waiting != []
        invariant Discard(front.requestQueued, View()) == Discard(old(front.requestQueued), old(View()))
        decreases |waiting|
      {
        var credit := |waiting[0].data|;
        queued := queued - credit;
        if counted {
          front.requestQueued :=
            front.requestQueued - if credit <= front.requestQueued then credit else front.requestQueued;
        }
        waiting := waiting[1..];
      }
    }

    /** h2_request_failure, as far as the queue is concerned. */
    method RequestFailure(front: Frontend)
      modifies this, front
      ensures (front.requestQueued, View()) == Fail(old(front.requestQueued), old(View()))
    {
      if closing { return; }
      stopped := true;
      DiscardRequest(front);
    }

    // The release of a piece that has left the queue.
    method Settle(front: Frontend, piece: Piece)
      modifies this`queued, front
      ensures (front.requestQueued, View()) == Drop(old(front.requestQueued), old(View()), piece)
    {
      var wire := |piece.data|;
      if queued >= wire { queued := queued - wire; }
      if counted {
        front.requestQueued := front.requestQueued - if wire <= front.requestQueued then wire else front.requestQueued;
      }
    }

    /** h2_write_request */
    method WriteRequest(front: Frontend, answer: Answer)
      modifies this, front
      ensures (front.requestQueued, View()) == WriteNext(old(front.requestQueued), old(View()), answer)
    {
      if !connected || flight != NoFlight || stopped { return; }
      if head {
        if answer == NoMemory { RequestFailure(front); return; }
        head := false;
        if answer == Refused { RequestFailure(front); return; }
        flight := Head;
      } else {
        if waiting == [] { return; }
        if answer == NoMemory { RequestFailure(front); return; }
        var piece := waiting[0];
        waiting := waiting[1..];
        if answer == Refused {
          Settle(front, piece);
          RequestFailure(front);
          return;
        }
        flight, sent := Flying(piece), sent + [piece];
      }
    }

    // The accounting of a write that has ended.
    method Land(front: Frontend, ok: bool)
      requires flight != NoFlight
      modifies this, front
      ensures (front.requestQueued, View()) == Landed(old(front.requestQueued), old(View()), ok)
    {
      var done := flight;
      flight := NoFlight;
      if done.Flying? {
        Settle(front, done.piece);
        if ok && counted && !stopped { paid := paid + done.piece.credit; }
      }
    }

    /** on_h2_request_write */
    method OnRequestWrite(front: Frontend, ok: bool, answer: Answer)
      requires flight != NoFlight
      modifies this, front
      ensures (front.requestQueued, View()) == Written(old(front.requestQueued), old(View()), ok, answer)
    {
      Land(front, ok);
      LandedKeepsFlags(old(front.requestQueued), old(View()), ok);
      if !ok && !closing && !stopped {
        stopped := true;
        DiscardRequest(front);
      } else if !closing {
        WriteRequest(front, answer);
      }
    }

    // The piece is framed, linked and counted.
    method Append(front: Frontend, data: Bytes, prefix: Bytes, final: bool)
      requires prefix == if chunked then HexText(|data|) + CRLF else []
      modifies this, front
      ensures View() == Queued(old(View()), data, final)
      ensures front.requestQueued == old(front.requestQueued) + |PieceOf(old(chunked), data, final).data|
    {
      var bytes := prefix + data;
      if chunked { bytes := bytes + CRLF; }
      assert Piece(bytes, if final then 0 else |data|) == PieceOf(chunked, data, final);
      waiting := waiting + [Piece(bytes, if final then 0 else |data|)];
      queued := queued + |bytes|;
      front.requestQueued := front.requestQueued + |bytes|;
      payloads, ended := if final then payloads else payloads + [data], ended || final;
    }

    /** h2_enqueue_upload */
    method EnqueueUpload(front: Frontend, data: Bytes, final: bool, room: bool, answer: Answer, limits: Limits)
      returns (result: int)
      modifies this, front
      ensures (front.requestQueued, View()) ==
        Enqueue(old(front.requestQueued), old(View()), data, final, room, answer, limits)
      ensures result == 0 <==> room && HasRoom(old(front.requestQueued), old(View()),
                                               |PieceOf(old(chunked), data, final).data|, limits)
      ensures var wire := |data| + if old(chunked) then |HexText(|data|)| + 4 else 0;
        result == 0 <==> room && old(queued) + wire <= limits.perStream
                         && old(front.requestQueued) + wire <= limits.total
    {
      hide WriteNext;
      var wire := |data|;
      var prefix := [];
      if chunked {
        prefix := HexText(|data|) + CRLF;
        wire := wire + |prefix| + 2;
      }
      if queued > limits.perStream || wire > limits.perStream - queued
         || front.requestQueued > limits.total || wire > limits.total - front.requestQueued { return -1; }
      if !room { return -1; }
      Append(front, data, prefix, final);
      WriteRequest(front, answer);
      result := 0;
    }
  }
}
