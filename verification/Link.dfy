/** The peer link: length-prefixed messages queued as frames, written piece by piece
    into a byte pipe, and reassembled from whatever pieces come out of it. */
module Link {
  import opened Bytes

  const MESSAGE_MAX := 3 * 1024 * 1024
  const PLAIN_LIMIT := 4 * 1024 * 1024
  const QUEUE_LIMIT := 4 * 1024 * 1024
  const READ_SIZE := 16384

  datatype Message = Message(kind: Byte, payload: Bytes)

  predicate Sendable(m: Message) {
    m.kind > 0 && |m.payload| <= MESSAGE_MAX - 1
  }

  // put_u32 and get_u32: most significant byte first.
  function PutU32(value: nat): (s: Bytes)
    ensures |s| == 4
  {
    [value / 0x100_0000 % 256, value / 0x1_0000 % 256, value / 0x100 % 256, value % 256]
  }

  function GetU32(s: Bytes): nat
    requires |s| == 4
  {
    var a: nat, b: nat, c: nat, d: nat := s[0], s[1], s[2], s[3];
    a * 0x100_0000 + b * 0x1_0000 + c * 0x100 + d
  }

  lemma U32RoundTrip(value: nat)
    requires value < 0x1_0000_0000
    ensures GetU32(PutU32(value)) == value
  {
    var a, b, c := value / 0x100, value / 0x1_0000, value / 0x100_0000;
    assert value == 0x100 * a + value % 0x100;
    assert a / 0x100 == b && b / 0x100 == c;
    assert a == 0x100 * b + a % 0x100 && b == 0x100 * c + b % 0x100;
    assert c % 256 == c;
  }

  function Encode(m: Message): Bytes {
    PutU32(|m.payload| + 1) + [m.kind] + m.payload
  }

  function EncodeAll(messages: seq<Message>): Bytes {
    if messages == [] then [] else Encode(messages[0]) + EncodeAll(messages[1..])
  }

  // ----- reassembly -----

  datatype Extracted = Extracted(messages: seq<Message>, rest: Bytes, ok: bool)

  predicate BadLength(length: nat) {
    length == 0 || length > MESSAGE_MAX
  }

  // Every whole message at the front of a buffer.
  function Extract(buffer: Bytes): Extracted
    decreases |buffer|
  {
    if |buffer| < 4 then Extracted([], buffer, true)
    else
      var length := GetU32(buffer[..4]);
      if BadLength(length) then Extracted([], buffer, false)
      else if |buffer| < length + 4 then Extracted([], buffer, true)
      else
        var more := Extract(buffer[length + 4..]);
        Extracted([Message(buffer[4], buffer[5..length + 4])] + more.messages, more.rest, more.ok)
  }

  predicate Incomplete(buffer: Bytes) {
    Extract(buffer) == Extracted([], buffer, true)
  }

  lemma IncompleteFits(buffer: Bytes)
    requires Incomplete(buffer)
    ensures |buffer| < MESSAGE_MAX + 4
  {
  }

  lemma HeaderRead(m: Message, buffer: Bytes)
    requires Sendable(m) && |buffer| >= 4 && buffer[..4] == Encode(m)[..4]
    ensures GetU32(buffer[..4]) == |m.payload| + 1 && !BadLength(|m.payload| + 1)
  {
    U32RoundTrip(|m.payload| + 1);
    assert Encode(m)[..4] == PutU32(|m.payload| + 1);
  }

  lemma ExtractOne(m: Message, rest: Bytes)
    requires Sendable(m)
    ensures var more := Extract(rest);
      Extract(Encode(m) + rest) == Extracted([m] + more.messages, more.rest, more.ok)
  {
    var buffer, size := Encode(m) + rest, |m.payload| + 5;
    assert |Encode(m)| == size;
    assert buffer[..4] == Encode(m)[..4];
    HeaderRead(m, buffer);
    assert buffer[size..] == rest;
    assert buffer[4] == m.kind && buffer[5..size] == m.payload;
  }

  lemma ExtractPart(m: Message, part: Bytes)
    requires Sendable(m) && part <= Encode(m) && |part| < |Encode(m)|
    ensures Incomplete(part)
  {
    if |part| >= 4 {
      assert part[..4] == Encode(m)[..4];
      HeaderRead(m, part);
    }
  }

  // The cut through a run of messages falls inside the first or after it.
  lemma CutFirst(first: Bytes, tail: Bytes, arrived: Bytes, coming: Bytes)
    requires arrived + coming == first + tail
    ensures |arrived| < |first| ==> arrived <= first
    ensures |arrived| >= |first| ==> arrived == first + arrived[|first|..] && arrived[|first|..] + coming == tail
  {
    var all := first + tail;
    if |arrived| < |first| {
      assert arrived == all[..|arrived|] == first[..|arrived|];
    } else {
      assert arrived[..|first|] == all[..|first|] == first;
      assert arrived[|first|..] + coming == all[|first|..] == tail;
    }
  }

  // Whatever part of a run of messages has arrived: the whole messages come out, and
  // the rest waits for what follows.
  lemma {:induction false} PrefixExtract(messages: seq<Message>, arrived: Bytes, coming: Bytes) returns (j: nat)
    requires forall i :: 0 <= i < |messages| ==> Sendable(messages[i])
    requires arrived + coming == EncodeAll(messages)
    ensures j <= |messages| && Extract(arrived).ok && Extract(arrived).messages == messages[..j]
    ensures Incomplete(Extract(arrived).rest) && Extract(arrived).rest + coming == EncodeAll(messages[j..])
    decreases |messages|
  {
    j := 0;
    if messages == [] {
      assert arrived == [];
    } else {
      var first := Encode(messages[0]);
      CutFirst(first, EncodeAll(messages[1..]), arrived, coming);
      if |arrived| < |first| {
        ExtractPart(messages[0], arrived);
      } else {
        var more := arrived[|first|..];
        j := PrefixExtract(messages[1..], more, coming);
        ExtractOne(messages[0], more);
        Shifted(messages, j);
        j := j + 1;
      }
    }
  }

  lemma Shifted<T>(s: seq<T>, j: nat)
    requires s != [] && j <= |s| - 1
    ensures s[j + 1..] == s[1..][j..] && s[..j + 1] == [s[0]] + s[1..][..j]
  {
  }

  // ----- the sender's queue -----

  datatype Frame = Frame(data: Bytes, offset: nat)

  predicate Partial(f: Frame) {
    f.offset < |f.data|
  }

  function Rest(f: Frame): Bytes {
    if Partial(f) then f.data[f.offset..] else []
  }

  function Unsent(frames: seq<Frame>): Bytes {
    if frames == [] then [] else Rest(frames[0]) + Unsent(frames[1..])
  }

  predicate CanSend(queued: nat, m: Message) {
    m.kind > 0 && |m.payload| <= MESSAGE_MAX - 1 && queued <= QUEUE_LIMIT - 5
    && |m.payload| <= QUEUE_LIMIT - queued - 5
  }

  function Taken(f: Frame, n: nat): Bytes
    requires n <= |f.data| - f.offset
  {
    f.data[f.offset..f.offset + n]
  }

  // One successful partial write of n bytes of the first frame.
  function WriteSome(frames: seq<Frame>, n: nat): seq<Frame>
    requires frames != [] && Partial(frames[0]) && 1 <= n <= |frames[0].data| - frames[0].offset
  {
    var f := frames[0].(offset := frames[0].offset + n);
    if f.offset == |f.data| then frames[1..] else [f] + frames[1..]
  }

  lemma RestSplit(f: Frame, n: nat)
    requires Partial(f) && n <= |f.data| - f.offset
    ensures Rest(f) == Taken(f, n) + Rest(f.(offset := f.offset + n))
  {
  }

  lemma UnsentHead(f: Frame, frames: seq<Frame>)
    ensures Unsent([f] + frames) == Rest(f) + Unsent(frames)
  {
    assert ([f] + frames)[1..] == frames;
  }

  lemma WriteSomeIs(f: Frame, frames: seq<Frame>, n: nat)
    requires Partial(f) && 1 <= n <= |f.data| - f.offset
    ensures var g := f.(offset := f.offset + n);
      Unsent(WriteSome([f] + frames, n)) == Rest(g) + Unsent(frames)
  {
    var g := f.(offset := f.offset + n);
    assert ([f] + frames)[1..] == frames;
    UnsentHead(g, frames);
    Regroup([], Rest(g), Unsent(frames));
  }

  lemma WriteSomeUnsent(frames: seq<Frame>, n: nat)
    requires frames != [] && Partial(frames[0]) && 1 <= n <= |frames[0].data| - frames[0].offset
    ensures Unsent(frames) == Taken(frames[0], n) + Unsent(WriteSome(frames, n))
  {
    var f, rest := frames[0], frames[1..];
    assert frames == [f] + rest;
    RestSplit(f, n);
    WriteSomeIs(f, rest, n);
    Regroup(Taken(f, n), Rest(f.(offset := f.offset + n)), Unsent(rest));
  }

  lemma {:induction false} UnsentSnoc(frames: seq<Frame>, f: Frame)
    ensures Unsent(frames + [f]) == Unsent(frames) + Rest(f)
  {
    if frames == [] {
      assert [f][1..] == [];
    } else {
      UnsentSnoc(frames[1..], f);
      HeadTail(frames, [f]);
      UnsentHead(frames[0], frames[1..] + [f]);
      Regroup(Rest(frames[0]), Unsent(frames[1..]), Rest(f));
    }
  }

  // ----- both ends of one direction of a link -----

  // `sent` and `delivered` are the histories; `pipe` is what was written and not yet read.
  datatype State = State(frames: seq<Frame>, queued: nat, pipe: Bytes, plain: Bytes,
                         sent: seq<Message>, delivered: seq<Message>, failed: bool)

  datatype Event = Send(m: Message) | Write(n: nat) | Read(n: nat)

  // Writes take part of the first frame, reads take part of the pipe, 16384 bytes at most.
  predicate Enabled(s: State, e: Event) {
    !s.failed &&
    match e
    case Send(m) => true
    case Write(n) =>
      s.frames != [] && Partial(s.frames[0]) && 1 <= n <= |s.frames[0].data| - s.frames[0].offset && n <= READ_SIZE
    case Read(n) => 1 <= n <= |s.pipe| && n <= READ_SIZE
  }

  // append_plain
  function Receive(s: State, data: Bytes): State {
    if |data| > PLAIN_LIMIT - |s.plain| then s.(failed := true)
    else
      var x := Extract(s.plain + data);
      s.(delivered := s.delivered + x.messages, plain := x.rest, failed := !x.ok)
  }

  function Apply(s: State, e: Event): State
    requires Enabled(s, e)
  {
    match e
    case Send(m) =>
      if CanSend(s.queued, m) then
        s.(frames := s.frames + [Frame(Encode(m), 0)], queued := s.queued + |Encode(m)|, sent := s.sent + [m])
      else s
    case Write(n) =>
      var f := s.frames[0];
      s.(frames := WriteSome(s.frames, n), queued := if n <= s.queued then s.queued - n else 0,
         pipe := s.pipe + Taken(f, n))
    case Read(n) => Receive(s.(pipe := s.pipe[n..]), s.pipe[..n])
  }

  predicate Runs(s: State, events: seq<Event>, t: State)
    decreases |events|
  {
    if events == [] then s == t else Enabled(s, events[0]) && Runs(Apply(s, events[0]), events[1..], t)
  }

  const FRESH := State([], 0, [], [], [], [], false)

  predicate FramesOpen(s: State) {
    forall i :: 0 <= i < |s.frames| ==> Partial(s.frames[i])
  }

  // Every sent byte is delivered, buffered, in the pipe or queued, in that order.
  predicate InOrder(s: State) {
    && s.delivered <= s.sent
    && EncodeAll(s.sent[|s.delivered|..]) == s.plain + (s.pipe + Unsent(s.frames))
  }

  predicate Inv(s: State) {
    && FramesOpen(s) && InOrder(s)
    && s.queued == |Unsent(s.frames)| <= QUEUE_LIMIT
    && (forall i :: 0 <= i < |s.sent| ==> Sendable(s.sent[i]))
    && Incomplete(s.plain)
    && !s.failed
  }

  lemma EncodeAllHead(m: Message, messages: seq<Message>)
    ensures EncodeAll([m] + messages) == Encode(m) + EncodeAll(messages)
  {
    assert ([m] + messages)[1..] == messages;
  }

  lemma {:induction false} EncodeAllSnoc(messages: seq<Message>, m: Message)
    ensures EncodeAll(messages + [m]) == EncodeAll(messages) + Encode(m)
  {
    if messages == [] {
      assert [m][1..] == [];
    } else {
      EncodeAllSnoc(messages[1..], m);
      HeadTail(messages, [m]);
      EncodeAllHead(messages[0], messages[1..] + [m]);
      Regroup(Encode(messages[0]), EncodeAll(messages[1..]), Encode(m));
    }
  }

  lemma SendKeeps(s: State, m: Message)
    requires Inv(s) && Enabled(s, Send(m))
    ensures Inv(Apply(s, Send(m)))
  {
    if CanSend(s.queued, m) {
      UnsentSnoc(s.frames, Frame(Encode(m), 0));
      assert Rest(Frame(Encode(m), 0)) == Encode(m);
      var pending := s.sent[|s.delivered|..];
      EncodeAllSnoc(pending, m);
      assert (s.sent + [m])[|s.delivered|..] == pending + [m];
      RegroupTail(s.plain, s.pipe, Unsent(s.frames), Encode(m));
    }
  }

  lemma RegroupTail(a: Bytes, b: Bytes, c: Bytes, d: Bytes)
    ensures (a + (b + c)) + d == a + (b + (c + d))
  {
  }

  lemma RegroupMiddle(a: Bytes, b: Bytes, c: Bytes, d: Bytes)
    ensures a + (b + (c + d)) == a + ((b + c) + d) == (a + b) + (c + d)
  {
  }

  lemma WriteOpen(frames: seq<Frame>, n: nat)
    requires forall i :: 0 <= i < |frames| ==> Partial(frames[i])
    requires frames != [] && 1 <= n <= |frames[0].data| - frames[0].offset
    ensures forall i :: 0 <= i < |WriteSome(frames, n)| ==> Partial(WriteSome(frames, n)[i])
  {
  }

  lemma WriteInOrder(s: State, t: State, taken: Bytes, left: Bytes)
    requires InOrder(s) && Unsent(s.frames) == taken + left
    requires t.pipe == s.pipe + taken && Unsent(t.frames) == left
    requires t.plain == s.plain && t.sent == s.sent && t.delivered == s.delivered
    ensures InOrder(t)
  {
    RegroupMiddle(s.plain, s.pipe, taken, left);
  }

  lemma WriteKeeps(s: State, n: nat)
    requires Inv(s) && Enabled(s, Write(n))
    ensures Inv(Apply(s, Write(n)))
  {
    WriteSomeUnsent(s.frames, n);
    WriteOpen(s.frames, n);
    WriteInOrder(s, Apply(s, Write(n)), Taken(s.frames[0], n), Unsent(WriteSome(s.frames, n)));
  }

  lemma ReadKeeps(s: State, n: nat)
    requires Inv(s) && Enabled(s, Read(n))
    ensures Inv(Apply(s, Read(n)))
  {
    var pending, data, rest := s.sent[|s.delivered|..], s.pipe[..n], s.pipe[n..];
    assert s.pipe == data + rest;
    RegroupMiddle(s.plain, data, rest, Unsent(s.frames));
    IncompleteFits(s.plain);
    var j := PrefixExtract(pending, s.plain + data, rest + Unsent(s.frames));
    Delivered(s.sent, s.delivered, j);
  }

  lemma Delivered<T>(all: seq<T>, done: seq<T>, j: nat)
    requires done <= all && j <= |all| - |done|
    ensures done + all[|done|..][..j] <= all
    ensures all[|done|..][j..] == all[|done + all[|done|..][..j]|..]
  {
    assert all == done + all[|done|..];
  }

  lemma {:induction false} RunKeeps(s: State, events: seq<Event>, t: State)
    requires Inv(s) && Runs(s, events, t)
    ensures Inv(t)
    decreases |events|
  {
    if events != [] {
      match events[0] {
        case Send(m) => SendKeeps(s, m);
        case Write(n) => WriteKeeps(s, n);
        case Read(n) => ReadKeeps(s, n);
      }
      RunKeeps(Apply(s, events[0]), events[1..], t);
    }
  }

  /** However the writes and reads are split, the receiver has been handed exactly the
      first messages sent, in order; it never refuses one and never meets its buffer
      limit; and the sender's counter is the number of unsent bytes. */
  lemma LinkDelivers(events: seq<Event>, t: State)
    requires Runs(FRESH, events, t)
    ensures t.delivered <= t.sent && !t.failed && |t.plain| + READ_SIZE <= PLAIN_LIMIT
    ensures FramesOpen(t) && t.queued == |Unsent(t.frames)| <= QUEUE_LIMIT
    ensures t.frames == [] && t.pipe == [] ==> t.delivered == t.sent
  {
    assert FRESH.sent[|FRESH.delivered|..] == [];
    RunKeeps(FRESH, events, t);
    IncompleteFits(t.plain);
    if t.frames == [] && t.pipe == [] {
      Drained(t);
    }
  }

  lemma Drained(t: State)
    requires Inv(t) && t.frames == [] && t.pipe == []
    ensures t.delivered == t.sent
  {
    var pending := t.sent[|t.delivered|..];
    assert EncodeAll(pending) == t.plain;
    if pending != [] {
      ExtractOne(pending[0], EncodeAll(pending[1..]));
    }
  }

  // ----- one end of a link, updated in place -----

  // What a buffer yields once some of its messages were already handed out.
  function After(calls: seq<Message>, x: Extracted): Extracted {
    Extracted(calls + x.messages, x.rest, x.ok)
  }

  lemma AfterNone(x: Extracted)
    ensures After([], x) == x
  {
  }

  lemma AfterOne(calls: seq<Message>, m: Message, x: Extracted)
    ensures After(calls, After([m], x)) == After(calls + [m], x)
  {
    assert calls + ([m] + x.messages) == (calls + [m]) + x.messages;
  }

  lemma AfterLast(calls: seq<Message>, rest: Bytes, ok: bool)
    ensures After(calls, Extracted([], rest, ok)) == Extracted(calls, rest, ok)
  {
    assert calls + [] == calls;
  }

  lemma {:induction false} ExtractNext(buffer: Bytes, length: nat)
    requires |buffer| >= 4 && length == GetU32(buffer[..4]) && !BadLength(length) && |buffer| >= length + 4
    ensures Extract(buffer) == After([Message(buffer[4], buffer[5..length + 4])], Extract(buffer[length + 4..]))
  {
    hide GetU32;
  }

  lemma WriteStep(frames: seq<Frame>, n: nat)
    requires forall i :: 0 <= i < |frames| ==> Partial(frames[i])
    requires frames != [] && 1 <= n <= |frames[0].data| - frames[0].offset
    ensures forall i :: 0 <= i < |WriteSome(frames, n)| ==> Partial(WriteSome(frames, n)[i])
    ensures Unsent(frames) == Taken(frames[0], n) + Unsent(WriteSome(frames, n))
    ensures |Unsent(frames)| == n + |Unsent(WriteSome(frames, n))|
  {
    WriteSomeUnsent(frames, n);
    WriteOpen(frames, n);
  }

  lemma CutAt(s: Bytes, used: nat, length: nat)
    requires 0 < length && used + length + 4 <= |s|
    ensures s[used..][4] == s[used + 4] && s[used..][5..length + 4] == s[used + 5..used + length + 4]
    ensures s[used..][length + 4..] == s[used + length + 4..]
  {
  }

  // The message at `used`, whose length was read.
  function MessageAt(buffer: Bytes, used: nat, length: nat): Message
    requires 0 < length && used + length + 4 <= |buffer|
  {
    Message(buffer[used + 4], buffer[used + 5..used + length + 4])
  }

  lemma ExtractShort(buffer: Bytes)
    requires |buffer| < 4
    ensures Extract(buffer) == Extracted([], buffer, true)
  {
  }

  lemma ExtractBad(buffer: Bytes)
    requires |buffer| >= 4 && BadLength(GetU32(buffer[..4]))
    ensures Extract(buffer) == Extracted([], buffer, false)
  {
  }

  lemma ExtractWaits(buffer: Bytes)
    requires |buffer| >= 4 && !BadLength(GetU32(buffer[..4])) && |buffer| < GetU32(buffer[..4]) + 4
    ensures Extract(buffer) == Extracted([], buffer, true)
  {
  }

  // A whole message at the front of the buffer.
  lemma NextWhole(tail: Bytes, length: nat, calls: seq<Message>)
    requires |tail| >= 4 && length == GetU32(tail[..4]) && !BadLength(length) && |tail| >= length + 4
    ensures After(calls, Extract(tail)) ==
      After(calls + [Message(tail[4], tail[5..length + 4])], Extract(tail[length + 4..]))
  {
    hide Extract, After, GetU32;
    ExtractNext(tail, length);
    AfterOne(calls, Message(tail[4], tail[5..length + 4]), Extract(tail[length + 4..]));
  }

  lemma NextWholeAt(buffer: Bytes, used: nat, length: nat, calls: seq<Message>)
    requires used + 4 <= |buffer| && length == GetU32(buffer[used..][..4]) && !BadLength(length)
    requires |buffer| - used >= length + 4
    ensures After(calls, Extract(buffer[used..])) ==
      After(calls + [MessageAt(buffer, used, length)], Extract(buffer[used + length + 4..]))
  {
    hide Extract, After, GetU32;
    NextWhole(buffer[used..], length, calls);
    CutAt(buffer, used, length);
  }

  lemma HeadAt(buffer: Bytes, used: nat)
    requires used + 4 <= |buffer|
    ensures buffer[used..][..4] == buffer[used..used + 4]
  {
  }

  // One turn of the loop in append_plain.
  lemma NextCall(buffer: Bytes, used: nat, length: nat, calls: seq<Message>, x: Extracted)
    requires used + 4 <= |buffer| && length == GetU32(buffer[used..used + 4]) && x == Extract(buffer[used..])
    ensures BadLength(length) ==> After(calls, x) == Extracted(calls, buffer[used..], false)
    ensures !BadLength(length) && |buffer| - used < length + 4 ==> x == Extracted([], buffer[used..], true)
    ensures !BadLength(length) && |buffer| - used >= length + 4 ==>
      After(calls, x) == After(calls + [MessageAt(buffer, used, length)], Extract(buffer[used + length + 4..]))
  {
    hide Extract, After, GetU32, MessageAt;
    HeadAt(buffer, used);
    if BadLength(length) {
      ExtractBad(buffer[used..]);
      AfterLast(calls, buffer[used..], false);
    } else if |buffer| - used < length + 4 {
      ExtractWaits(buffer[used..]);
    } else {
      NextWholeAt(buffer, used, length, calls);
    }
  }

  class Connection {
    var frames: seq<Frame>
    var queued: nat
    var plain: Bytes

    predicate Valid()
      reads this
    {
      (forall i :: 0 <= i < |frames| ==> Partial(frames[i])) && queued == |Unsent(frames)| && |plain| <= PLAIN_LIMIT
    }

    constructor ()
      ensures Valid() && frames == [] && plain == []
    {
      frames, queued, plain := [], 0, [];
    }

    /** ankah_link_send up to the drive. */
    method Send(m: Message, room: bool) returns (result: int)
      requires Valid()
      modifies this`frames, this`queued
      ensures Valid() && (result == 0 <==> CanSend(old(queued), m) && room)
      ensures result == 0 <==>
        m.kind != 0 && |m.payload| + 1 <= MESSAGE_MAX && old(queued) + 5 + |m.payload| <= QUEUE_LIMIT && room
      ensures Unsent(frames) == if result == 0 then old(Unsent(frames)) + Encode(m) else old(Unsent(frames))
    {
      if m.kind == 0 || |m.payload| > MESSAGE_MAX - 1 || queued > QUEUE_LIMIT - 5
         || |m.payload| > QUEUE_LIMIT - queued - 5 || !room { return -1; }
      var frame := Frame(PutU32(|m.payload| + 1) + [m.kind] + m.payload, 0);
      UnsentSnoc(frames, frame);
      assert Rest(frame) == Encode(m);
      frames := frames + [frame];
      queued := queued + |frame.data|;
      result := 0;
    }

    /** The frame-writing loop of drive: each answer is what one TLS write took, and an
        answer of zero or less stops it. */
    method WriteFrames(answers: seq<int>) returns (written: Bytes)
      requires Valid()
      modifies this`frames, this`queued
      ensures Valid() && old(Unsent(frames)) == written + Unsent(frames)
      ensures queued == old(queued) - |written|
    {
      hide Unsent;
      ghost var whole, total := Unsent(frames), queued;
      written := [];
      var next := 0;
      while frames != [] && next < |answers|
        invariant Valid() && next <= |answers|
        invariant whole == written + Unsent(frames) && queued == total - |written|
        decreases |answers| - next
      {
        var piece := |frames[0].data| - frames[0].offset;
        if piece > READ_SIZE { piece := READ_SIZE; }
        var n := if answers[next] > piece then piece else answers[next];
        next := next + 1;
        if n <= 0 { break; }
        var taken := Advance(n);
        Regroup(written, taken, Unsent(frames));
        written := written + taken;
      }
    }

    // A TLS write took n bytes of the first frame.
    method Advance(n: nat) returns (taken: Bytes)
      requires Valid() && frames != [] && 1 <= n <= |frames[0].data| - frames[0].offset
      modifies this`frames, this`queued
      ensures Valid() && |taken| == n && old(Unsent(frames)) == taken + Unsent(frames) && queued == old(queued) - n
    {
      hide Unsent;
      var frame := frames[0];
      taken := frame.data[frame.offset..frame.offset + n];
      WriteStep(frames, n);
      frame := frame.(offset := frame.offset + n);
      frames := if frame.offset == |frame.data| then frames[1..] else [frame] + frames[1..];
      queued := queued - n;
    }

    /** append_plain: the messages handed to the callback, and what stays buffered. */
    method AppendPlain(data: Bytes, room: bool) returns (result: int, calls: seq<Message>)
      requires Valid()
      modifies this`plain
      ensures |data| > PLAIN_LIMIT - old(|plain|) || !room ==> result == -1 && calls == [] && plain == old(plain)
      ensures |data| <= PLAIN_LIMIT - old(|plain|) && room ==>
        var x := Extract(old(plain) + data);
        calls == x.messages && (result == 0 <==> x.ok) && (x.ok ==> plain == x.rest)
    {
      calls := [];
      if |data| > PLAIN_LIMIT - |plain| || !room { return -1, []; }
      plain := plain + data;
      var used;
      result, calls, used := HandOut(plain);
      if result == 0 { plain := plain[used..]; }
    }

    // The loop of append_plain over the buffer.
    static method HandOut(buffer: Bytes) returns (result: int, calls: seq<Message>, used: nat)
      ensures used <= |buffer| && calls == Extract(buffer).messages
      ensures result == (if Extract(buffer).ok then 0 else -1)
      ensures result == 0 ==> Extract(buffer).rest == buffer[used..]
    {
      hide Extract;
      calls, used := [], 0;
      ghost var all, more := Extract(buffer), Extract(buffer);
      assert buffer[0..] == buffer;
      AfterNone(all);
      while |buffer| - used >= 4
        invariant used <= |buffer|
        invariant more == Extract(buffer[used..]) && all == After(calls, more)
      {
        var length := GetU32(buffer[used..used + 4]);
        NextCall(buffer, used, length, calls, more);
        if length == 0 || length > MESSAGE_MAX { return -1, calls, used; }
        if |buffer| - used < length + 4 { break; }
        calls := calls + [MessageAt(buffer, used, length)];
        used := used + length + 4;
        more := Extract(buffer[used..]);
      }
      if |buffer| - used < 4 { ExtractShort(buffer[used..]); }
      AfterLast(calls, buffer[used..], true);
      result := 0;
    }
  }
}
