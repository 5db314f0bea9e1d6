/**
 * The connection classes against the plain history of requests: the class that the gate keeps and rewrites is the
 * one that the admitted requests and the open streams of the connection stand for, and its counters count them.
 */
module AdmissionLog {
  import opened Admission

  // One connection: the admitted requests in order, whether anonymous, and the open streams.
  datatype Past = Past(h2: bool, requests: seq<bool>, streams: map<nat, Admitted>)

  type History = map<nat, Past>

  // HTTP/1: the first admitted request decides. HTTP/2: the latest one and the streams still open.
  predicate IsAnonymous(p: Past) {
    p.requests != [] &&
    if p.h2 then p.requests[|p.requests| - 1] || exists x :: x in p.streams && p.streams[x].AsAnonymous?
    else p.requests[0]
  }

  function ClassOf(p: Past): Class {
    if p.requests == [] then Pending else if IsAnonymous(p) then Anonymous else Proved
  }

  function Members(h: History, class_: Class): set<nat> {
    set id | id in h && ClassOf(h[id]) == class_
  }

  // Over HTTP/1 only the first request can be refused, over HTTP/2 any that would make it anonymous.
  predicate Refuses(h: History, id: nat, anonymous: bool)
    requires id in h
  {
    && anonymous && |Members(h, Anonymous)| >= ANONYMOUS_LIMIT
    && if h[id].h2 then !IsAnonymous(h[id]) else h[id].requests == []
  }

  predicate Possible(h: History, e: Event) {
    match e
    case Accept(id, _) => id !in h
    case AdmitH1(id, _) => id in h && !h[id].h2
    case OpenStream(id, stream) => id in h && h[id].h2 && stream !in h[id].streams
    case AdmitH2(id, stream, _) => id in h && h[id].h2 && stream in h[id].streams && h[id].streams[stream].NotYet?
    case CloseStream(id, stream) => id in h && stream in h[id].streams
    case Unref(id) => id in h
  }

  function Kind(anonymous: bool): Admitted {
    if anonymous then AsAnonymous else AsProved
  }

  function Written(h: History, e: Event, limit: nat): History
    requires Possible(h, e)
  {
    match e
    case Accept(id, h2) =>
      if |h| >= limit || |Members(h, Pending)| >= PENDING_LIMIT then h else h[id := Past(h2, [], map[])]
    case AdmitH1(id, anonymous) =>
      if Refuses(h, id, anonymous) then h else h[id := h[id].(requests := h[id].requests + [anonymous])]
    case OpenStream(id, stream) => h[id := h[id].(streams := h[id].streams[stream := NotYet])]
    case AdmitH2(id, stream, anonymous) =>
      if Refuses(h, id, anonymous) then h
      else h[id := h[id].(requests := h[id].requests + [anonymous],
                          streams := h[id].streams[stream := Kind(anonymous)])]
    case CloseStream(id, stream) => h[id := h[id].(streams := h[id].streams - {stream})]
    case Unref(id) => h - {id}
  }

  // The history of some events.
  predicate Tells(h: History, events: seq<Event>, limit: nat, t: History)
    decreases |events|
  {
    if events == [] then h == t
    else Possible(h, events[0]) && Tells(Written(h, events[0], limit), events[1..], limit, t)
  }

  // ----- the gate mirrors the history -----

  predicate FrontMirrors(f: Front, p: Past) {
    && f.h2 == p.h2 && f.streams == p.streams && f.class_ == ClassOf(p)
    && (!f.h2 ==> f.streams == map[])
    && (p.requests == [] ==> forall x :: x in p.streams ==> p.streams[x].NotYet?)
    && (f.h2 && p.requests != [] ==> f.latest == Kind(p.requests[|p.requests| - 1]))
  }

  predicate Mirrors(s: State, h: History) {
    s.fronts.Keys == h.Keys && forall id :: id in h ==> FrontMirrors(s.fronts[id], h[id])
  }

  lemma SameMembers(s: State, h: History)
    requires Inv(s) && Mirrors(s, h)
    ensures s.pending == |Members(h, Pending)| && s.anonymous == |Members(h, Anonymous)| && s.connections == |h|
  {
    assert In(s.fronts, Pending) == Members(h, Pending);
    assert In(s.fronts, Anonymous) == Members(h, Anonymous);
    assert |s.fronts.Keys| == |s.fronts| && |h.Keys| == |h|;
  }

  lemma AnyAnonymous(streams: map<nat, Admitted>)
    ensures AnonymousOf(streams) == {} <==> !exists x :: x in streams && streams[x].AsAnonymous?
    ensures |AnonymousOf(streams)| == 0 <==> AnonymousOf(streams) == {}
  {
    if x :| x in streams && streams[x].AsAnonymous? { assert x in AnonymousOf(streams); }
  }

  lemma MirrorOne(s: State, h: History, id: nat, f: Front, p: Past, connections: int, pending: int, anonymous: int)
    requires Mirrors(s, h) && FrontMirrors(f, p)
    ensures Mirrors(State(s.fronts[id := f], connections, pending, anonymous), h[id := p])
  {
  }

  lemma AdmitH1Mirrors(s: State, h: History, id: nat, anonymous: bool)
    requires Inv(s) && Mirrors(s, h) && Enabled(s, AdmitH1(id, anonymous))
    ensures Mirrors(H1Admitted(s, id, anonymous), Written(h, AdmitH1(id, anonymous), 0))
  {
    SameMembers(s, h);
    var f, p := s.fronts[id], h[id];
    assert FrontMirrors(f, p);
    if !Refuses(h, id, anonymous) {
      var t, q := H1Admitted(s, id, anonymous), p.(requests := p.requests + [anonymous]);
      MirrorOne(s, h, id, t.fronts[id], q, t.connections, t.pending, t.anonymous);
      assert t == State(s.fronts[id := t.fronts[id]], t.connections, t.pending, t.anonymous);
    }
  }

  // The front after an admitted HTTP/2 request.
  lemma H2Front(s: State, id: nat, stream: nat, anonymous: bool, p: Past)
    requires Inv(s) && Enabled(s, AdmitH2(id, stream, anonymous)) && FrontMirrors(s.fronts[id], p)
    requires s.fronts[id].class_ == Anonymous || !anonymous || s.anonymous < ANONYMOUS_LIMIT
    ensures var t := H2Admitted(s, id, stream, anonymous);
      && t == State(s.fronts[id := t.fronts[id]], t.connections, t.pending, t.anonymous)
      && FrontMirrors(t.fronts[id], p.(requests := p.requests + [anonymous],
                                       streams := p.streams[stream := Kind(anonymous)]))
  {
    var f, t := s.fronts[id], H2Admitted(s, id, stream, anonymous);
    assert FrontOk(f);
    AdmitH2Keeps(s, id, stream, anonymous);
    assert FrontOk(t.fronts[id]);
    AnyAnonymous(t.fronts[id].streams);
  }

  lemma AdmitH2Mirrors(s: State, h: History, id: nat, stream: nat, anonymous: bool)
    requires Inv(s) && Mirrors(s, h) && Enabled(s, AdmitH2(id, stream, anonymous))
    ensures Mirrors(H2Admitted(s, id, stream, anonymous), Written(h, AdmitH2(id, stream, anonymous), 0))
  {
    SameMembers(s, h);
    var f, p := s.fronts[id], h[id];
    assert FrontMirrors(f, p);
    if !Refuses(h, id, anonymous) {
      H2Front(s, id, stream, anonymous, p);
      var t := H2Admitted(s, id, stream, anonymous);
      hide H2Admitted, FrontMirrors;
      MirrorOne(s, h, id, t.fronts[id],
                p.(requests := p.requests + [anonymous], streams := p.streams[stream := Kind(anonymous)]),
                t.connections, t.pending, t.anonymous);
    }
  }

  lemma CloseFront(s: State, id: nat, stream: nat, p: Past)
    requires Inv(s) && Enabled(s, CloseStream(id, stream)) && FrontMirrors(s.fronts[id], p)
    ensures var t := StreamClosed(s, id, stream);
      && t == State(s.fronts[id := t.fronts[id]], t.connections, t.pending, t.anonymous)
      && FrontMirrors(t.fronts[id], p.(streams := p.streams - {stream}))
  {
    var f, t := s.fronts[id], StreamClosed(s, id, stream);
    CloseKeeps(s, id, stream);
    assert FrontOk(f) && FrontOk(t.fronts[id]);
    AnyAnonymous(f.streams);
    AnyAnonymous(t.fronts[id].streams);
  }

  lemma CloseMirrors(s: State, h: History, id: nat, stream: nat)
    requires Inv(s) && Mirrors(s, h) && Enabled(s, CloseStream(id, stream))
    ensures Mirrors(StreamClosed(s, id, stream), Written(h, CloseStream(id, stream), 0))
  {
    var p, t := h[id], StreamClosed(s, id, stream);
    CloseFront(s, id, stream, p);
    hide StreamClosed, FrontMirrors;
    MirrorOne(s, h, id, t.fronts[id], p.(streams := p.streams - {stream}), t.connections, t.pending, t.anonymous);
  }

  lemma OpenMirrors(s: State, h: History, id: nat, stream: nat)
    requires Mirrors(s, h) && Enabled(s, OpenStream(id, stream))
    ensures Mirrors(Apply(s, OpenStream(id, stream), 0), Written(h, OpenStream(id, stream), 0))
  {
    var f, p := s.fronts[id], h[id];
    var g, q := f.(streams := f.streams[stream := NotYet]), p.(streams := p.streams[stream := NotYet]);
    assert FrontMirrors(f, p);
    assert forall x :: x in p.streams && p.streams[x].AsAnonymous? ==> x in q.streams && q.streams[x].AsAnonymous?;
    assert forall x :: x in q.streams && q.streams[x].AsAnonymous? ==> x in p.streams && p.streams[x].AsAnonymous?;
    MirrorOne(s, h, id, g, q, s.connections, s.pending, s.anonymous);
  }

  lemma StepMirrors(s: State, h: History, e: Event, limit: nat)
    requires Inv(s) && Mirrors(s, h) && Enabled(s, e)
    ensures Possible(h, e) && Mirrors(Apply(s, e, limit), Written(h, e, limit))
  {
    StepPossible(s, h, e);
    hide H1Admitted, H2Admitted, StreamClosed, Refuses, ClassOf;
    match e
    case Accept(id, h2) => AcceptMirrors(s, h, id, h2, limit);
    case AdmitH1(id, anonymous) => AdmitH1Mirrors(s, h, id, anonymous);
    case OpenStream(id, stream) => OpenMirrors(s, h, id, stream);
    case AdmitH2(id, stream, anonymous) => AdmitH2Mirrors(s, h, id, stream, anonymous);
    case CloseStream(id, stream) => CloseMirrors(s, h, id, stream);
    case Unref(id) =>
  }

  lemma AcceptMirrors(s: State, h: History, id: nat, h2: bool, limit: nat)
    requires Inv(s) && Mirrors(s, h) && id !in h
    ensures Mirrors(Accepted(s, id, h2, limit), Written(h, Accept(id, h2), limit))
  {
    SameMembers(s, h);
  }

  lemma StepPossible(s: State, h: History, e: Event)
    requires Mirrors(s, h) && Enabled(s, e)
    ensures Possible(h, e)
  {
    assert !e.Accept? ==> FrontMirrors(s.fronts[e.id], h[e.id]);
  }

  // The history of a run, from any point on.
  lemma {:induction false} RunTold(s: State, h: History, events: seq<Event>, limit: nat, t: State)
    requires Inv(s) && Mirrors(s, h) && Runs(s, events, limit, t)
    ensures exists end :: Tells(h, events, limit, end) && Inv(t) && Mirrors(t, end)
    decreases |events|
  {
    if events == [] {
      assert Tells(h, events, limit, h);
    } else {
      var e := events[0];
      StepKeeps(s, e, limit);
      StepMirrors(s, h, e, limit);
      hide Inv, Mirrors, Apply, Written;
      RunTold(Apply(s, e, limit), Written(h, e, limit), events[1..], limit, t);
      var end :| Tells(Written(h, e, limit), events[1..], limit, end) && Inv(t) && Mirrors(t, end);
      assert Tells(h, events, limit, end);
    }
  }

  // The gate's classes and counters are what a history says.
  ghost predicate Reads(t: State, h: History) {
    && t.fronts.Keys == h.Keys
    && (forall id :: id in h ==> t.fronts[id].h2 == h[id].h2 && t.fronts[id].class_ == ClassOf(h[id]))
    && t.connections == |h| && t.pending == |Members(h, Pending)| && t.anonymous == |Members(h, Anonymous)|
  }

  lemma MirrorsRead(t: State, h: History)
    requires Inv(t) && Mirrors(t, h)
    ensures Reads(t, h)
  {
    SameMembers(t, h);
    assert forall id :: id in h ==> FrontMirrors(t.fronts[id], h[id]);
  }

  /** In every run the connections are those that were accepted and not freed; each is in the class
      that its admitted requests and open streams stand for; and the counters count the classes. */
  lemma GateRefines(events: seq<Event>, limit: nat, t: State)
    requires Runs(START, events, limit, t)
    ensures exists h :: Tells(map[], events, limit, h) && Reads(t, h)
  {
    StartOk();
    RunTold(START, map[], events, limit, t);
    var h :| Tells(map[], events, limit, h) && Inv(t) && Mirrors(t, h);
    MirrorsRead(t, h);
  }

  // Requests are only ever added, until the connection is freed.
  lemma PastGrows(h: History, e: Event, limit: nat, id: nat)
    requires Possible(h, e) && id in h && e != Unref(id)
    ensures var next := Written(h, e, limit);
      id in next && next[id].h2 == h[id].h2 && h[id].requests <= next[id].requests
  {
  }

  lemma {:induction false} PastGrowsOn(h: History, events: seq<Event>, limit: nat, end: History, id: nat)
    requires Tells(h, events, limit, end) && id in h && Unref(id) !in events
    ensures id in end && end[id].h2 == h[id].h2 && h[id].requests <= end[id].requests
    decreases |events|
  {
    if events != [] {
      PastGrows(h, events[0], limit, id);
      PastGrowsOn(Written(h, events[0], limit), events[1..], limit, end, id);
    }
  }

  /** An HTTP/1 connection that has left the pending class stays in the class its first admitted
      request gave it for as long as it lives. */
  lemma FirstRequestDecides(before: seq<Event>, s: State, after: seq<Event>, limit: nat, t: State, id: nat)
    requires Runs(START, before, limit, s) && Runs(s, after, limit, t)
    requires id in s.fronts && !s.fronts[id].h2 && s.fronts[id].class_ != Pending && Unref(id) !in after
    ensures id in t.fronts && t.fronts[id].class_ == s.fronts[id].class_
  {
    hide *;
    StartOk();
    StartMirrors();
    RunTold(START, map[], before, limit, s);
    var h :| Tells(map[], before, limit, h) && Inv(s) && Mirrors(s, h);
    RunTold(s, h, after, limit, t);
    var end :| Tells(h, after, limit, end) && Inv(t) && Mirrors(t, end);
    MirrorsOne(s, h, id);
    PastGrowsOn(h, after, limit, end, id);
    MirrorsOne(t, end, id);
    SameClass(h[id], end[id]);
  }

  lemma StartMirrors()
    ensures Mirrors(START, map[])
  {
  }

  lemma MirrorsOne(s: State, h: History, id: nat)
    requires Mirrors(s, h)
    ensures id in s.fronts <==> id in h
    ensures id in h ==> s.fronts[id].h2 == h[id].h2 && s.fronts[id].class_ == ClassOf(h[id])
  {
    assert id in h ==> FrontMirrors(s.fronts[id], h[id]);
  }

  lemma SameClass(p: Past, q: Past)
    requires !p.h2 && !q.h2 && p.requests <= q.requests && ClassOf(p) != Pending
    ensures ClassOf(q) == ClassOf(p)
  {
  }
}
