/** Which class each TLS connection is in: pending, anonymous or admitted; and the two
    counters that bound the first two classes. */
module Admission {

  const ANONYMOUS_LIMIT := 192
  const PENDING_LIMIT := 32

  datatype Class = Pending | Anonymous | Proved

  datatype Admitted = NotYet | AsAnonymous | AsProved

  // One connection: its class, its HTTP/2 streams, how many of them were admitted as
  // anonymous, and the class of the latest admitted request.
  datatype Front = Front(h2: bool, class_: Class, streams: map<nat, Admitted>, anonymousStreams: int, latest: Admitted)

  datatype State = State(fronts: map<nat, Front>, connections: int, pending: int, anonymous: int)

  datatype Event =
    | Accept(id: nat, h2: bool)
    | AdmitH1(id: nat, anonymous: bool)
    | OpenStream(id: nat, stream: nat)
    | AdmitH2(id: nat, stream: nat, anonymous: bool)
    | CloseStream(id: nat, stream: nat)
    | Unref(id: nat)

  // A new connection is new, a request belongs to a live connection of its protocol, and
  // a stream is opened, admitted at most once, and closed.
  predicate Enabled(s: State, e: Event) {
    match e
    case Accept(id, _) => id !in s.fronts
    case AdmitH1(id, _) => id in s.fronts && !s.fronts[id].h2
    case OpenStream(id, stream) => id in s.fronts && s.fronts[id].h2 && stream !in s.fronts[id].streams
    case AdmitH2(id, stream, _) =>
      id in s.fronts && s.fronts[id].h2 && stream in s.fronts[id].streams && s.fronts[id].streams[stream].NotYet?
    case CloseStream(id, stream) => id in s.fronts && stream in s.fronts[id].streams
    case Unref(id) => id in s.fronts
  }

  // ankah_frontend_accept
  function Accepted(s: State, id: nat, h2: bool, limit: nat): State {
    if s.connections >= limit || s.pending >= PENDING_LIMIT then s
    else State(s.fronts[id := Front(h2, Pending, map[], 0, NotYet)], s.connections + 1, s.pending + 1, s.anonymous)
  }

  // The class part of send_h1_header.
  function H1Admitted(s: State, id: nat, anonymous: bool): State
    requires id in s.fronts
  {
    var f := s.fronts[id];
    if f.class_ != Pending || (anonymous && s.anonymous >= ANONYMOUS_LIMIT) then s
    else
      State(s.fronts[id := f.(class_ := if anonymous then Anonymous else Proved)], s.connections, s.pending - 1,
            if anonymous then s.anonymous + 1 else s.anonymous)
  }

  // The class part of h2_on_frame_recv.
  function H2Admitted(s: State, id: nat, stream: nat, anonymous: bool): State
    requires id in s.fronts
  {
    var f := s.fronts[id];
    if f.class_ != Anonymous && anonymous && s.anonymous >= ANONYMOUS_LIMIT then s
    else
      var (class_, pending, total) :=
        if f.class_ == Pending then
          (if anonymous then Anonymous else Proved, s.pending - 1, if anonymous then s.anonymous + 1 else s.anonymous)
        else if anonymous && f.class_ == Proved then (Anonymous, s.pending, s.anonymous + 1)
        else if !anonymous && f.class_ == Anonymous && f.anonymousStreams == 0 then (Proved, s.pending, s.anonymous - 1)
        else (f.class_, s.pending, s.anonymous);
      var g := f.(class_ := class_, latest := if anonymous then AsAnonymous else AsProved,
                  streams := f.streams[stream := if anonymous then AsAnonymous else AsProved],
                  anonymousStreams := if anonymous then f.anonymousStreams + 1 else f.anonymousStreams);
      State(s.fronts[id := g], s.connections, pending, total)
  }

  // The class part of h2_on_stream_close.
  function StreamClosed(s: State, id: nat, stream: nat): State
    requires id in s.fronts && stream in s.fronts[id].streams
  {
    var f := s.fronts[id];
    var g := f.(streams := f.streams - {stream});
    if !f.streams[stream].AsAnonymous? then s.(fronts := s.fronts[id := g])
    else
      var h := g.(anonymousStreams := f.anonymousStreams - 1);
      if h.anonymousStreams == 0 && f.class_ == Anonymous && f.latest == AsProved then
        s.(fronts := s.fronts[id := h.(class_ := Proved)], anonymous := s.anonymous - 1)
      else s.(fronts := s.fronts[id := h])
  }

  // The last reference of front_unref.
  function Unreferenced(s: State, id: nat): State
    requires id in s.fronts
  {
    var f := s.fronts[id];
    State(s.fronts - {id}, s.connections - 1, if f.class_ == Pending then s.pending - 1 else s.pending,
          if f.class_ == Anonymous then s.anonymous - 1 else s.anonymous)
  }

  function Apply(s: State, e: Event, limit: nat): State
    requires Enabled(s, e)
  {
    match e
    case Accept(id, h2) => Accepted(s, id, h2, limit)
    case AdmitH1(id, anonymous) => H1Admitted(s, id, anonymous)
    case OpenStream(id, stream) =>
      s.(fronts := s.fronts[id := s.fronts[id].(streams := s.fronts[id].streams[stream := NotYet])])
    case AdmitH2(id, stream, anonymous) => H2Admitted(s, id, stream, anonymous)
    case CloseStream(id, stream) => StreamClosed(s, id, stream)
    case Unref(id) => Unreferenced(s, id)
  }

  predicate Runs(s: State, events: seq<Event>, limit: nat, t: State)
    decreases |events|
  {
    if events == [] then s == t
    else Enabled(s, events[0]) && Runs(Apply(s, events[0], limit), events[1..], limit, t)
  }

  const START := State(map[], 0, 0, 0)

  // ----- what every run keeps -----

  function In(fronts: map<nat, Front>, class_: Class): set<nat> {
    set id | id in fronts && fronts[id].class_ == class_
  }

  function AnonymousOf(streams: map<nat, Admitted>): set<nat> {
    set x | x in streams && streams[x].AsAnonymous?
  }

  predicate FrontOk(f: Front) {
    && f.anonymousStreams == |AnonymousOf(f.streams)|
    && (f.class_ == Pending ==> f.latest.NotYet? && AnonymousOf(f.streams) == {})
    && (f.h2 && f.class_ != Pending ==>
        !f.latest.NotYet? && (f.class_ == Anonymous <==> AnonymousOf(f.streams) != {} || f.latest.AsAnonymous?))
  }

  predicate Inv(s: State) {
    && s.connections == |s.fronts|
    && s.pending == |In(s.fronts, Pending)| <= PENDING_LIMIT
    && s.anonymous == |In(s.fronts, Anonymous)| <= ANONYMOUS_LIMIT
    && forall id :: id in s.fronts ==> FrontOk(s.fronts[id])
  }

  // One connection rewritten: each class loses it if it was there and gains it if it is.
  lemma InUpdate(fronts: map<nat, Front>, id: nat, f: Front, class_: Class)
    ensures |In(fronts[id := f], class_)| ==
      |In(fronts, class_)| - (if id in fronts && fronts[id].class_ == class_ then 1 else 0)
        + if f.class_ == class_ then 1 else 0
  {
    var before, after := In(fronts, class_), In(fronts[id := f], class_);
    assert before - {id} == after - {id};
    if id in before { assert before == (before - {id}) + {id}; } else { assert before == before - {id}; }
    if id in after { assert after == (after - {id}) + {id}; } else { assert after == after - {id}; }
  }

  lemma InRemove(fronts: map<nat, Front>, id: nat, class_: Class)
    requires id in fronts
    ensures |In(fronts - {id}, class_)| == |In(fronts, class_)| - if fronts[id].class_ == class_ then 1 else 0
    ensures |fronts - {id}| == |fronts| - 1
  {
    assert In(fronts - {id}, class_) == In(fronts, class_) - {id};
    assert (fronts - {id}).Keys == fronts.Keys - {id};
    assert |fronts - {id}| == |(fronts - {id}).Keys| && |fronts| == |fronts.Keys|;
  }

  lemma SizeUpdate(fronts: map<nat, Front>, id: nat, f: Front)
    ensures |fronts[id := f]| == |fronts| + if id in fronts then 0 else 1
  {
    assert fronts[id := f].Keys == fronts.Keys + {id};
    assert |fronts[id := f]| == |fronts[id := f].Keys| && |fronts| == |fronts.Keys|;
  }

  lemma RewriteKeeps(s: State, id: nat, f: Front, pending: int, anonymous: int)
    requires Inv(s) && id in s.fronts && FrontOk(f)
    requires pending == s.pending - (if s.fronts[id].class_ == Pending then 1 else 0)
      + if f.class_ == Pending then 1 else 0
    requires anonymous == s.anonymous - (if s.fronts[id].class_ == Anonymous then 1 else 0)
      + if f.class_ == Anonymous then 1 else 0
    requires pending <= PENDING_LIMIT && anonymous <= ANONYMOUS_LIMIT
    ensures Inv(State(s.fronts[id := f], s.connections, pending, anonymous))
  {
    InUpdate(s.fronts, id, f, Pending);
    InUpdate(s.fronts, id, f, Anonymous);
    SizeUpdate(s.fronts, id, f);
  }

  lemma StreamSet(streams: map<nat, Admitted>, x: nat, a: Admitted)
    ensures AnonymousOf(streams[x := a]) == AnonymousOf(streams) - {x} + if a.AsAnonymous? then {x} else {}
    ensures AnonymousOf(streams - {x}) == AnonymousOf(streams) - {x}
    ensures x !in AnonymousOf(streams) ==> AnonymousOf(streams) - {x} == AnonymousOf(streams)
  {
  }

  lemma AcceptKeeps(s: State, id: nat, h2: bool, limit: nat)
    requires Inv(s) && id !in s.fronts
    ensures Inv(Accepted(s, id, h2, limit))
  {
    var f := Front(h2, Pending, map[], 0, NotYet);
    assert AnonymousOf(f.streams) == {};
    InUpdate(s.fronts, id, f, Pending);
    InUpdate(s.fronts, id, f, Anonymous);
    SizeUpdate(s.fronts, id, f);
  }

  lemma AdmitH1Keeps(s: State, id: nat, anonymous: bool)
    requires Inv(s) && Enabled(s, AdmitH1(id, anonymous))
    ensures Inv(H1Admitted(s, id, anonymous))
  {
    var f := s.fronts[id];
    if f.class_ == Pending && (anonymous ==> s.anonymous < ANONYMOUS_LIMIT) {
      RewriteKeeps(s, id, f.(class_ := if anonymous then Anonymous else Proved), s.pending - 1,
                   if anonymous then s.anonymous + 1 else s.anonymous);
    }
  }

  lemma AdmitH2Keeps(s: State, id: nat, stream: nat, anonymous: bool)
    requires Inv(s) && Enabled(s, AdmitH2(id, stream, anonymous))
    ensures Inv(H2Admitted(s, id, stream, anonymous))
  {
    var f := s.fronts[id];
    if f.class_ == Anonymous || !anonymous || s.anonymous < ANONYMOUS_LIMIT {
      assert FrontOk(f);
      StreamSet(f.streams, stream, if anonymous then AsAnonymous else AsProved);
      var t := H2Admitted(s, id, stream, anonymous);
      RewriteKeeps(s, id, t.fronts[id], t.pending, t.anonymous);
    }
  }

  lemma CloseKeeps(s: State, id: nat, stream: nat)
    requires Inv(s) && Enabled(s, CloseStream(id, stream))
    ensures Inv(StreamClosed(s, id, stream))
  {
    var f := s.fronts[id];
    assert FrontOk(f);
    StreamSet(f.streams, stream, NotYet);
    var t := StreamClosed(s, id, stream);
    RewriteKeeps(s, id, t.fronts[id], t.pending, t.anonymous);
  }

  lemma StepKeeps(s: State, e: Event, limit: nat)
    requires Inv(s) && Enabled(s, e)
    ensures Inv(Apply(s, e, limit))
  {
    match e
    case Accept(id, h2) => AcceptKeeps(s, id, h2, limit);
    case AdmitH1(id, anonymous) => AdmitH1Keeps(s, id, anonymous);
    case OpenStream(id, stream) =>
      StreamSet(s.fronts[id].streams, stream, NotYet);
      RewriteKeeps(s, id, s.fronts[id].(streams := s.fronts[id].streams[stream := NotYet]), s.pending, s.anonymous);
    case AdmitH2(id, stream, anonymous) => AdmitH2Keeps(s, id, stream, anonymous);
    case CloseStream(id, stream) => CloseKeeps(s, id, stream);
    case Unref(id) =>
      InRemove(s.fronts, id, Pending);
      InRemove(s.fronts, id, Anonymous);
  }

  lemma {:induction false} RunKeeps(s: State, events: seq<Event>, limit: nat, t: State)
    requires Inv(s) && Runs(s, events, limit, t)
    ensures Inv(t)
    decreases |events|
  {
    if events != [] {
      StepKeeps(s, events[0], limit);
      RunKeeps(Apply(s, events[0], limit), events[1..], limit, t);
    }
  }

  lemma StartOk()
    ensures Inv(START)
  {
    assert In(map[], Pending) == {} && In(map[], Anonymous) == {};
  }

  /** In every reachable state the two counters are exactly the pending and the anonymous
      connections, and stay within their limits. */
  lemma CountersExact(events: seq<Event>, limit: nat, t: State)
    requires Runs(START, events, limit, t)
    ensures t.pending == |In(t.fronts, Pending)| <= PENDING_LIMIT
    ensures t.anonymous == |In(t.fronts, Anonymous)| <= ANONYMOUS_LIMIT && t.connections == |t.fronts|
  {
    StartOk();
    RunKeeps(START, events, limit, t);
  }

  /** An HTTP/2 connection is in the anonymous class exactly when it has a live anonymous
      stream or its latest admitted request was anonymous. */
  lemma AnonymousWhen(events: seq<Event>, limit: nat, t: State, id: nat)
    requires Runs(START, events, limit, t) && id in t.fronts && t.fronts[id].h2
    ensures var f := t.fronts[id];
      f.class_ == Anonymous <==> (exists x :: x in f.streams && f.streams[x].AsAnonymous?) || f.latest.AsAnonymous?
  {
    StartOk();
    RunKeeps(START, events, limit, t);
    var f := t.fronts[id];
    assert FrontOk(f);
    if AnonymousOf(f.streams) != {} {
      var x :| x in AnonymousOf(f.streams);
      assert x in f.streams && f.streams[x].AsAnonymous?;
    } else {
      assert forall x :: x in f.streams && f.streams[x].AsAnonymous? ==> x in AnonymousOf(f.streams);
    }
  }

  // ----- the callbacks -----

  /** The `frontend` counters and the connections they count. */
  class Gate {
    var fronts: map<nat, Front>
    var connections: int
    var pending: int
    var anonymous: int

    function View(): State
      reads this
    {
      State(fronts, connections, pending, anonymous)
    }

    constructor ()
      ensures View() == START
    {
      fronts, connections, pending, anonymous := map[], 0, 0, 0;
    }

    /** ankah_frontend_accept */
    method AcceptConnection(id: nat, h2: bool, limit: nat) returns (accepted: bool)
      modifies this
      ensures View() == Accepted(old(View()), id, h2, limit)
      ensures accepted <==> old(connections) < limit && old(pending) < PENDING_LIMIT
    {
      if connections >= limit || pending >= PENDING_LIMIT { return false; }
      connections := connections + 1;
      pending := pending + 1;
      fronts := fronts[id := Front(h2, Pending, map[], 0, NotYet)];
      accepted := true;
    }

    /** send_h1_header */
    method SendH1Header(id: nat, anonymousRequest: bool) returns (rejected: bool)
      requires id in fronts
      modifies this
      ensures View() == H1Admitted(old(View()), id, anonymousRequest)
      ensures rejected <==> old(fronts)[id].class_ == Pending && anonymousRequest && old(anonymous) >= ANONYMOUS_LIMIT
    {
      rejected := false;
      var f := fronts[id];
      if f.class_ == Pending {
        if anonymousRequest && anonymous >= ANONYMOUS_LIMIT { return true; }
        pending := pending - 1;
        f := f.(class_ := if anonymousRequest then Anonymous else Proved);
        if anonymousRequest { anonymous := anonymous + 1; }
        fronts := fronts[id := f];
      }
    }

    /** h2_on_frame_recv, for the headers of a request. */
    method OnRequestHeaders(id: nat, stream: nat, anonymousRequest: bool) returns (rejected: bool)
      requires id in fronts
      modifies this
      ensures View() == H2Admitted(old(View()), id, stream, anonymousRequest)
      ensures rejected <==> old(fronts)[id].class_ != Anonymous && anonymousRequest && old(anonymous) >= ANONYMOUS_LIMIT
    {
      var f := fronts[id];
      if f.class_ != Anonymous && anonymousRequest && anonymous >= ANONYMOUS_LIMIT { return true; }
      if f.class_ == Pending {
        pending := pending - 1;
        f := f.(class_ := if anonymousRequest then Anonymous else Proved);
        if anonymousRequest { anonymous := anonymous + 1; }
      } else if anonymousRequest && f.class_ == Proved {
        f := f.(class_ := Anonymous);
        anonymous := anonymous + 1;
      } else if !anonymousRequest && f.class_ == Anonymous && f.anonymousStreams == 0 {
        anonymous := anonymous - 1;
        f := f.(class_ := Proved);
      }
      f := f.(latest := if anonymousRequest then AsAnonymous else AsProved);
      if anonymousRequest { f := f.(anonymousStreams := f.anonymousStreams + 1); }
      f := f.(streams := f.streams[stream := if anonymousRequest then AsAnonymous else AsProved]);
      fronts := fronts[id := f];
      rejected := false;
    }

    /** h2_on_stream_close */
    method OnStreamClose(id: nat, stream: nat)
      requires id in fronts && stream in fronts[id].streams
      modifies this
      ensures View() == StreamClosed(old(View()), id, stream)
    {
      var f := fronts[id];
      var was := f.streams[stream];
      f := f.(streams := f.streams - {stream});
      if was.AsAnonymous? {
        f := f.(anonymousStreams := f.anonymousStreams - 1);
        if f.anonymousStreams == 0 && f.class_ == Anonymous && f.latest == AsProved {
          anonymous := anonymous - 1;
          f := f.(class_ := Proved);
        }
      }
      fronts := fronts[id := f];
    }

    /** The end of front_unref. */
    method Forget(id: nat)
      requires id in fronts
      modifies this
      ensures View() == Unreferenced(old(View()), id)
    {
      var f := fronts[id];
      connections := connections - 1;
      if f.class_ == Pending { pending := pending - 1; } else if f.class_ == Anonymous { anonymous := anonymous - 1; }
      fronts := fronts - {id};
    }
  }
}
