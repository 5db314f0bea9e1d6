/** What every operation on the session table keeps: exact byte accounting, exact pin
    counts, the admission caps, and the contents of complete payloads. */
module SessionSafety {
  import opened Options
  import opened Bytes
  import opened Sessions

  // ----- the invariant -----

  function PinsOf(heap: map<nat, Payload>, p: nat): nat {
    if p in heap then heap[p].pins else 0
  }

  // A payload's pins are its owner and its outside holders; it exists while it has any.
  ghost predicate Pinned(t: Table) {
    && (forall p: nat :: Count(t.sessions, OwnerOf(p)) + t.pinned[p] == PinsOf(t.heap, p))
    && (forall p :: p in t.heap ==> t.heap[p].pins > 0)
  }

  function CostSum(sessions: seq<Session>, heap: map<nat, Payload>): nat {
    if sessions == [] then 0
    else CostSum(sessions[..|sessions| - 1], heap) + Cost(heap, sessions[|sessions| - 1].saved)
  }

  predicate Accounted(t: Table) {
    t.pending == CostSum(t.sessions, t.heap) <= PENDING_BYTES
  }

  predicate Sound(p: Payload) {
    |p.body| <= p.size <= REPLAY_MAX && |p.request| == REQUEST_SIZE
  }

  ghost predicate Filled(heap: map<nat, Payload>) {
    forall p :: p in heap ==> Sound(heap[p])
  }

  // Only an active session has a saved POST.
  predicate Shaped(s: Session) {
    !s.active ==> s.saved.None?
  }

  predicate AllShaped(sessions: seq<Session>) {
    forall i :: 0 <= i < |sessions| ==> Shaped(sessions[i])
  }

  // Bounds on the unsolved sessions that were issued without proof: the program's own caps,
  // or wider ones after a restore, which brings sessions back without counting them.
  datatype Caps = Caps(total: nat, perPeer: nat)

  const OWN_CAPS := Caps(UNSOLVED, UNSOLVED_PER_PEER)
  const RESTORED_CAPS := Caps(CAPACITY, CAPACITY)

  ghost predicate Capped(caps: Caps, sessions: seq<Session>) {
    && UNSOLVED <= caps.total && UNSOLVED_PER_PEER <= caps.perPeer
    && Count(sessions, Unsolved) <= caps.total
    && forall peer :: Count(sessions, UnsolvedFrom(peer)) <= caps.perPeer
  }

  ghost predicate Inv(caps: Caps, t: Table) {
    && |t.sessions| == CAPACITY
    && Pinned(t) && Accounted(t) && Filled(t.heap) && AllShaped(t.sessions) && Capped(caps, t.sessions)
  }

  // ----- counting -----

  function One(s: Session, q: Query): nat {
    if Satisfies(s, q) then 1 else 0
  }

  lemma {:induction false} CountUpdate(sessions: seq<Session>, i: nat, s: Session, q: Query)
    requires i < |sessions|
    ensures Count(sessions[i := s], q) == Count(sessions, q) - One(sessions[i], q) + One(s, q)
    ensures Count(sessions, q) >= One(sessions[i], q)
    decreases |sessions|
  {
    var n := |sessions| - 1;
    if i < n {
      CountUpdate(sessions[..n], i, s, q);
      assert sessions[i := s][..n] == sessions[..n][i := s];
    } else {
      assert sessions[i := s][..n] == sessions[..n];
    }
  }

  lemma {:induction false} CostUpdate(sessions: seq<Session>, i: nat, s: Session, heap: map<nat, Payload>)
    requires i < |sessions|
    ensures CostSum(sessions[i := s], heap) ==
      CostSum(sessions, heap) - Cost(heap, sessions[i].saved) + Cost(heap, s.saved)
    ensures CostSum(sessions, heap) >= Cost(heap, sessions[i].saved)
    decreases |sessions|
  {
    var n := |sessions| - 1;
    if i < n {
      CostUpdate(sessions[..n], i, s, heap);
      assert sessions[i := s][..n] == sessions[..n][i := s];
    } else {
      assert sessions[i := s][..n] == sessions[..n];
    }
  }

  lemma {:induction false} CostFrame(sessions: seq<Session>, heap: map<nat, Payload>, other: map<nat, Payload>)
    requires forall i :: 0 <= i < |sessions| ==> Cost(heap, sessions[i].saved) == Cost(other, sessions[i].saved)
    ensures CostSum(sessions, heap) == CostSum(sessions, other)
    decreases |sessions|
  {
    if sessions != [] { CostFrame(sessions[..|sessions| - 1], heap, other); }
  }

  // ----- rewriting one session without touching payloads -----

  // The new session counts for no cap that the old one did not count for.
  predicate NoMoreUnsolved(before: Session, after: Session) {
    Satisfies(after, Unsolved) ==> Satisfies(before, Unsolved) && after.texts.peer == before.texts.peer
  }

  lemma CappedUpdate(caps: Caps, sessions: seq<Session>, i: nat, s: Session)
    requires i < |sessions| && Capped(caps, sessions) && NoMoreUnsolved(sessions[i], s)
    ensures Capped(caps, sessions[i := s])
  {
    CountUpdate(sessions, i, s, Unsolved);
    forall peer ensures Count(sessions[i := s], UnsolvedFrom(peer)) <= caps.perPeer {
      CountUpdate(sessions, i, s, UnsolvedFrom(peer));
    }
  }

  lemma RewriteKeeps(caps: Caps, t: Table, i: nat, s: Session, m: nat)
    requires Inv(caps, t) && i < |t.sessions| && s.saved == t.sessions[i].saved
    requires Shaped(s) && NoMoreUnsolved(t.sessions[i], s)
    ensures Inv(caps, t.(sessions := t.sessions[i := s], mutation := m))
  {
    forall p: nat ensures Count(t.sessions[i := s], OwnerOf(p)) == Count(t.sessions, OwnerOf(p)) {
      CountUpdate(t.sessions, i, s, OwnerOf(p));
    }
    CostUpdate(t.sessions, i, s, t.heap);
    CappedUpdate(caps, t.sessions, i, s);
  }

  // ----- letting payloads go -----

  lemma UnpinPins(heap: map<nat, Payload>, p: nat)
    requires forall q :: q in heap ==> heap[q].pins > 0
    ensures forall q: nat :: PinsOf(Unpin(heap, p), q) == PinsOf(heap, q) - if q == p && p in heap then 1 else 0
    ensures forall q :: q in Unpin(heap, p) ==> Unpin(heap, p)[q].pins > 0
    ensures Filled(heap) ==> Filled(Unpin(heap, p))
  {
  }

  lemma UnpinCost(sessions: seq<Session>, heap: map<nat, Payload>, p: nat)
    requires p in heap && heap[p].pins > 0 && (heap[p].pins == 1 ==> Count(sessions, OwnerOf(p)) == 0)
    ensures CostSum(sessions, Unpin(heap, p)) == CostSum(sessions, heap)
  {
    forall i | 0 <= i < |sessions| ensures Cost(heap, sessions[i].saved) == Cost(Unpin(heap, p), sessions[i].saved) {
      CountUpdate(sessions, i, sessions[i], OwnerOf(p));
    }
    CostFrame(sessions, heap, Unpin(heap, p));
  }

  lemma ReleasePins(t: Table, i: nat)
    requires Pinned(t) && i < |t.sessions| && t.sessions[i].saved.Some?
    ensures Pinned(Release(t, i)) && t.sessions[i].saved.value in t.heap
  {
    var s, p := t.sessions[i], t.sessions[i].saved.value;
    CountUpdate(t.sessions, i, Emptied(s), OwnerOf(p));
    assert p in t.heap;
    UnpinPins(t.heap, p);
    forall q: nat
      ensures Count(t.sessions[i := Emptied(s)], OwnerOf(q)) == Count(t.sessions, OwnerOf(q)) - if q == p then 1 else 0
    {
      CountUpdate(t.sessions, i, Emptied(s), OwnerOf(q));
    }
  }

  lemma ReleaseCost(t: Table, i: nat)
    requires Pinned(t) && Accounted(t) && i < |t.sessions| && t.sessions[i].saved.Some?
    ensures Accounted(Release(t, i))
  {
    var s, p := t.sessions[i], t.sessions[i].saved.value;
    var after := t.sessions[i := Emptied(s)];
    CostUpdate(t.sessions, i, Emptied(s), t.heap);
    CountUpdate(t.sessions, i, Emptied(s), OwnerOf(p));
    UnpinCost(after, t.heap, p);
  }

  lemma ReleaseKeeps(caps: Caps, t: Table, i: nat)
    requires Inv(caps, t) && i < |t.sessions|
    ensures Inv(caps, Release(t, i)) && Release(t, i).sessions[i].saved.None?
  {
    if t.sessions[i].saved.Some? {
      ReleasePins(t, i);
      ReleaseCost(t, i);
      UnpinPins(t.heap, t.sessions[i].saved.value);
      CappedUpdate(caps, t.sessions, i, Emptied(t.sessions[i]));
    }
  }

  lemma DiscardKeeps(caps: Caps, t: Table, i: nat)
    requires Inv(caps, t) && i < |t.sessions|
    ensures Inv(caps, Discard(t, i))
  {
    ReleaseKeeps(caps, t, i);
    RewriteKeeps(caps, Release(t, i), i, Blank(), Discard(t, i).mutation);
  }

  lemma ExpireKeeps(caps: Caps, t: Table, i: nat, now: nat)
    requires Inv(caps, t) && i < |t.sessions|
    ensures Inv(caps, Expire(t, i, now))
  {
    DiscardKeeps(caps, t, i);
    ReleaseKeeps(caps, t, i);
  }

  lemma {:induction false} ExpireFirstKeeps(caps: Caps, t: Table, now: nat, n: nat)
    requires Inv(caps, t) && n <= |t.sessions|
    ensures Inv(caps, ExpireFirst(t, now, n))
    decreases n
  {
    if n > 0 {
      ExpireFirstKeeps(caps, t, now, n - 1);
      ExpireKeeps(caps, ExpireFirst(t, now, n - 1), n - 1, now);
    }
  }

  lemma {:induction false} FindFromKeeps(caps: Caps, t: Table, id: Bytes, now: nat, i: nat)
    requires Inv(caps, t) && i <= |t.sessions|
    ensures Inv(caps, FindFrom(t, id, now, i).0)
    decreases |t.sessions| - i
  {
    if i < |t.sessions| {
      ExpireKeeps(caps, t, i, now);
      ExpireShape(t, i, now);
      FindFromKeeps(caps, Expire(t, i, now), id, now, i + 1);
    }
  }

  lemma {:induction false} FreeFromKeeps(caps: Caps, t: Table, now: nat, i: nat)
    requires Inv(caps, t) && i <= |t.sessions|
    ensures Inv(caps, FreeFrom(t, now, i).0)
    decreases |t.sessions| - i
  {
    if i < |t.sessions| {
      ExpireKeeps(caps, t, i, now);
      ExpireShape(t, i, now);
      FreeFromKeeps(caps, Expire(t, i, now), now, i + 1);
    }
  }

  lemma {:induction false} DiscardSavedKeeps(caps: Caps, t: Table, n: nat)
    requires Inv(caps, t) && n <= |t.sessions|
    ensures Inv(caps, DiscardSaved(t, n))
    decreases n
  {
    if n > 0 {
      DiscardSavedKeeps(caps, t, n - 1);
      ReleaseKeeps(caps, DiscardSaved(t, n - 1), n - 1);
    }
  }

  lemma LetGoKeeps(caps: Caps, t: Table, p: nat)
    requires Inv(caps, t) && p in t.pinned
    ensures Inv(caps, LetGo(t, p))
  {
    assert PinsOf(t.heap, p) > 0;
    UnpinPins(t.heap, p);
    UnpinCost(t.sessions, t.heap, p);
  }

  // ----- accepting, adding and filling -----

  lemma AcceptedShape(s: Session, now: nat, target: Option<Bytes>, isPost: bool)
    requires Shaped(s) && s.active
    ensures var a := Accepted(s, now, target, isPost);
      Shaped(a) && a.saved == s.saved && a.solvedUntil != 0
  {
  }

  lemma AcceptSolvedKeeps(caps: Caps, t: Table, id: Bytes, now: nat, target: Option<Bytes>, isPost: bool, host: Bytes)
    requires Inv(caps, t)
    ensures Inv(caps, AcceptSolved(t, id, now, target, isPost, host).0)
  {
    hide Inv, FindFrom, FreeFrom, Accepted, Admitted, WithSession, Padded;
    if host != [] && |host| < 256 && (target.Some? ==> |target.value| < 2048) && SolvedIdInWindow(id, now) {
      var (found, at) := FindFrom(t, id, now, 0);
      FindFromKeeps(caps, t, id, now, 0);
      if at.Some? {
        AcceptExisting(caps, found, at.value, now, target, isPost);
      } else {
        var (free, slot) := FreeFrom(found, now, 0);
        FreeFromKeeps(caps, found, now, 0);
        if slot.Some? { AcceptNew(caps, free, slot.value, id, host, now, target, isPost); }
      }
    }
  }

  lemma AcceptExisting(caps: Caps, t: Table, i: nat, now: nat, target: Option<Bytes>, isPost: bool)
    requires Inv(caps, t) && i < |t.sessions| && t.sessions[i].active
    ensures Inv(caps, WithSession(t, i, Accepted(t.sessions[i], now, target, isPost)))
  {
    AcceptedShape(t.sessions[i], now, target, isPost);
    RewriteKeeps(caps, t, i, Accepted(t.sessions[i], now, target, isPost), t.mutation + 1);
  }

  lemma AcceptNew(caps: Caps, t: Table, i: nat, id: Bytes, host: Bytes, now: nat, target: Option<Bytes>, isPost: bool)
    requires Inv(caps, t) && i < |t.sessions| && !t.sessions[i].active && SolvedIdInWindow(id, now)
    ensures Inv(caps, WithSession(t, i, Accepted(Admitted(id, IssuedAt(id), host), now, target, isPost)))
  {
    var s := Admitted(id, IssuedAt(id), host);
    AcceptedShape(s, now, target, isPost);
    RewriteKeeps(caps, t, i, Accepted(s, now, target, isPost), t.mutation + 1);
  }

  // A draft names its target and a payload nobody else has, and its request is whole.
  predicate ProperDraft(d: Draft, t: Table) {
    && d.target != [] && d.target[0] != 0
    && |d.request| == REQUEST_SIZE
    && (d.payload.Some? ==> d.payload.value !in t.heap)
  }

  lemma {:induction false} ExpireFirstHeap(t: Table, now: nat, n: nat)
    requires n <= |t.sessions|
    ensures ExpireFirst(t, now, n).heap.Keys <= t.heap.Keys
    decreases n
  {
    if n > 0 { ExpireFirstHeap(t, now, n - 1); }
  }

  // Adding a counted session while below the caps.
  lemma CappedAdd(caps: Caps, sessions: seq<Session>, i: nat, s: Session, peer: Bytes)
    requires i < |sessions| && Capped(caps, sessions) && !sessions[i].active
    requires s.texts.peer == Padded(peer, 64) && (!s.proved ==> !AtCap(sessions, peer))
    ensures Capped(caps, sessions[i := s])
  {
    CountUpdate(sessions, i, s, Unsolved);
    forall q ensures Count(sessions[i := s], UnsolvedFrom(q)) <= caps.perPeer {
      CountUpdate(sessions, i, s, UnsolvedFrom(q));
    }
  }

  lemma AddPlain(caps: Caps, t: Table, i: nat, s: Session, peer: Bytes, m: nat)
    requires Inv(caps, t) && i < |t.sessions| && !t.sessions[i].active && s.saved.None? && Shaped(s)
    requires s.texts.peer == Padded(peer, 64) && (!s.proved ==> !AtCap(t.sessions, peer))
    ensures Inv(caps, t.(sessions := t.sessions[i := s], mutation := m))
  {
    CappedAdd(caps, t.sessions, i, s, peer);
    CostUpdate(t.sessions, i, s, t.heap);
    forall p: nat ensures Count(t.sessions[i := s], OwnerOf(p)) == Count(t.sessions, OwnerOf(p)) {
      CountUpdate(t.sessions, i, s, OwnerOf(p));
    }
  }

  // A table with a new session and its new payload.
  function WithPost(t: Table, i: nat, s: Session, p: nat, payload: Payload, m: nat): Table
    requires i < |t.sessions|
  {
    t.(sessions := t.sessions[i := s], heap := t.heap[p := payload],
       pending := t.pending + payload.size + REQUEST_SIZE, mutation := m)
  }

  lemma AddPostPins(t: Table, i: nat, s: Session, p: nat, payload: Payload, m: nat)
    requires Pinned(t) && i < |t.sessions| && t.sessions[i].saved.None?
    requires s.saved == Some(p) && p !in t.heap && payload.pins == 1
    ensures Pinned(WithPost(t, i, s, p, payload, m))
  {
    assert PinsOf(t.heap, p) == 0;
    forall q: nat
      ensures Count(t.sessions[i := s], OwnerOf(q)) == Count(t.sessions, OwnerOf(q)) + if q == p then 1 else 0
    {
      CountUpdate(t.sessions, i, s, OwnerOf(q));
    }
  }

  lemma AddPostCost(t: Table, i: nat, s: Session, p: nat, payload: Payload, m: nat)
    requires Pinned(t) && Accounted(t) && i < |t.sessions| && t.sessions[i].saved.None?
    requires s.saved == Some(p) && p !in t.heap && payload.size + REQUEST_SIZE <= PENDING_BYTES - t.pending
    ensures Accounted(WithPost(t, i, s, p, payload, m))
  {
    var heap := t.heap[p := payload];
    assert PinsOf(t.heap, p) == 0;
    forall k | 0 <= k < |t.sessions| ensures Cost(t.heap, t.sessions[k].saved) == Cost(heap, t.sessions[k].saved) {
      CountUpdate(t.sessions, k, t.sessions[k], OwnerOf(p));
    }
    CostFrame(t.sessions, t.heap, heap);
    CostUpdate(t.sessions, i, s, heap);
  }

  lemma AddPost(caps: Caps, t: Table, i: nat, s: Session, p: nat, payload: Payload, peer: Bytes, m: nat)
    requires Inv(caps, t) && i < |t.sessions| && !t.sessions[i].active && Shaped(s)
    requires s.texts.peer == Padded(peer, 64) && (!s.proved ==> !AtCap(t.sessions, peer))
    requires s.saved == Some(p) && p !in t.heap && payload.pins == 1 && Sound(payload)
    requires payload.size + REQUEST_SIZE <= PENDING_BYTES - t.pending
    ensures Inv(caps, WithPost(t, i, s, p, payload, m))
  {
    AddPostPins(t, i, s, p, payload, m);
    AddPostCost(t, i, s, p, payload, m);
    CappedAdd(caps, t.sessions, i, s, peer);
  }

  lemma DraftedShape(d: Draft, now: nat)
    requires d.drawn.Some? && d.target != [] && d.target[0] != 0
    ensures var s := Drafted(d, now);
      Shaped(s) && s.texts.peer == Padded(d.peer, 64) && s.proved == d.proved && s.active
  {
  }

  lemma {:induction false} ExpireFirstPending(t: Table, now: nat, n: nat)
    requires n <= |t.sessions|
    ensures ExpireFirst(t, now, n).pending <= t.pending
    decreases n
  {
    if n > 0 { ExpireFirstPending(t, now, n - 1); }
  }

  lemma NewKeeps(caps: Caps, t: Table, d: Draft, now: nat)
    requires Inv(caps, t) && ProperDraft(d, t)
    ensures Inv(caps, New(t, d, now).0)
  {
    var u := ExpireFirst(t, now, |t.sessions|);
    ExpireFirstKeeps(caps, t, now, |t.sessions|);
    ExpireFirstHeap(t, now, |t.sessions|);
    ExpireFirstPending(t, now, |t.sessions|);
    var slot := FirstInactive(u.sessions);
    if slot < |u.sessions| && (d.proved || !AtCap(u.sessions, d.peer))
       && (d.isPost ==> d.size <= REPLAY_MAX && d.size + REQUEST_SIZE <= PENDING_BYTES - t.pending) {
      NewAt(caps, u, d, now, slot);
    }
  }

  lemma NewAt(caps: Caps, u: Table, d: Draft, now: nat, slot: nat)
    requires Inv(caps, u) && ProperDraft(d, u) && slot < |u.sessions| && !u.sessions[slot].active
    requires d.proved || !AtCap(u.sessions, d.peer)
    requires d.isPost ==> d.size <= REPLAY_MAX && d.size + REQUEST_SIZE <= PENDING_BYTES - u.pending
    ensures Inv(caps, u.(sessions := u.sessions[slot := Blank()]))
    ensures d.drawn.Some? && !d.isPost ==> Inv(caps, WithSession(u, slot, Drafted(d, now)))
    ensures d.drawn.Some? && d.isPost && d.payload.Some? ==>
      Inv(caps, WithPost(u, slot, Drafted(d, now), d.payload.value, Payload(d.request, [], d.size, 1), u.mutation + 1))
  {
    RewriteKeeps(caps, u, slot, Blank(), u.mutation);
    if d.drawn.Some? {
      DraftedShape(d, now);
      if !d.isPost {
        AddPlain(caps, u, slot, Drafted(d, now), d.peer, u.mutation + 1);
      } else if d.payload.Some? {
        AddPost(caps, u, slot, Drafted(d, now), d.payload.value, Payload(d.request, [], d.size, 1),
                d.peer, u.mutation + 1);
      }
    }
  }

  // Filling a payload changes neither pins nor cost.
  lemma FillKeeps(caps: Caps, t: Table, p: nat, grown: Payload, m: nat)
    requires Inv(caps, t) && p in t.heap && Sound(grown) && grown.pins == t.heap[p].pins && grown.size == t.heap[p].size
    ensures Inv(caps, t.(heap := t.heap[p := grown], mutation := m))
  {
    var heap := t.heap[p := grown];
    CostFrame(t.sessions, t.heap, heap);
    assert forall q: nat :: PinsOf(heap, q) == PinsOf(t.heap, q);
  }

  lemma AppendKeeps(caps: Caps, t: Table, i: nat, data: Bytes)
    requires Inv(caps, t) && i < |t.sessions|
    ensures Inv(caps, Append(t, i, data).0)
  {
    var (u, r) := Append(t, i, data);
    if r != -1 {
      var p := t.sessions[i].saved.value;
      FillKeeps(caps, t, p, t.heap[p].(body := t.heap[p].body + data), u.mutation);
    }
  }

  lemma SolveKeeps(caps: Caps, t: Table, i: nat, now: nat)
    requires Inv(caps, t) && i < |t.sessions|
    ensures Inv(caps, Solve(t, i, now).0)
  {
    if t.sessions[i].active {
      RewriteKeeps(caps, t, i, t.sessions[i].(solvedUntil := now + 1800, bodyUntil := now + 300), t.mutation + 1);
    }
  }

  lemma TakeKeeps(caps: Caps, t: Table, i: nat, token: Option<Bytes>, now: nat)
    requires Inv(caps, t) && i < |t.sessions|
    ensures Inv(caps, Take(t, i, token, now).0)
  {
    if Takeable(t, i, token, now) {
      var s, p := t.sessions[i], t.sessions[i].saved.value;
      CostUpdate(t.sessions, i, Emptied(s), t.heap);
      CappedUpdate(caps, t.sessions, i, Emptied(s));
      forall q: nat
        ensures Count(t.sessions[i := Emptied(s)], OwnerOf(q))
          == Count(t.sessions, OwnerOf(q)) - if q == p then 1 else 0
      {
        CountUpdate(t.sessions, i, Emptied(s), OwnerOf(q));
      }
    }
  }

  lemma ReserveKeeps(caps: Caps, t: Table, i: nat, token: Option<Bytes>, now: nat)
    requires Inv(caps, t) && i < |t.sessions|
    ensures Inv(caps, Reserve(t, i, token, now).0) && Inv(caps, Unreserve(t, i))
  {
    RewriteKeeps(caps, t, i, t.sessions[i].(reserved := true), t.mutation);
    RewriteKeeps(caps, t, i, t.sessions[i].(reserved := false), t.mutation);
  }

  // ----- snapshots hold payloads -----

  lemma PinKeeps(caps: Caps, t: Table, p: nat)
    requires Inv(caps, t)
    ensures Inv(caps, Pin(t, p)) && Pin(t, p).sessions == t.sessions && Pin(t, p).heap.Keys == t.heap.Keys
  {
    if p in t.heap {
      CostFrame(t.sessions, t.heap, Pin(t, p).heap);
    }
  }

  lemma {:induction false} PinAllKeeps(caps: Caps, t: Table, payloads: seq<nat>)
    requires Inv(caps, t)
    ensures Inv(caps, PinAll(t, payloads)) && PinAll(t, payloads).sessions == t.sessions
    ensures PinAll(t, payloads).heap.Keys == t.heap.Keys
    decreases |payloads|
  {
    if payloads != [] {
      PinAllKeeps(caps, t, payloads[..|payloads| - 1]);
      PinKeeps(caps, PinAll(t, payloads[..|payloads| - 1]), payloads[|payloads| - 1]);
    }
  }

  lemma CaptureKeeps(caps: Caps, t: Table, now: nat)
    requires Inv(caps, t)
    ensures Inv(caps, Capture(t, now).0)
  {
    var u := ExpireFirst(t, now, |t.sessions|);
    ExpireFirstKeeps(caps, t, now, |t.sessions|);
    PinAllKeeps(caps, u, PayloadsOf(CapturedSessions(u.sessions, u.heap)));
  }

  // ----- whole runs -----

  datatype Event =
    | FindOne(id: Bytes, now: nat)
    | AcceptOne(id: Bytes, now: nat, target: Option<Bytes>, isPost: bool, host: Bytes)
    | NewOne(draft: Draft, now: nat)
    | AppendTo(i: nat, data: Bytes)
    | SolveOne(i: nat, now: nat)
    | TakeOne(i: nat, token: Option<Bytes>, now: nat)
    | ReserveOne(i: nat, token: Option<Bytes>, now: nat)
    | UnreserveOne(i: nat)
    | CancelOne(i: nat)
    | DiscardOne(i: nat)
    | DiscardAll
    | ExpireAll(now: nat)
    | LetGoOf(p: nat)
    | CaptureAll(now: nat)

  // Callers name sessions of the table, new payloads are new, and only a holder lets go.
  predicate Enabled(t: Table, e: Event) {
    match e
    case NewOne(draft, _) => ProperDraft(draft, t)
    case AppendTo(i, _) => i < |t.sessions|
    case SolveOne(i, _) => i < |t.sessions|
    case TakeOne(i, _, _) => i < |t.sessions|
    case ReserveOne(i, _, _) => i < |t.sessions|
    case UnreserveOne(i) => i < |t.sessions|
    case CancelOne(i) => i < |t.sessions|
    case DiscardOne(i) => i < |t.sessions|
    case LetGoOf(p) => p in t.pinned
    case _ => true
  }

  function Apply(t: Table, e: Event): Table
    requires Enabled(t, e)
  {
    match e
    case FindOne(id, now) => Find(t, id, now).0
    case AcceptOne(id, now, target, isPost, host) => AcceptSolved(t, id, now, target, isPost, host).0
    case NewOne(draft, now) => New(t, draft, now).0
    case AppendTo(i, data) => Append(t, i, data).0
    case SolveOne(i, now) => Solve(t, i, now).0
    case TakeOne(i, token, now) => Take(t, i, token, now).0
    case ReserveOne(i, token, now) => Reserve(t, i, token, now).0
    case UnreserveOne(i) => Unreserve(t, i)
    case CancelOne(i) => Release(t, i)
    case DiscardOne(i) => Discard(t, i)
    case DiscardAll => DiscardSaved(t, |t.sessions|)
    case ExpireAll(now) => ExpireFirst(t, now, |t.sessions|)
    case LetGoOf(p) => LetGo(t, p)
    case CaptureAll(now) => Capture(t, now).0
  }

  predicate Runs(t: Table, events: seq<Event>, u: Table)
    decreases |events|
  {
    if events == [] then t == u else Enabled(t, events[0]) && Runs(Apply(t, events[0]), events[1..], u)
  }

  lemma StepKeeps(caps: Caps, t: Table, e: Event)
    requires Inv(caps, t) && Enabled(t, e)
    ensures Inv(caps, Apply(t, e))
  {
    hide Inv;
    match e
    case FindOne(id, now) => FindFromKeeps(caps, t, id, now, 0);
    case AcceptOne(id, now, target, isPost, host) => AcceptSolvedKeeps(caps, t, id, now, target, isPost, host);
    case NewOne(draft, now) => NewKeeps(caps, t, draft, now);
    case AppendTo(i, data) => AppendKeeps(caps, t, i, data);
    case SolveOne(i, now) => SolveKeeps(caps, t, i, now);
    case TakeOne(i, token, now) => TakeKeeps(caps, t, i, token, now);
    case ReserveOne(i, token, now) => ReserveKeeps(caps, t, i, token, now);
    case UnreserveOne(i) => ReserveKeeps(caps, t, i, None, 0);
    case CancelOne(i) => ReleaseKeeps(caps, t, i);
    case DiscardOne(i) => DiscardKeeps(caps, t, i);
    case DiscardAll => DiscardSavedKeeps(caps, t, |t.sessions|);
    case ExpireAll(now) => ExpireFirstKeeps(caps, t, now, |t.sessions|);
    case LetGoOf(p) => LetGoKeeps(caps, t, p);
    case CaptureAll(now) => CaptureKeeps(caps, t, now);
  }

  lemma {:induction false} RunKeeps(caps: Caps, t: Table, events: seq<Event>, u: Table)
    requires Inv(caps, t) && Runs(t, events, u)
    ensures Inv(caps, u)
    decreases |events|
  {
    if events != [] {
      StepKeeps(caps, t, events[0]);
      RunKeeps(caps, Apply(t, events[0]), events[1..], u);
    }
  }

  function EmptyTable(): Table {
    Table(seq(CAPACITY, _ => Blank()), map[], multiset{}, 0, 0)
  }

  lemma {:induction false} BlankCounts(sessions: seq<Session>, q: Query)
    requires forall i :: 0 <= i < |sessions| ==> sessions[i] == Blank()
    ensures Count(sessions, q) == 0 && CostSum(sessions, map[]) == 0
    decreases |sessions|
  {
    if sessions != [] { BlankCounts(sessions[..|sessions| - 1], q); }
  }

  lemma EmptyInv()
    ensures Inv(OWN_CAPS, EmptyTable())
  {
    var t := EmptyTable();
    BlankCounts(t.sessions, Unsolved);
    forall peer ensures Count(t.sessions, UnsolvedFrom(peer)) == 0 { BlankCounts(t.sessions, UnsolvedFrom(peer)); }
    forall p: nat ensures Count(t.sessions, OwnerOf(p)) == 0 { BlankCounts(t.sessions, OwnerOf(p)); }
  }

  /** In every reachable table the pending bytes are exactly the saved bodies and requests,
      within 64 MiB; and the unsolved sessions issued without proof stay within both caps. */
  lemma AccountingHolds(events: seq<Event>, t: Table)
    requires Runs(EmptyTable(), events, t)
    ensures t.pending == CostSum(t.sessions, t.heap) <= PENDING_BYTES
    ensures Count(t.sessions, Unsolved) <= UNSOLVED
    ensures forall peer :: Count(t.sessions, UnsolvedFrom(peer)) <= UNSOLVED_PER_PEER
  {
    EmptyInv();
    RunKeeps(OWN_CAPS, EmptyTable(), events, t);
  }

  lemma HeldExactly(caps: Caps, t: Table, p: nat)
    requires Inv(caps, t)
    ensures p in t.heap <==> (p in t.pinned || exists i :: 0 <= i < |t.sessions| && t.sessions[i].saved == Some(p))
  {
    OwnerExists(t.sessions, p);
    assert Count(t.sessions, OwnerOf(p)) + t.pinned[p] == PinsOf(t.heap, p);
  }

  /** A payload exists exactly while its owner or an outside holder still has it. */
  lemma FreedExactlyWhenReleased(events: seq<Event>, t: Table, p: nat)
    requires Runs(EmptyTable(), events, t)
    ensures p in t.heap <==> (p in t.pinned || exists i :: 0 <= i < |t.sessions| && t.sessions[i].saved == Some(p))
  {
    EmptyInv();
    RunKeeps(OWN_CAPS, EmptyTable(), events, t);
    HeldExactly(OWN_CAPS, t, p);
  }

  lemma {:induction false} OwnerExists(sessions: seq<Session>, p: nat)
    ensures Count(sessions, OwnerOf(p)) > 0 <==> exists i :: 0 <= i < |sessions| && sessions[i].saved == Some(p)
    decreases |sessions|
  {
    if sessions != [] {
      var n := |sessions| - 1;
      OwnerExists(sessions[..n], p);
      if i :| 0 <= i < |sessions| && sessions[i].saved == Some(p) && i < n {
        assert sessions[..n][i].saved == Some(p);
      }
      if i :| 0 <= i < n && sessions[..n][i].saved == Some(p) {
        assert sessions[i].saved == Some(p);
      }
    }
  }
}
