/**
 * What the operations of the session table answer, and what they do, said of the sessions as they stand: when a saved
 * POST is handed over, when a session is admitted, and how long both last.
 */
module SessionAnswers {
  import opened Options
  import opened Bytes
  import opened Sessions
  import opened SessionSafety
  import opened SessionContents
  import opened SessionScan
  import opened SessionNames

  // ----- taking and reserving a POST -----

  /** A POST is handed over exactly when the session is active, solved and within both deadlines, its
      body is complete and the token is the session's. The caller then holds the payload, the
      session no longer does, its token is gone, and nobody can take it from there again. Otherwise
      nothing changes. */
  lemma TakeExactly(t: Table, i: nat, token: Option<Bytes>, now: nat)
    requires i < |t.sessions|
    ensures var s := t.sessions[i]; var (u, result) := Take(t, i, token, now);
      && (result == 0 <==>
            && s.active && s.solvedUntil != 0 && now <= s.solvedUntil && now <= s.bodyUntil
            && (exists p :: s.saved == Some(p) && p in t.heap && |t.heap[p].body| == t.heap[p].size)
            && token.Some? && TextOf(token.value) == TextOf(s.texts.token))
      && (result != 0 ==> result == -1 && u == t)
      && (result == 0 ==>
            && u.heap == t.heap && u.pinned == t.pinned + multiset{s.saved.value}
            && u.pending == t.pending - (t.heap[s.saved.value].size + REQUEST_SIZE)
            && |u.sessions| == |t.sessions|
            && (forall k :: 0 <= k < |t.sessions| && k != i ==> u.sessions[k] == t.sessions[k])
            && u.sessions[i].saved == None && TextOf(u.sessions[i].texts.token) == [] && !u.sessions[i].reserved
            && u.sessions[i] == s.(saved := None, texts := u.sessions[i].texts, reserved := false)
            && u.sessions[i].texts == s.texts.(token := u.sessions[i].texts.token)
            && forall other, later :: Take(u, i, other, later).1 == -1 && Reserve(u, i, other, later).1 == -1)
  {
  }

  /** A POST is reserved exactly when it could be taken and is not reserved already; reserving changes
      nothing else, and whoever reserved it can take it as long as the deadlines last. */
  lemma ReserveExactly(t: Table, i: nat, token: Option<Bytes>, now: nat)
    requires i < |t.sessions|
    ensures var s := t.sessions[i]; var (u, result) := Reserve(t, i, token, now);
      && (result == 0 <==>
            && s.active && s.solvedUntil != 0 && now <= s.solvedUntil && now <= s.bodyUntil
            && (exists p :: s.saved == Some(p) && p in t.heap && |t.heap[p].body| == t.heap[p].size)
            && token.Some? && TextOf(token.value) == TextOf(s.texts.token) && !s.reserved)
      && (result != 0 ==> result == -1 && u == t)
      && (result == 0 ==>
            && u == t.(sessions := t.sessions[i := s.(reserved := true)])
            && (forall other, later :: Reserve(u, i, other, later).1 == -1)
            && (forall later: nat :: later <= s.solvedUntil && later <= s.bodyUntil ==> Take(u, i, token, later).1 == 0)
            && Unreserve(u, i) == t)
  {
    var s := t.sessions[i];
    var u := Reserve(t, i, token, now).0;
    assert t.sessions[i := s.(reserved := true)][i := s] == t.sessions;
  }

  // No session gains a payload, unless it is a new one.
  lemma AcceptSaved(t: Table, id: Bytes, now: nat, target: Option<Bytes>, isPost: bool, host: Bytes, k: nat)
    requires k < |t.sessions|
    ensures var u := AcceptSolved(t, id, now, target, isPost, host).0;
      |u.sessions| == |t.sessions| && (u.sessions[k].saved.Some? ==> u.sessions[k].saved == t.sessions[k].saved)
  {
    hide Narrows, SolvedIdInWindow, Accepted, Admitted, TextOf, Blank;
    var (found, at) := FindFrom(t, id, now, 0);
    AcceptedSaved(t, id, now, target, isPost, host);
    FindFromNarrows(t, id, now);
    NarrowsSaved(t.sessions, found.sessions, k);
    var (free, slot) := FreeFrom(found, now, 0);
    FreeFromNarrows(found, now, 0);
    NarrowsSaved(found.sessions, free.sessions, k);
  }

  lemma AcceptedSaved(t: Table, id: Bytes, now: nat, target: Option<Bytes>, isPost: bool, host: Bytes)
    ensures forall s :: Accepted(s, now, target, isPost).saved == s.saved
    ensures SolvedIdInWindow(id, now) ==> Admitted(id, IssuedAt(id), host).saved.None?
  {
  }

  lemma NarrowsSaved(before: seq<Session>, after: seq<Session>, k: nat)
    requires Narrows(before, after) && k < |before|
    ensures |after| == |before| && (after[k].saved.Some? ==> after[k].saved == before[k].saved)
  {
  }

  lemma NewSaved(t: Table, d: Draft, now: nat, k: nat)
    requires k < |t.sessions|
    ensures var u := New(t, d, now).0;
      |u.sessions| == |t.sessions|
      && (u.sessions[k].saved.Some? ==> u.sessions[k].saved == t.sessions[k].saved || u.sessions[k].saved == d.payload)
  {
    hide Narrows, AtCap;
    var u := ExpireFirst(t, now, |t.sessions|);
    ExpireFirstNarrows(t, now, |t.sessions|);
    NarrowsSaved(t.sessions, u.sessions, k);
  }

  lemma StepSaved(t: Table, e: Event, k: nat)
    requires Enabled(t, e) && k < |t.sessions|
    ensures var u := Apply(t, e);
      |u.sessions| == |t.sessions|
      && (u.sessions[k].saved.Some? ==>
            || u.sessions[k].saved == t.sessions[k].saved
            || (e.NewOne? && u.sessions[k].saved == e.draft.payload))
  {
    hide Narrows, Apply;
    if e.AcceptOne? {
      AcceptSaved(t, e.id, e.now, e.target, e.isPost, e.host, k);
      assert Apply(t, e) == AcceptSolved(t, e.id, e.now, e.target, e.isPost, e.host).0 by { ApplyScans(t, e); }
    } else if e.NewOne? {
      NewSaved(t, e.draft, e.now, k);
      assert Apply(t, e) == New(t, e.draft, e.now).0 by { ApplyScans(t, e); }
    } else {
      StepNarrows(t, e);
      NarrowsSaved(t.sessions, Apply(t, e).sessions, k);
    }
  }

  lemma ApplyScans(t: Table, e: Event)
    requires Enabled(t, e)
    ensures e.AcceptOne? ==> Apply(t, e) == AcceptSolved(t, e.id, e.now, e.target, e.isPost, e.host).0
    ensures e.NewOne? ==> Apply(t, e) == New(t, e.draft, e.now).0
  {
  }

  ghost predicate Unowned(t: Table, p: nat) {
    forall k :: 0 <= k < |t.sessions| ==> t.sessions[k].saved != Some(p)
  }

  lemma StepUnowned(caps: Caps, t: Table, e: Event, p: nat)
    requires Inv(caps, t) && Enabled(t, e) && Unowned(t, p) && p in t.pinned && e != LetGoOf(p)
    ensures Unowned(Apply(t, e), p) && p in Apply(t, e).pinned
  {
    HeldExactly(caps, t, p);
    StepContent(caps, t, e, p);
    hide Inv, Apply;
    var u := Apply(t, e);
    SizeKept(t, e);
    forall k | 0 <= k < |u.sessions|
      ensures u.sessions[k].saved != Some(p)
    {
      StepSaved(t, e, k);
    }
  }

  lemma {:induction false} RunUnowned(caps: Caps, t: Table, events: seq<Event>, u: Table, p: nat)
    requires Inv(caps, t) && Runs(t, events, u) && Unowned(t, p) && p in t.pinned && LetGoOf(p) !in events
    ensures Unowned(u, p)
    decreases |events|
  {
    hide Inv, Apply, Enabled;
    if events != [] {
      StepKeeps(caps, t, events[0]);
      StepUnowned(caps, t, events[0], p);
      RunUnowned(caps, Apply(t, events[0]), events[1..], u, p);
    }
  }

  // ----- every saved POST has one session -----

  predicate SingleOwner(sessions: seq<Session>) {
    forall j, k :: 0 <= j < k < |sessions| && sessions[j].saved.Some? ==> sessions[j].saved != sessions[k].saved
  }

  lemma NewSavedOnce(t: Table, d: Draft, now: nat, j: nat, k: nat)
    requires j < |t.sessions| && k < |t.sessions| && j != k
    requires d.payload.Some? && Unowned(t, d.payload.value)
    ensures var u := New(t, d, now).0;
      |u.sessions| == |t.sessions| && (u.sessions[j].saved == d.payload ==> u.sessions[k].saved != d.payload)
  {
    hide Narrows, AtCap;
    var u := ExpireFirst(t, now, |t.sessions|);
    ExpireFirstNarrows(t, now, |t.sessions|);
    NarrowsSaved(t.sessions, u.sessions, j);
    NarrowsSaved(t.sessions, u.sessions, k);
    BlankIsInactive();
  }

  lemma NewUnowned(caps: Caps, t: Table, e: Event)
    requires Inv(caps, t) && Enabled(t, e) && e.NewOne? && e.draft.payload.Some?
    ensures Unowned(t, e.draft.payload.value)
  {
    HeldExactly(caps, t, e.draft.payload.value);
    hide Inv;
  }

  lemma StepSingle(caps: Caps, t: Table, e: Event)
    requires Inv(caps, t) && Enabled(t, e) && SingleOwner(t.sessions)
    ensures SingleOwner(Apply(t, e).sessions)
  {
    var u := Apply(t, e);
    hide Inv, Apply, Enabled;
    forall j, k | 0 <= j < k < |u.sessions| && u.sessions[j].saved.Some?
      ensures u.sessions[j].saved != u.sessions[k].saved
    {
      SizeKept(t, e);
      StepSaved(t, e, j);
      StepSaved(t, e, k);
      if e.NewOne? && u.sessions[j].saved == e.draft.payload {
        NewUnowned(caps, t, e);
        NewSavedOnce(t, e.draft, e.now, j, k);
        ApplyScans(t, e);
      } else if e.NewOne? && e.draft.payload.Some? {
        NewUnowned(caps, t, e);
      }
    }
  }

  lemma SizeKept(t: Table, e: Event)
    requires Enabled(t, e)
    ensures |Apply(t, e).sessions| == |t.sessions|
  {
    if e.AcceptOne? {
      ApplyScans(t, e);
      FindFromNarrows(t, e.id, e.now);
      FreeFromNarrows(FindFrom(t, e.id, e.now, 0).0, e.now, 0);
    } else if e.NewOne? {
      ApplyScans(t, e);
      ExpireFirstNarrows(t, e.now, |t.sessions|);
    } else {
      StepNarrows(t, e);
    }
  }

  lemma {:induction false} RunSingle(caps: Caps, t: Table, events: seq<Event>, u: Table)
    requires Inv(caps, t) && Runs(t, events, u) && SingleOwner(t.sessions)
    ensures SingleOwner(u.sessions)
    decreases |events|
  {
    hide Inv, Apply, Enabled, SingleOwner;
    if events != [] {
      StepKeeps(caps, t, events[0]);
      StepSingle(caps, t, events[0]);
      RunSingle(caps, Apply(t, events[0]), events[1..], u);
    }
  }

  /** In every run from a table whose POSTs have one session each, a payload that was handed over is
      never handed over again as long as the taker holds it: no session has it any more. */
  lemma TakenOnce(caps: Caps, start: Table, before: seq<Event>, t: Table, i: nat, token: Option<Bytes>, now: nat,
                  after: seq<Event>, u: Table)
    requires Inv(caps, start) && SingleOwner(start.sessions) && Runs(start, before, t)
    requires i < |t.sessions| && Take(t, i, token, now).1 == 0
    requires t.sessions[i].saved.Some? && LetGoOf(t.sessions[i].saved.value) !in after
    requires Runs(Take(t, i, token, now).0, after, u)
    ensures forall k :: 0 <= k < |u.sessions| ==> u.sessions[k].saved != t.sessions[i].saved
  {
    hide Runs, Inv;
    RunKeeps(caps, start, before, t);
    RunSingle(caps, start, before, t);
    var p, e := t.sessions[i].saved.value, TakeOne(i, token, now);
    TakenUnowned(t, i, token, now);
    TakeStep(t, i, token, now);
    StepKeeps(caps, t, e);
    RunUnowned(caps, Take(t, i, token, now).0, after, u, p);
  }

  lemma TakeStep(t: Table, i: nat, token: Option<Bytes>, now: nat)
    requires i < |t.sessions|
    ensures Enabled(t, TakeOne(i, token, now)) && Apply(t, TakeOne(i, token, now)) == Take(t, i, token, now).0
  {
  }

  lemma TakenUnowned(t: Table, i: nat, token: Option<Bytes>, now: nat)
    requires SingleOwner(t.sessions) && i < |t.sessions| && t.sessions[i].saved.Some? && Take(t, i, token, now).1 == 0
    ensures var p, u := t.sessions[i].saved.value, Take(t, i, token, now).0; Unowned(u, p) && p in u.pinned
  {
    var p := t.sessions[i].saved.value;
    forall k | 0 <= k < |t.sessions| && k != i
      ensures t.sessions[k].saved != Some(p)
    {
      assert i < k ==> t.sessions[i].saved != t.sessions[k].saved;
      assert k < i && t.sessions[k].saved.Some? ==> t.sessions[k].saved != t.sessions[i].saved;
    }
  }

  lemma EmptySingle()
    ensures Inv(OWN_CAPS, EmptyTable()) && SingleOwner(EmptyTable().sessions)
  {
    EmptyInv();
    hide Blank, Inv;
    BlankIsInactive();
  }

  // ----- expiring -----

  /** Expiry ends exactly the unsolved sessions older than five minutes and the solved ones past their
      deadline, and takes exactly the POSTs past theirs; everything else stays as it was. */
  lemma ExpireExactly(t: Table, now: nat, k: nat)
    requires k < |t.sessions| && Shaped(t.sessions[k])
    ensures var s, u := t.sessions[k], ExpireFirst(t, now, |t.sessions|).sessions[k];
      var lives := s.active && now <= if s.solvedUntil == 0 then s.issued + 300 else s.solvedUntil;
      && (u.active <==> lives)
      && (u.saved.Some? <==> lives && s.saved.Some? && (s.solvedUntil == 0 || now <= s.bodyUntil))
      && (u.saved.Some? || (lives && s.saved.None?) ==> u == s)
      && (lives ==> u == s.(saved := u.saved, texts := u.texts, reserved := u.reserved)
                    && u.texts == s.texts.(token := u.texts.token))
  {
    hide Blank;
    BlankIsInactive();
    ExpireFirstAges(t, now, |t.sessions|);
  }

  // ----- solving -----

  /** A session can be solved exactly within five minutes of its issue; from then it lives thirty
      minutes, and a POST it holds five. */
  lemma SolveExactly(t: Table, i: nat, now: nat, later: nat)
    requires i < |t.sessions|
    ensures var s := t.sessions[i]; var (u, result) := Solve(t, i, now);
      && (result == 0 <==> s.active && now <= s.issued + 300)
      && (result != 0 ==> result == -1 && u == t)
      && (result == 0 ==>
            && |u.sessions| == |t.sessions|
            && (forall k :: 0 <= k < |t.sessions| && k != i ==> u.sessions[k] == t.sessions[k])
            && u.heap == t.heap && u.pinned == t.pinned && u.pending == t.pending
            && u.sessions[i] == s.(solvedUntil := u.sessions[i].solvedUntil, bodyUntil := u.sessions[i].bodyUntil)
            && (Alive(u.sessions[i], later) <==> later <= now + 1800)
            && (HoldsPost(u.sessions[i], later) <==> s.saved.Some? && later <= now + 300))
  {
  }

  // ----- admitting a session -----

  // The living sessions that were issued without proof and are not solved.
  function Waiting(sessions: seq<Session>, now: nat): set<nat> {
    set k | 0 <= k < |sessions| && Alive(sessions[k], now) && !sessions[k].proved && sessions[k].solvedUntil == 0
  }

  function WaitingFrom(sessions: seq<Session>, now: nat, peer: Bytes): set<nat> {
    set k | k in Waiting(sessions, now) && sessions[k].texts.peer == peer
  }

  function Satisfying(sessions: seq<Session>, q: Query): set<nat> {
    set k | 0 <= k < |sessions| && Satisfies(sessions[k], q)
  }

  lemma {:induction false} CountIs(sessions: seq<Session>, q: Query)
    ensures Count(sessions, q) == |Satisfying(sessions, q)|
    decreases |sessions|
  {
    if sessions != [] {
      var n := |sessions| - 1;
      CountIs(sessions[..n], q);
      var rest := Satisfying(sessions[..n], q);
      assert Satisfying(sessions, q) == if Satisfies(sessions[n], q) then rest + {n} else rest;
    }
  }

  lemma AgedIs(s: Session, now: nat)
    ensures Aged(s, now).active <==> Alive(s, now)
    ensures Alive(s, now) ==> var a := Aged(s, now);
      a.proved == s.proved && a.solvedUntil == s.solvedUntil && a.texts.peer == s.texts.peer
  {
    hide Blank;
    BlankIsInactive();
  }

  lemma WaitingCounts(t: Table, now: nat, peer: Bytes)
    ensures var u := ExpireFirst(t, now, |t.sessions|);
      && Count(u.sessions, Unsolved) == |Waiting(t.sessions, now)|
      && Count(u.sessions, UnsolvedFrom(peer)) == |WaitingFrom(t.sessions, now, peer)|
  {
    var u := ExpireFirst(t, now, |t.sessions|);
    ExpireFirstAges(t, now, |t.sessions|);
    CountIs(u.sessions, Unsolved);
    CountIs(u.sessions, UnsolvedFrom(peer));
    hide Aged, Alive;
    forall k | 0 <= k < |t.sessions|
      ensures Satisfies(u.sessions[k], Unsolved) <==> k in Waiting(t.sessions, now)
      ensures Satisfies(u.sessions[k], UnsolvedFrom(peer)) <==> k in WaitingFrom(t.sessions, now, peer)
    {
      AgedIs(t.sessions[k], now);
    }
    assert Satisfying(u.sessions, Unsolved) == Waiting(t.sessions, now);
    assert Satisfying(u.sessions, UnsolvedFrom(peer)) == WaitingFrom(t.sessions, now, peer);
  }

  // The first session that is free or expired.
  predicate FirstFree(sessions: seq<Session>, now: nat, i: nat) {
    i < |sessions| && !Alive(sessions[i], now) && forall k :: 0 <= k < i ==> Alive(sessions[k], now)
  }

  // What a new session must pass, besides a free place and the caps.
  predicate Acceptable(t: Table, d: Draft) {
    && d.host != [] && |d.host| < 256 && d.drawn.Some?
    && (d.isPost ==> d.size <= REPLAY_MAX && t.pending + d.size + REQUEST_SIZE <= PENDING_BYTES && d.payload.Some?)
  }

  predicate HasRoom(t: Table, d: Draft, now: nat) {
    d.proved || (|Waiting(t.sessions, now)| < UNSOLVED
                 && |WaitingFrom(t.sessions, now, Padded(d.peer, 64))| < UNSOLVED_PER_PEER)
  }

  lemma NewFinds(t: Table, now: nat)
    ensures var u := ExpireFirst(t, now, |t.sessions|); var slot := FirstInactive(u.sessions);
      && |u.sessions| == |t.sessions|
      && (slot < |t.sessions| <==> exists k :: FirstFree(t.sessions, now, k))
      && (slot < |t.sessions| ==> FirstFree(t.sessions, now, slot))
  {
    var u := ExpireFirst(t, now, |t.sessions|);
    var slot := FirstInactive(u.sessions);
    ExpireFirstAges(t, now, |t.sessions|);
    hide Aged, Alive;
    forall k | 0 <= k < |t.sessions|
      ensures u.sessions[k].active <==> Alive(t.sessions[k], now)
    {
      AgedIs(t.sessions[k], now);
    }
    if slot < |t.sessions| {
      assert FirstFree(t.sessions, now, slot);
    } else {
      forall k: nat ensures !FirstFree(t.sessions, now, k) { assert k < |t.sessions| ==> u.sessions[k].active; }
    }
  }

  /** A session is admitted exactly when the request is acceptable, some place is free or expired, and
      without proof both caps leave room among the living sessions. */
  lemma NewWhen(t: Table, d: Draft, now: nat)
    ensures New(t, d, now).1.Some? <==>
      Acceptable(t, d) && HasRoom(t, d, now) && exists k :: FirstFree(t.sessions, now, k)
  {
    NewFinds(t, now);
    WaitingCounts(t, now, Padded(d.peer, 64));
    hide Waiting, WaitingFrom, FirstFree, Drafted, Padded, Blank;
  }

  /** An admitted session takes the first free or expired place, as the request and the draws say; all
      other sessions only age. A refusal adds nothing. */
  lemma NewPlaces(t: Table, d: Draft, now: nat)
    ensures var (u, at) := New(t, d, now);
      && |u.sessions| == |t.sessions|
      && (at.Some? ==>
            && FirstFree(t.sessions, now, at.value) && d.drawn.Some?
            && u.sessions[at.value] ==
                 Session(true, Texts(d.drawn.value.0, d.drawn.value.1, d.drawn.value.2, Padded(d.target, 2048),
                                     Padded(d.peer, 64), Padded(d.host, 256)),
                         now, 0, 0, if d.isPost then d.payload else None, d.isPost, d.proved, false)
            && (forall k :: 0 <= k < |t.sessions| && k != at.value ==> u.sessions[k] == Aged(t.sessions[k], now))
            && (d.isPost && d.payload.Some? ==>
                  d.payload.value in u.heap && u.heap[d.payload.value] == Payload(d.request, [], d.size, 1)))
      && (at.None? ==> forall k :: 0 <= k < |t.sessions| && u.sessions[k].active ==>
            t.sessions[k].active && (u.sessions[k] == t.sessions[k] || u.sessions[k] == Aged(t.sessions[k], now)))
  {
    NewFinds(t, now);
    ExpireFirstAges(t, now, |t.sessions|);
    BlankIsInactive();
    hide Aged, Blank, FirstFree, Padded, AtCap;
    forall k | 0 <= k < |t.sessions|
      ensures Aged(t.sessions[k], now).active ==> t.sessions[k].active
    {
      AgedIs(t.sessions[k], now);
    }
  }

  // ----- accepting a solved id -----

  lemma AgedTwice(s: Session, now: nat)
    ensures Aged(Aged(s, now), now) == Aged(s, now)
    ensures Alive(Aged(s, now), now) <==> Alive(s, now)
    ensures Alive(s, now) ==> var a := Aged(s, now);
      && a.solvedUntil == s.solvedUntil && a.bodyUntil == s.bodyUntil && a.issued == s.issued && a.isPost == s.isPost
      && a.texts.host == s.texts.host && a.texts.id == s.texts.id && a.texts.target == s.texts.target
  {
    hide Blank;
    BlankIsInactive();
  }

  lemma {:induction false} FreeIs(t: Table, now: nat, i: nat)
    requires i <= |t.sessions| && forall k :: 0 <= k < i ==> Alive(t.sessions[k], now)
    ensures var (u, at) := FreeFrom(t, now, i);
      && |u.sessions| == |t.sessions|
      && (at.Some? ==> FirstFree(t.sessions, now, at.value))
      && (at.None? ==> forall k :: 0 <= k < |t.sessions| ==> Alive(t.sessions[k], now))
      && forall k :: 0 <= k < |t.sessions| ==>
           u.sessions[k] == if Scanned(k, at, i) then Aged(t.sessions[k], now) else t.sessions[k]
    decreases |t.sessions| - i
  {
    hide Expire, Aged, Alive;
    if i < |t.sessions| {
      ExpireIs(t, i, now);
      AgedIs(t.sessions[i], now);
      AgedTwice(t.sessions[i], now);
      if Alive(t.sessions[i], now) {
        var v := Expire(t, i, now);
        FreeIs(v, now, i + 1);
        assert forall k :: 0 <= k < |t.sessions| && k != i ==> v.sessions[k] == t.sessions[k];
        var at := FreeFrom(v, now, i + 1).1;
        if at.Some? {
          assert forall k :: 0 <= k < at.value ==> Alive(v.sessions[k], now);
        } else {
          assert forall k :: 0 <= k < |t.sessions| ==> Alive(v.sessions[k], now);
        }
      }
    }
  }

  // What the arguments must be: texts that fit, and an id issued at most 30 minutes ago.
  predicate GoodArguments(id: Bytes, now: nat, target: Option<Bytes>, host: Bytes) {
    && 0 < |host| < 256 && (target.Some? ==> |target.value| < 2048)
    && |id| == 32 && (forall i :: 0 <= i < 32 ==> LowerHex(id[i]))
    && IssuedAt(id) <= now + 30 && now <= IssuedAt(id) + 1800
  }

  // The session that a solved id of another process starts with.
  predicate Fresh(s: Session, id: Bytes, now: nat, target: Option<Bytes>, isPost: bool, host: Bytes)
    requires GoodArguments(id, now, target, host)
  {
    && s.active && s.saved.None? && !s.proved && !s.reserved
    && s.texts.id == id + [0] && s.texts.host == Padded(host, 256) && s.texts.peer == Zeros(64)
    && s.issued == IssuedAt(id) && s.solvedUntil == now + 1800 && s.bodyUntil == now + 300
    && s.texts.target == Padded(if target.Some? then target.value else [], 2048)
    && s.isPost == (target.Some? && isPost)
  }

  // The found session: solved from now on unless it was, and with a target unless it had one.
  predicate Continued(s: Session, was: Session, now: nat, target: Option<Bytes>, isPost: bool) {
    && s == was.(solvedUntil := s.solvedUntil, bodyUntil := s.bodyUntil, isPost := s.isPost, texts := s.texts)
    && s.texts == was.texts.(target := s.texts.target)
    && (if was.solvedUntil != 0 then s.solvedUntil == was.solvedUntil && s.bodyUntil == was.bodyUntil
        else s.solvedUntil == now + 1800 && s.bodyUntil == now + 300)
    && (if target.Some? && !HasTarget(was) then s.texts.target == Padded(target.value, 2048) && s.isPost == isPost
        else s.texts.target == was.texts.target && s.isPost == was.isPost)
  }

  lemma FreshIs(id: Bytes, now: nat, target: Option<Bytes>, isPost: bool, host: Bytes)
    requires GoodArguments(id, now, target, host)
    ensures Fresh(Accepted(Admitted(id, IssuedAt(id), host), now, target, isPost), id, now, target, isPost, host)
  {
    assert Padded([], 2048) == Zeros(2048);
  }

  lemma ContinuedIs(was: Session, now: nat, target: Option<Bytes>, isPost: bool)
    ensures Continued(Accepted(was, now, target, isPost), was, now, target, isPost)
  {
  }

  lemma AcceptFound(t: Table, id: Bytes, now: nat, target: Option<Bytes>, isPost: bool, host: Bytes)
    requires GoodArguments(id, now, target, host) && FirstNamed(t.sessions, id, now, 0).Some?
    ensures var (u, at) := AcceptSolved(t, id, now, target, isPost, host);
      var k := FirstNamed(t.sessions, id, now, 0).value;
      && |u.sessions| == |t.sessions|
      && (at == if TextOf(t.sessions[k].texts.host) == TextOf(host) then Some(k) else None)
      && (at.Some? ==> Continued(u.sessions[k], Aged(t.sessions[k], now), now, target, isPost))
      && forall j :: 0 <= j < |t.sessions| && (at.None? || j != k) ==>
           u.sessions[j] == Aged(t.sessions[j], now) || u.sessions[j] == t.sessions[j]
  {
    FindIs(t, id, now, 0);
    var k := FirstNamed(t.sessions, id, now, 0).value;
    AgedTwice(t.sessions[k], now);
    ContinuedIs(Aged(t.sessions[k], now), now, target, isPost);
    hide Aged, Accepted, Continued, TextOf, FindFrom, FreeFrom, Admitted, Padded, LowerHex, IssuedAt;
  }

  lemma AcceptMade(t: Table, id: Bytes, now: nat, target: Option<Bytes>, isPost: bool, host: Bytes)
    requires GoodArguments(id, now, target, host) && FirstNamed(t.sessions, id, now, 0).None?
    ensures var (u, at) := AcceptSolved(t, id, now, target, isPost, host);
      && |u.sessions| == |t.sessions|
      && (at.Some? <==> exists k :: FirstFree(t.sessions, now, k))
      && (at.Some? ==> FirstFree(t.sessions, now, at.value)
                       && Fresh(u.sessions[at.value], id, now, target, isPost, host))
      && forall j :: 0 <= j < |t.sessions| && at != Some(j) ==> u.sessions[j] == Aged(t.sessions[j], now)
  {
    FindIs(t, id, now, 0);
    FreshIs(id, now, target, isPost, host);
    var found := FindFrom(t, id, now, 0).0;
    forall k | 0 <= k < |t.sessions|
      ensures found.sessions[k] == Aged(t.sessions[k], now)
      ensures Aged(found.sessions[k], now) == found.sessions[k]
      ensures Alive(found.sessions[k], now) <==> Alive(t.sessions[k], now)
    {
      AgedTwice(t.sessions[k], now);
    }
    FreeIs(found, now, 0);
    hide Aged, Alive, Accepted, Fresh, TextOf, FindFrom, FreeFrom, Admitted, Padded, LowerHex, IssuedAt;
    var slot := FreeFrom(found, now, 0).1;
    if slot.Some? {
      assert FirstFree(t.sessions, now, slot.value) by { assert FirstFree(found.sessions, now, slot.value); }
    } else {
      forall k: nat ensures !FirstFree(t.sessions, now, k) {
        assert k < |t.sessions| ==> Alive(found.sessions[k], now);
      }
    }
  }

  /** A solved id is accepted exactly when the arguments are good and either the living session with
      this id has this host, or there is none and some place is free or expired. */
  lemma AcceptExactly(t: Table, id: Bytes, now: nat, target: Option<Bytes>, isPost: bool, host: Bytes)
    ensures var (u, at) := AcceptSolved(t, id, now, target, isPost, host);
      var named := FirstNamed(t.sessions, id, now, 0);
      && |u.sessions| == |t.sessions|
      && (at.Some? <==>
            && GoodArguments(id, now, target, host)
            && match named
               case Some(k) => TextOf(t.sessions[k].texts.host) == TextOf(host)
               case None => exists k :: FirstFree(t.sessions, now, k))
      && (at.Some? ==>
            if named.Some? then
              at == named && Continued(u.sessions[at.value], Aged(t.sessions[at.value], now), now, target, isPost)
            else FirstFree(t.sessions, now, at.value) && Fresh(u.sessions[at.value], id, now, target, isPost, host))
      && forall j :: 0 <= j < |t.sessions| && at != Some(j) ==>
           u.sessions[j] == Aged(t.sessions[j], now) || u.sessions[j] == t.sessions[j]
  {
    hide Aged, Alive, Continued, Fresh, TextOf, FirstFree;
    if GoodArguments(id, now, target, host) {
      hide AcceptSolved;
      if FirstNamed(t.sessions, id, now, 0).Some? {
        AcceptFound(t, id, now, target, isPost, host);
      } else {
        AcceptMade(t, id, now, target, isPost, host);
      }
    }
  }

  // ----- receiving a body -----

  // ankah_session_append, piece by piece.
  function Received(t: Table, i: nat, pieces: seq<Bytes>): (r: (Table, int))
    requires i < |t.sessions| && pieces != []
    ensures |r.0.sessions| == |t.sessions|
    decreases |pieces|
  {
    var n := |pieces| - 1;
    if n == 0 then Append(t, i, pieces[0])
    else
      var (u, result) := Received(t, i, pieces[..n]);
      if result < 0 then (u, result) else Append(u, i, pieces[n])
  }

  function Joined(pieces: seq<Bytes>): Bytes {
    if pieces == [] then [] else Joined(pieces[..|pieces| - 1]) + pieces[|pieces| - 1]
  }

  /** A body may come in any pieces: it is refused exactly when they are more than the POST may have,
      and otherwise the payload has gained exactly their bytes and is complete exactly when none are
      missing. */
  lemma {:induction false} ReceivedExactly(t: Table, i: nat, p: nat, pieces: seq<Bytes>)
    requires i < |t.sessions| && pieces != [] && t.sessions[i].active && t.sessions[i].saved == Some(p)
    requires p in t.heap && |t.heap[p].body| <= t.heap[p].size
    ensures var (u, result) := Received(t, i, pieces); var grown := t.heap[p].body + Joined(pieces);
      && u.sessions == t.sessions && u.pinned == t.pinned && u.pending == t.pending && u.heap.Keys == t.heap.Keys
      && (forall q :: q in t.heap && q != p ==> u.heap[q] == t.heap[q])
      && (result == -1 <==> |grown| > t.heap[p].size)
      && (result == 1 <==> |grown| == t.heap[p].size)
      && (result == 0 <==> |grown| < t.heap[p].size)
      && (result != -1 ==> u.heap[p] == t.heap[p].(body := grown))
      && u.heap[p].size == t.heap[p].size && |u.heap[p].body| <= u.heap[p].size
    decreases |pieces|
  {
    var n := |pieces| - 1;
    if n == 0 {
      assert Joined(pieces) == pieces[0] by { assert pieces[..0] == []; }
    } else {
      ReceivedExactly(t, i, p, pieces[..n]);
      var body := t.heap[p].body;
      assert body + Joined(pieces) == (body + Joined(pieces[..n])) + pieces[n];
    }
  }

}
