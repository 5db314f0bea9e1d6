/** Active sessions have distinct ids of 32 lowercase hex digits, in every run whose drawn ids
    are new. */
module SessionNames {
  import opened Options
  import opened Bytes
  import opened Ids
  import opened Sessions
  import opened SessionSafety
  import opened SessionRecords
  import opened SessionScan

  predicate HexId(b: Bytes) {
    |b| == 33 && b[32] == 0 && forall i :: 0 <= i < 32 ==> LowerHex(b[i])
  }

  // An id as the journal and the slot indexes spell it, and as a session's text without its NUL.
  function IdText(b: Bytes): Id
    requires HexId(b)
  {
    seq(32, i requires 0 <= i < 32 => b[i] as char)
  }

  function IdBytes(id: Id): (b: Bytes)
    ensures |b| == 32
  {
    seq(32, i requires 0 <= i < 32 => id[i] as nat)
  }

  lemma IdSpelling(b: Bytes, id: Id)
    ensures HexId(b) ==> IdBytes(IdText(b)) + [0] == b
    ensures HexId(IdBytes(id) + [0]) && IdText(IdBytes(id) + [0]) == id
  {
  }

  predicate UniqueIds(sessions: seq<Session>) {
    forall i, j :: 0 <= i < j < |sessions| && sessions[i].active && sessions[j].active ==>
      sessions[i].texts.id != sessions[j].texts.id
  }

  predicate Identified(sessions: seq<Session>) {
    UniqueIds(sessions) && forall i :: 0 <= i < |sessions| && sessions[i].active ==> HexId(sessions[i].texts.id)
  }

  // No active session has this id.
  predicate Unused(sessions: seq<Session>, id: Bytes) {
    forall i :: 0 <= i < |sessions| && sessions[i].active ==> sessions[i].texts.id != id
  }

  // Randomness gives hex digits, and never an id that is in use.
  predicate FreshDraw(t: Table, e: Event) {
    e.NewOne? && e.draft.drawn.Some? ==>
      HexId(e.draft.drawn.value.0) && Unused(t.sessions, e.draft.drawn.value.0)
  }

  // Sessions may end, but those that stay keep their id, and a POST they hold is the one they held.
  predicate Narrows(before: seq<Session>, after: seq<Session>) {
    && |after| == |before|
    && (forall i :: 0 <= i < |before| && after[i].active ==>
          before[i].active && after[i].texts.id == before[i].texts.id)
    && forall i :: 0 <= i < |before| && after[i].saved.Some? ==> after[i].saved == before[i].saved
  }

  lemma NarrowsKeeps(before: seq<Session>, after: seq<Session>, id: Bytes)
    requires Narrows(before, after)
    ensures Identified(before) ==> Identified(after)
    ensures Unused(before, id) ==> Unused(after, id)
  {
  }

  lemma NarrowsTwice(a: seq<Session>, b: seq<Session>, c: seq<Session>)
    requires Narrows(a, b) && Narrows(b, c)
    ensures Narrows(a, c)
  {
  }

  lemma ReleaseNarrows(t: Table, i: nat)
    requires i < |t.sessions|
    ensures Narrows(t.sessions, Release(t, i).sessions) && Narrows(t.sessions, Discard(t, i).sessions)
  {
  }

  lemma ExpireNarrows(t: Table, i: nat, now: nat)
    requires i < |t.sessions|
    ensures Narrows(t.sessions, Expire(t, i, now).sessions)
  {
    ReleaseNarrows(t, i);
  }

  lemma {:induction false} ExpireFirstNarrows(t: Table, now: nat, n: nat)
    requires n <= |t.sessions|
    ensures Narrows(t.sessions, ExpireFirst(t, now, n).sessions)
    decreases n
  {
    hide Narrows, Expire;
    if n == 0 {
      NarrowsItself(t.sessions);
    } else {
      ExpireFirstNarrows(t, now, n - 1);
      ExpireNarrows(ExpireFirst(t, now, n - 1), n - 1, now);
      NarrowsTwice(t.sessions, ExpireFirst(t, now, n - 1).sessions, ExpireFirst(t, now, n).sessions);
    }
  }

  lemma NarrowsItself(sessions: seq<Session>)
    ensures Narrows(sessions, sessions)
  {
  }

  lemma {:induction false} FreeFromNarrows(t: Table, now: nat, i: nat)
    requires i <= |t.sessions|
    ensures Narrows(t.sessions, FreeFrom(t, now, i).0.sessions)
    decreases |t.sessions| - i
  {
    hide Narrows, Expire;
    if i == |t.sessions| {
      NarrowsItself(t.sessions);
    } else {
      ExpireNarrows(t, i, now);
      ExpireShape(t, i, now);
      FreeFromNarrows(Expire(t, i, now), now, i + 1);
      NarrowsTwice(t.sessions, Expire(t, i, now).sessions, FreeFrom(Expire(t, i, now), now, i + 1).0.sessions);
    }
  }

  lemma {:induction false} DiscardSavedNarrows(t: Table, n: nat)
    requires n <= |t.sessions|
    ensures Narrows(t.sessions, DiscardSaved(t, n).sessions)
    decreases n
  {
    hide Narrows, Release;
    if n == 0 {
      NarrowsItself(t.sessions);
    } else {
      DiscardSavedNarrows(t, n - 1);
      ReleaseNarrows(DiscardSaved(t, n - 1), n - 1);
      NarrowsTwice(t.sessions, DiscardSaved(t, n - 1).sessions, DiscardSaved(t, n).sessions);
    }
  }

  lemma AgedKeepsId(s: Session, now: nat)
    ensures Aged(s, now).active ==> Alive(s, now) && Aged(s, now).texts.id == s.texts.id
    ensures Aged(s, now).saved.Some? ==> Aged(s, now).saved == s.saved
  {
    hide Blank;
    BlankIsInactive();
  }

  lemma FindFromNarrows(t: Table, id: Bytes, now: nat)
    ensures var (u, at) := FindFrom(t, id, now, 0);
      Narrows(t.sessions, u.sessions) && (at.None? ==> Unused(u.sessions, id + [0]))
  {
    hide Aged, Stale;
    FindIs(t, id, now, 0);
    var (u, at) := FindFrom(t, id, now, 0);
    forall k | 0 <= k < |t.sessions|
      ensures u.sessions[k].saved.Some? ==> u.sessions[k].saved == t.sessions[k].saved
      ensures u.sessions[k].active ==> t.sessions[k].active && u.sessions[k].texts.id == t.sessions[k].texts.id
      ensures u.sessions[k].active && at.None? ==> u.sessions[k].texts.id != id + [0]
    {
      AgedKeepsId(t.sessions[k], now);
    }
  }

  lemma PutIdentified(sessions: seq<Session>, i: nat, s: Session)
    requires i < |sessions| && Identified(sessions) && HexId(s.texts.id)
    requires Unused(sessions, s.texts.id) || (sessions[i].active && s.texts.id == sessions[i].texts.id)
    ensures Identified(sessions[i := s])
  {
  }

  lemma AdmittedHex(id: Bytes, now: nat)
    requires SolvedIdInWindow(id, now)
    ensures |id| == 32 && (forall i :: 0 <= i < 32 ==> LowerHex(id[i])) && HexId(id + [0])
  {
  }

  lemma AcceptIdentified(t: Table, id: Bytes, now: nat, target: Option<Bytes>, isPost: bool, host: Bytes)
    requires Identified(t.sessions)
    ensures Identified(AcceptSolved(t, id, now, target, isPost, host).0.sessions)
  {
    hide Identified, Unused, Narrows, Stale, Blank, SolvedIdInWindow;
    var (found, at) := FindFrom(t, id, now, 0);
    FindFromNarrows(t, id, now);
    NarrowsKeeps(t.sessions, found.sessions, id + [0]);
    if at.None? {
      var (free, slot) := FreeFrom(found, now, 0);
      FreeFromNarrows(found, now, 0);
      NarrowsKeeps(found.sessions, free.sessions, id + [0]);
      if SolvedIdInWindow(id, now) && slot.Some? {
        AdmittedHex(id, now);
        AcceptedId(Admitted(id, IssuedAt(id), host), now, target, isPost);
        PutIdentified(free.sessions, slot.value, Accepted(Admitted(id, IssuedAt(id), host), now, target, isPost));
      }
    } else {
      AcceptedId(found.sessions[at.value], now, target, isPost);
      ActiveIsHex(found.sessions, at.value);
      PutIdentified(found.sessions, at.value, Accepted(found.sessions[at.value], now, target, isPost));
    }
  }

  lemma AcceptedId(s: Session, now: nat, target: Option<Bytes>, isPost: bool)
    ensures Accepted(s, now, target, isPost).texts.id == s.texts.id
  {
  }

  lemma ActiveIsHex(sessions: seq<Session>, i: nat)
    requires Identified(sessions) && i < |sessions| && sessions[i].active
    ensures HexId(sessions[i].texts.id)
  {
  }

  lemma NewIdentified(t: Table, d: Draft, now: nat)
    requires Identified(t.sessions) && FreshDraw(t, NewOne(d, now))
    ensures Identified(New(t, d, now).0.sessions)
  {
    hide Identified, Unused, Narrows, AtCap;
    var u := ExpireFirst(t, now, |t.sessions|);
    ExpireFirstNarrows(t, now, |t.sessions|);
    var slot := FirstInactive(u.sessions);
    var id := if d.drawn.Some? then d.drawn.value.0 else [];
    NarrowsKeeps(t.sessions, u.sessions, id);
    if slot < |u.sessions| {
      BlankNarrows(u.sessions, slot);
      NarrowsKeeps(u.sessions, u.sessions[slot := Blank()], id);
      if d.drawn.Some? {
        PutIdentified(u.sessions, slot, Drafted(d, now));
      }
    }
  }

  lemma BlankNarrows(sessions: seq<Session>, i: nat)
    requires i < |sessions|
    ensures Narrows(sessions, sessions[i := Blank()])
  {
    hide Blank;
    BlankIsInactive();
  }

  lemma PlainNarrows(t: Table, e: Event)
    requires Enabled(t, e)
    requires e.AppendTo? || e.SolveOne? || e.TakeOne? || e.ReserveOne? || e.UnreserveOne? || e.LetGoOf?
    ensures Narrows(t.sessions, Apply(t, e).sessions)
  {
  }

  lemma CaptureNarrows(t: Table, now: nat)
    ensures Narrows(t.sessions, Capture(t, now).0.sessions)
  {
    var u := ExpireFirst(t, now, |t.sessions|);
    ExpireFirstNarrows(t, now, |t.sessions|);
    PinAllSessions(u, PayloadsOf(CapturedSessions(u.sessions, u.heap)));
  }

  lemma StepNarrows(t: Table, e: Event)
    requires Enabled(t, e) && !e.AcceptOne? && !e.NewOne?
    ensures Narrows(t.sessions, Apply(t, e).sessions)
  {
    hide Narrows;
    match e
    case FindOne(id, now) =>
      NarrowsItself(t.sessions);
      FindFromNarrows(t, id, now);
    case CancelOne(i) => ReleaseNarrows(t, i);
    case DiscardOne(i) => ReleaseNarrows(t, i);
    case DiscardAll => DiscardSavedNarrows(t, |t.sessions|);
    case ExpireAll(now) => ExpireFirstNarrows(t, now, |t.sessions|);
    case CaptureAll(now) => CaptureNarrows(t, now);
    case _ => PlainNarrows(t, e);
  }

  /** Every operation keeps ids distinct and well formed, if the ids it draws are new. */
  lemma StepIdentified(t: Table, e: Event)
    requires Identified(t.sessions) && Enabled(t, e) && FreshDraw(t, e)
    ensures Identified(Apply(t, e).sessions)
  {
    hide Identified, Narrows;
    match e
    case AcceptOne(id, now, target, isPost, host) => AcceptIdentified(t, id, now, target, isPost, host);
    case NewOne(draft, now) => NewIdentified(t, draft, now);
    case _ =>
      StepNarrows(t, e);
      NarrowsKeeps(t.sessions, Apply(t, e).sessions, []);
  }

  // A run whose drawn ids are new when they are drawn.
  predicate RunsFresh(t: Table, events: seq<Event>, u: Table)
    decreases |events|
  {
    if events == [] then t == u
    else Enabled(t, events[0]) && FreshDraw(t, events[0]) && RunsFresh(Apply(t, events[0]), events[1..], u)
  }

  lemma {:induction false} RunIdentified(t: Table, events: seq<Event>, u: Table)
    requires Identified(t.sessions) && RunsFresh(t, events, u)
    ensures Identified(u.sessions) && Runs(t, events, u)
    decreases |events|
  {
    hide Identified, Enabled, FreshDraw, Apply;
    if events != [] {
      StepIdentified(t, events[0]);
      RunIdentified(Apply(t, events[0]), events[1..], u);
    }
  }

  /** In every table that such a run reaches from an empty one, ids tell sessions apart. */
  lemma ReachableIdentified(events: seq<Event>, t: Table)
    requires RunsFresh(EmptyTable(), events, t)
    ensures Identified(t.sessions)
  {
    BlankIsInactive();
    RunIdentified(EmptyTable(), events, t);
  }
}
