/** Every session of a reachable table can be written as a valid snapshot record. */
module SessionRecords {
  import opened Options
  import opened Bytes
  import opened LittleEndian
  import opened Sessions
  import opened SessionSafety
  import opened SessionImage

  predicate Recordable(s: Session) {
    s.active ==>
      && SizedTexts(s.texts) && Spelled(s.texts, VERSION)
      && s.issued < Limit(8) && s.solvedUntil < Limit(8) && s.bodyUntil < Limit(8)
      && (s.saved.Some? ==> s.isPost && HasTarget(s))
  }

  predicate AllRecordable(sessions: seq<Session>) {
    forall i :: 0 <= i < |sessions| ==> Recordable(sessions[i])
  }

  // Clocks leave room for the deadlines, and texts are C strings of the sizes that the
  // callers' buffers allow.
  predicate Plausible(e: Event) {
    match e
    case AcceptOne(id, now, target, isPost, host) => now + 1800 < Limit(8) && 0 !in host
    case NewOne(d, now) =>
      && now < Limit(8) && |d.target| < 2048 && |d.peer| < 64 && 0 !in d.host
      && (d.drawn.Some? ==>
          var (id, token, challenge) := d.drawn.value;
          |id| == 33 && id[32] == 0 && |token| == 33 && token[32] == 0 && |challenge| == 160 && 0 in challenge)
    case SolveOne(i, now) => now + 1800 < Limit(8)
    case _ => true
  }

  lemma PaddedSpelled(text: Bytes, size: nat)
    requires |text| < size
    ensures |Padded(text, size)| == size && 0 in Padded(text, size) && Padded(text, size)[..|text|] == text
  {
    assert Padded(text, size)[|text|] == 0;
  }

  lemma EmptiedRecordable(s: Session)
    requires Recordable(s)
    ensures Recordable(Emptied(s)) && Recordable(Blank())
  {
  }

  lemma ReleaseRecordable(t: Table, i: nat)
    requires AllRecordable(t.sessions) && i < |t.sessions|
    ensures AllRecordable(Release(t, i).sessions) && AllRecordable(Discard(t, i).sessions)
  {
    hide Recordable;
    EmptiedRecordable(t.sessions[i]);
  }

  lemma ExpireRecordable(t: Table, i: nat, now: nat)
    requires AllRecordable(t.sessions) && i < |t.sessions|
    ensures AllRecordable(Expire(t, i, now).sessions)
  {
    hide AllRecordable;
    ReleaseRecordable(t, i);
  }

  lemma {:induction false} ExpireFirstRecordable(t: Table, now: nat, n: nat)
    requires AllRecordable(t.sessions) && n <= |t.sessions|
    ensures AllRecordable(ExpireFirst(t, now, n).sessions)
    decreases n
  {
    hide AllRecordable;
    if n > 0 {
      ExpireFirstRecordable(t, now, n - 1);
      ExpireRecordable(ExpireFirst(t, now, n - 1), n - 1, now);
    }
  }

  lemma {:induction false} FindFromRecordable(t: Table, id: Bytes, now: nat, i: nat)
    requires AllRecordable(t.sessions) && i <= |t.sessions|
    ensures AllRecordable(FindFrom(t, id, now, i).0.sessions)
    decreases |t.sessions| - i
  {
    hide AllRecordable;
    if i < |t.sessions| {
      ExpireRecordable(t, i, now);
      ExpireShape(t, i, now);
      FindFromRecordable(Expire(t, i, now), id, now, i + 1);
    }
  }

  lemma {:induction false} FreeFromRecordable(t: Table, now: nat, i: nat)
    requires AllRecordable(t.sessions) && i <= |t.sessions|
    ensures AllRecordable(FreeFrom(t, now, i).0.sessions)
    decreases |t.sessions| - i
  {
    hide AllRecordable;
    if i < |t.sessions| {
      ExpireRecordable(t, i, now);
      ExpireShape(t, i, now);
      FreeFromRecordable(Expire(t, i, now), now, i + 1);
    }
  }

  lemma {:induction false} DiscardSavedRecordable(t: Table, n: nat)
    requires AllRecordable(t.sessions) && n <= |t.sessions|
    ensures AllRecordable(DiscardSaved(t, n).sessions)
    decreases n
  {
    hide AllRecordable;
    if n > 0 {
      DiscardSavedRecordable(t, n - 1);
      ReleaseRecordable(DiscardSaved(t, n - 1), n - 1);
    }
  }

  lemma AcceptedRecordable(s: Session, now: nat, target: Option<Bytes>, isPost: bool)
    requires Recordable(s) && s.active && now + 1800 < Limit(8) && (target.Some? ==> |target.value| < 2048)
    ensures Recordable(Accepted(s, now, target, isPost))
  {
    if target.Some? { PaddedSpelled(target.value, 2048); }
  }

  lemma AdmittedRecordable(id: Bytes, host: Bytes, now: nat)
    requires SolvedIdInWindow(id, now) && now + 1800 < Limit(8) && host != [] && |host| < 256 && 0 !in host
    ensures Recordable(Admitted(id, IssuedAt(id), host)) && Admitted(id, IssuedAt(id), host).active
  {
    PaddedSpelled(host, 256);
    assert Padded(host, 256)[0] == host[0];
    assert Zeros(160)[0] == 0 && Zeros(2048)[0] == 0 && Zeros(64)[0] == 0;
  }

  lemma WithSessionRecordable(t: Table, i: nat, s: Session)
    requires AllRecordable(t.sessions) && i < |t.sessions| && Recordable(s)
    ensures AllRecordable(WithSession(t, i, s).sessions)
  {
  }

  lemma AcceptSolvedRecordable(t: Table, id: Bytes, now: nat, target: Option<Bytes>, isPost: bool, host: Bytes)
    requires AllRecordable(t.sessions) && now + 1800 < Limit(8) && 0 !in host
    ensures AllRecordable(AcceptSolved(t, id, now, target, isPost, host).0.sessions)
  {
    hide Recordable, AllRecordable, Accepted, Admitted;
    if host != [] && |host| < 256 && (target.Some? ==> |target.value| < 2048) && SolvedIdInWindow(id, now) {
      var (found, at) := FindFrom(t, id, now, 0);
      FindFromRecordable(t, id, now, 0);
      if at.Some? {
        OneRecordable(found.sessions, at.value);
        AcceptedRecordable(found.sessions[at.value], now, target, isPost);
        WithSessionRecordable(found, at.value, Accepted(found.sessions[at.value], now, target, isPost));
      } else {
        var (free, slot) := FreeFrom(found, now, 0);
        FreeFromRecordable(found, now, 0);
        if slot.Some? {
          AdmittedRecordable(id, host, now);
          AcceptedRecordable(Admitted(id, IssuedAt(id), host), now, target, isPost);
          WithSessionRecordable(free, slot.value, Accepted(Admitted(id, IssuedAt(id), host), now, target, isPost));
        }
      }
    }
  }

  lemma OneRecordable(sessions: seq<Session>, i: nat)
    requires AllRecordable(sessions) && i < |sessions|
    ensures Recordable(sessions[i])
  {
  }

  lemma DraftedRecordable(d: Draft, now: nat)
    requires d.drawn.Some? && Plausible(NewOne(d, now)) && d.host != [] && |d.host| < 256
    requires d.target != [] && d.target[0] != 0
    ensures Recordable(Drafted(d, now))
  {
    PaddedSpelled(d.host, 256);
    PaddedSpelled(d.target, 2048);
    PaddedSpelled(d.peer, 64);
    assert Padded(d.host, 256)[0] == d.host[0];
  }

  lemma NewRecordable(t: Table, d: Draft, now: nat)
    requires AllRecordable(t.sessions) && Plausible(NewOne(d, now)) && ProperDraft(d, t)
    ensures AllRecordable(New(t, d, now).0.sessions)
  {
    hide Recordable, Drafted;
    var u := ExpireFirst(t, now, |t.sessions|);
    ExpireFirstRecordable(t, now, |t.sessions|);
    BlankRecordable();
    if d.host != [] && |d.host| < 256 && d.drawn.Some? { DraftedRecordable(d, now); }
  }

  lemma BlankRecordable()
    ensures Recordable(Blank())
  {
  }

  lemma StepRecordable(t: Table, e: Event)
    requires AllRecordable(t.sessions) && Enabled(t, e) && Plausible(e)
    ensures AllRecordable(Apply(t, e).sessions)
  {
    match e
    case FindOne(id, now) => FindFromRecordable(t, id, now, 0);
    case AcceptOne(id, now, target, isPost, host) => AcceptSolvedRecordable(t, id, now, target, isPost, host);
    case NewOne(draft, now) => NewRecordable(t, draft, now);
    case AppendTo(i, data) =>
    case SolveOne(i, now) =>
    case TakeOne(i, token, now) => EmptiedRecordable(t.sessions[i]);
    case ReserveOne(i, token, now) =>
    case UnreserveOne(i) =>
    case CancelOne(i) => ReleaseRecordable(t, i);
    case DiscardOne(i) => ReleaseRecordable(t, i);
    case DiscardAll => DiscardSavedRecordable(t, |t.sessions|);
    case ExpireAll(now) => ExpireFirstRecordable(t, now, |t.sessions|);
    case LetGoOf(q) =>
    case CaptureAll(now) => CaptureSessions(t, now);
  }

  lemma {:induction false} PinAllSessions(t: Table, payloads: seq<nat>)
    ensures PinAll(t, payloads).sessions == t.sessions
    decreases |payloads|
  {
    if payloads != [] { PinAllSessions(t, payloads[..|payloads| - 1]); }
  }

  lemma CaptureSessions(t: Table, now: nat)
    requires AllRecordable(t.sessions)
    ensures AllRecordable(Capture(t, now).0.sessions)
  {
    var u := ExpireFirst(t, now, |t.sessions|);
    ExpireFirstRecordable(t, now, |t.sessions|);
    PinAllSessions(u, PayloadsOf(CapturedSessions(u.sessions, u.heap)));
  }
}
