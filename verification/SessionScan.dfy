/** What the scans of the session table expire and find, session by session. */
module SessionScan {
  import opened Options
  import opened Bytes
  import opened Sessions

  // ----- what expiry leaves of one session -----

  predicate Alive(s: Session, now: nat) {
    s.active && !Stale(s, now)
  }

  // The session has a POST that expire() would not take away.
  predicate HoldsPost(s: Session, now: nat) {
    Alive(s, now) && s.saved.Some? && !(s.solvedUntil != 0 && now > s.bodyUntil)
  }

  function Aged(s: Session, now: nat): Session {
    if !s.active then s
    else if Stale(s, now) then Blank()
    else if s.saved.Some? && s.solvedUntil != 0 && now > s.bodyUntil then Emptied(s)
    else s
  }

  lemma ExpireIs(t: Table, i: nat, now: nat)
    requires i < |t.sessions|
    ensures Expire(t, i, now).sessions == t.sessions[i := Aged(t.sessions[i], now)]
  {
    hide Blank, Emptied, Stale;
  }

  lemma {:induction false} ExpireFirstAges(t: Table, now: nat, n: nat)
    requires n <= |t.sessions|
    ensures var u := ExpireFirst(t, now, n);
      forall k :: 0 <= k < |t.sessions| ==> u.sessions[k] == if k < n then Aged(t.sessions[k], now) else t.sessions[k]
    decreases n
  {
    hide Expire, Aged;
    if n > 0 {
      ExpireFirstAges(t, now, n - 1);
      ExpireIs(ExpireFirst(t, now, n - 1), n - 1, now);
    }
  }

  // ----- what find finds -----

  predicate Named(s: Session, id: Bytes, now: nat) {
    Alive(s, now) && s.texts.id == id + [0]
  }

  // The first session from i on that is alive and has this id.
  function FirstNamed(sessions: seq<Session>, id: Bytes, now: nat, i: nat): (at: Option<nat>)
    requires i <= |sessions|
    ensures at.Some? ==> i <= at.value < |sessions| && Named(sessions[at.value], id, now)
    ensures forall k :: i <= k < |sessions| && (at.Some? ==> k < at.value) ==> !Named(sessions[k], id, now)
    decreases |sessions| - i
  {
    if i == |sessions| then None
    else if Named(sessions[i], id, now) then Some(i)
    else FirstNamed(sessions, id, now, i + 1)
  }

  lemma FirstNamedSame(a: seq<Session>, b: seq<Session>, id: Bytes, now: nat, i: nat)
    requires |a| == |b| && i <= |a|
    requires forall k :: i <= k < |a| ==> (Named(a[k], id, now) <==> Named(b[k], id, now))
    ensures FirstNamed(a, id, now, i) == FirstNamed(b, id, now, i)
  {
    hide Named;
    var p, q := FirstNamed(a, id, now, i), FirstNamed(b, id, now, i);
    assert p.Some? ==> Named(b[p.value], id, now);
    assert q.Some? ==> Named(a[q.value], id, now);
  }

  // Whether the scan that stopped at `at` went over session k.
  predicate Scanned(k: int, at: Option<nat>, i: nat) {
    i <= k && (at.None? || k <= at.value)
  }

  /** ankah_session_find on ages and names: it finds the first living session with the id,
      and expires exactly the sessions up to there. */
  lemma {:induction false} FindIs(t: Table, id: Bytes, now: nat, i: nat)
    requires i <= |t.sessions|
    ensures var (u, at) := FindFrom(t, id, now, i);
      && |u.sessions| == |t.sessions| && at == FirstNamed(t.sessions, id, now, i)
      && forall k :: 0 <= k < |t.sessions| ==>
           u.sessions[k] == if Scanned(k, at, i) then Aged(t.sessions[k], now) else t.sessions[k]
    decreases |t.sessions| - i
  {
    if i < |t.sessions| {
      hide Expire, Blank, Emptied, Stale;
      ExpireIs(t, i, now);
      var u := Expire(t, i, now);
      AgedName(t.sessions[i], id, now);
      if !Named(t.sessions[i], id, now) {
        FirstNamedSame(t.sessions, u.sessions, id, now, i + 1);
        FindIs(u, id, now, i + 1);
      }
    }
  }

  lemma AgedName(s: Session, id: Bytes, now: nat)
    ensures Matches(Aged(s, now), id) <==> Named(s, id, now)
  {
    hide Blank;
    BlankIsInactive();
  }

  lemma BlankIsInactive()
    ensures !Blank().active && Blank().saved.None?
  {
  }
}
