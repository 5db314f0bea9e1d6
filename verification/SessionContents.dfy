/** No operation changes a complete payload that it keeps, and only its holders shrink
    the pins held outside the table. */
module SessionContents {
  import opened Options
  import opened Bytes
  import opened Sessions
  import opened SessionSafety

  predicate SameContent(p: Payload, q: Payload) {
    q.request == p.request && q.body == p.body && q.size == p.size
  }

  // Payloads may go, but those that stay keep their content.
  ghost predicate Trims(heap: map<nat, Payload>, after: map<nat, Payload>) {
    after.Keys <= heap.Keys && forall p :: p in after ==> SameContent(heap[p], after[p])
  }

  lemma ReleaseTrims(t: Table, i: nat)
    requires i < |t.sessions|
    ensures Trims(t.heap, Release(t, i).heap) && Release(t, i).pinned == t.pinned
  {
  }

  lemma ExpireTrims(t: Table, i: nat, now: nat)
    requires i < |t.sessions|
    ensures Trims(t.heap, Expire(t, i, now).heap) && Expire(t, i, now).pinned == t.pinned
  {
    ReleaseTrims(t, i);
  }

  lemma {:induction false} ExpireFirstTrims(t: Table, now: nat, n: nat)
    requires n <= |t.sessions|
    ensures Trims(t.heap, ExpireFirst(t, now, n).heap) && ExpireFirst(t, now, n).pinned == t.pinned
    decreases n
  {
    if n > 0 {
      ExpireFirstTrims(t, now, n - 1);
      ExpireTrims(ExpireFirst(t, now, n - 1), n - 1, now);
    }
  }

  lemma {:induction false} FindFromTrims(t: Table, id: Bytes, now: nat, i: nat)
    requires i <= |t.sessions|
    ensures var u := FindFrom(t, id, now, i).0; Trims(t.heap, u.heap) && u.pinned == t.pinned
    decreases |t.sessions| - i
  {
    if i < |t.sessions| {
      ExpireTrims(t, i, now);
      ExpireShape(t, i, now);
      FindFromTrims(Expire(t, i, now), id, now, i + 1);
    }
  }

  lemma {:induction false} FreeFromTrims(t: Table, now: nat, i: nat)
    requires i <= |t.sessions|
    ensures var u := FreeFrom(t, now, i).0; Trims(t.heap, u.heap) && u.pinned == t.pinned
    decreases |t.sessions| - i
  {
    if i < |t.sessions| {
      ExpireTrims(t, i, now);
      ExpireShape(t, i, now);
      FreeFromTrims(Expire(t, i, now), now, i + 1);
    }
  }

  lemma {:induction false} DiscardSavedTrims(t: Table, n: nat)
    requires n <= |t.sessions|
    ensures Trims(t.heap, DiscardSaved(t, n).heap) && DiscardSaved(t, n).pinned == t.pinned
    decreases n
  {
    if n > 0 {
      DiscardSavedTrims(t, n - 1);
      ReleaseTrims(DiscardSaved(t, n - 1), n - 1);
    }
  }

  predicate AllIn(payloads: seq<nat>, heap: map<nat, Payload>) {
    forall k :: 0 <= k < |payloads| ==> payloads[k] in heap
  }

  lemma {:induction false} PinAllTrims(t: Table, payloads: seq<nat>)
    requires AllIn(payloads, t.heap)
    ensures var u := PinAll(t, payloads); Trims(t.heap, u.heap) && u.pinned == t.pinned + multiset(payloads)
    ensures PinAll(t, payloads).heap.Keys == t.heap.Keys && PinAll(t, payloads).sessions == t.sessions
    decreases |payloads|
  {
    if payloads != [] {
      PinAllTrims(t, payloads[..|payloads| - 1]);
      LastSplit(payloads);
    }
  }

  lemma AcceptTrims(t: Table, id: Bytes, now: nat, target: Option<Bytes>, isPost: bool, host: Bytes)
    ensures var u := AcceptSolved(t, id, now, target, isPost, host).0; Trims(t.heap, u.heap) && u.pinned == t.pinned
  {
    FindFromTrims(t, id, now, 0);
    FreeFromTrims(FindFrom(t, id, now, 0).0, now, 0);
  }

  // What an event may do to one complete payload.
  ghost predicate KeepsContent(t: Table, u: Table, p: nat) {
    p in t.heap && p in u.heap && |t.heap[p].body| == t.heap[p].size ==> SameContent(t.heap[p], u.heap[p])
  }

  lemma NewContent(t: Table, d: Draft, now: nat, p: nat)
    requires ProperDraft(d, t)
    ensures var u := New(t, d, now).0; KeepsContent(t, u, p) && u.pinned == t.pinned
  {
    ExpireFirstTrims(t, now, |t.sessions|);
  }

  lemma AppendContent(t: Table, i: nat, data: Bytes, p: nat)
    requires i < |t.sessions|
    ensures var u := Append(t, i, data).0; KeepsContent(t, u, p) && u.pinned == t.pinned
  {
  }

  lemma CaptureContent(caps: Caps, t: Table, now: nat, p: nat)
    requires Inv(caps, t)
    ensures var u := Capture(t, now).0; KeepsContent(t, u, p) && t.pinned <= u.pinned
  {
    var u := ExpireFirst(t, now, |t.sessions|);
    ExpireFirstTrims(t, now, |t.sessions|);
    CapturedInHeap(u.sessions, u.heap);
    PinAllTrims(u, PayloadsOf(CapturedSessions(u.sessions, u.heap)));
  }

  predicate AllComplete(sessions: seq<Session>, heap: map<nat, Payload>) {
    forall k :: 0 <= k < |sessions| ==>
      sessions[k].active && (sessions[k].saved.Some? ==> IsComplete(heap, sessions[k].saved))
  }

  lemma {:induction false} CapturedComplete(sessions: seq<Session>, heap: map<nat, Payload>)
    ensures AllComplete(CapturedSessions(sessions, heap), heap)
    decreases |sessions|
  {
    if sessions != [] {
      var before, last := sessions[..|sessions| - 1], sessions[|sessions| - 1];
      CapturedComplete(before, heap);
      if Captured(last, heap) {
        assert CapturedSessions(sessions, heap) == CapturedSessions(before, heap) + [last];
      } else {
        assert CapturedSessions(sessions, heap) == CapturedSessions(before, heap) + [];
      }
    }
  }

  lemma {:induction false} PayloadsInHeap(sessions: seq<Session>, heap: map<nat, Payload>)
    requires AllComplete(sessions, heap)
    ensures AllIn(PayloadsOf(sessions), heap)
    decreases |sessions|
  {
    if sessions != [] {
      var before, last := sessions[..|sessions| - 1], sessions[|sessions| - 1];
      PayloadsInHeap(before, heap);
      assert last.saved.Some? ==> last.saved.value in heap;
    }
  }

  lemma CapturedInHeap(sessions: seq<Session>, heap: map<nat, Payload>)
    ensures AllIn(PayloadsOf(CapturedSessions(sessions, heap)), heap)
  {
    CapturedComplete(sessions, heap);
    PayloadsInHeap(CapturedSessions(sessions, heap), heap);
  }

  lemma StepContent(caps: Caps, t: Table, e: Event, p: nat)
    requires Inv(caps, t) && Enabled(t, e)
    ensures KeepsContent(t, Apply(t, e), p)
    ensures if e.LetGoOf? then Apply(t, e).pinned == t.pinned - multiset{e.p} else t.pinned <= Apply(t, e).pinned
  {
    match e
    case FindOne(id, now) => FindFromTrims(t, id, now, 0);
    case AcceptOne(id, now, target, isPost, host) => AcceptTrims(t, id, now, target, isPost, host);
    case NewOne(draft, now) => NewContent(t, draft, now, p);
    case AppendTo(i, data) => AppendContent(t, i, data, p);
    case SolveOne(i, now) =>
    case TakeOne(i, token, now) =>
    case ReserveOne(i, token, now) =>
    case UnreserveOne(i) =>
    case CancelOne(i) => ReleaseTrims(t, i);
    case DiscardOne(i) => ReleaseTrims(t, i);
    case DiscardAll => DiscardSavedTrims(t, |t.sessions|);
    case ExpireAll(now) => ExpireFirstTrims(t, now, |t.sessions|);
    case LetGoOf(q) =>
    case CaptureAll(now) => CaptureContent(caps, t, now, p);
  }
}
