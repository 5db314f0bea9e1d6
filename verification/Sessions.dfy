/** The session table: what each operation does to the sessions, the saved payloads and
    the byte accounting, and what every run of them keeps. */
module Sessions {
  import opened Options
  import opened Bytes
  import Chunked

  const CAPACITY := 4096
  const UNSOLVED := 3072
  const UNSOLVED_PER_PEER := 64
  const PENDING_BYTES := 64 * 1024 * 1024
  const REQUEST_SIZE := 272488
  const REPLAY_MAX := 2 * 1024 * 1024

  // The fixed-size text fields of a session, NUL-terminated.
  datatype Texts = Texts(id: Bytes, token: Bytes, challenge: Bytes, target: Bytes, peer: Bytes, host: Bytes)

  // A saved POST. `body` is what has been received of its `size` bytes, and `pins` how
  // many holders keep it alive.
  datatype Payload = Payload(request: Bytes, body: Bytes, size: nat, pins: nat)

  datatype Session = Session(
    active: bool, texts: Texts, issued: nat, solvedUntil: nat, bodyUntil: nat,
    saved: Option<nat>, isPost: bool, proved: bool, reserved: bool)

  // `pinned` are the pins held outside the table: by whoever took a payload, and by
  // snapshots in progress.
  datatype Table = Table(
    sessions: seq<Session>, heap: map<nat, Payload>, pinned: multiset<nat>, pending: int, mutation: nat)

  // What strcmp sees of a NUL-terminated field.
  function TextOf(field: Bytes): Bytes {
    if field == [] || field[0] == 0 then [] else [field[0]] + TextOf(field[1..])
  }

  function Zeros(n: nat): Bytes {
    seq(n, _ => 0)
  }

  function Blank(): Session {
    Session(false, Texts(Zeros(33), Zeros(33), Zeros(160), Zeros(2048), Zeros(64), Zeros(256)),
            0, 0, 0, None, false, false, false)
  }

  // ----- the operations -----

  // ankah_post_payload_release
  function Unpin(heap: map<nat, Payload>, p: nat): map<nat, Payload> {
    if p !in heap then heap
    else if heap[p].pins <= 1 then heap - {p}
    else heap[p := heap[p].(pins := heap[p].pins - 1)]
  }

  function Cost(heap: map<nat, Payload>, saved: Option<nat>): nat {
    if saved.Some? && saved.value in heap then heap[saved.value].size + REQUEST_SIZE else 0
  }

  function NoToken(texts: Texts): Texts {
    if texts.token == [] then texts else texts.(token := texts.token[0 := 0])
  }

  // A session whose payload has left it.
  function Emptied(s: Session): Session {
    s.(saved := None, texts := NoToken(s.texts), reserved := false)
  }

  // release_post
  function Release(t: Table, i: nat): Table
    requires i < |t.sessions|
  {
    var s := t.sessions[i];
    if s.saved.None? then t
    else t.(sessions := t.sessions[i := Emptied(s)], heap := Unpin(t.heap, s.saved.value),
            pending := t.pending - Cost(t.heap, s.saved), mutation := t.mutation + 1)
  }

  // ankah_session_discard
  function Discard(t: Table, i: nat): Table
    requires i < |t.sessions|
  {
    var u := Release(t, i);
    u.(sessions := u.sessions[i := Blank()], mutation := u.mutation + 1)
  }

  predicate Stale(s: Session, now: nat) {
    (s.solvedUntil == 0 && now > s.issued + 300) || (s.solvedUntil != 0 && now > s.solvedUntil)
  }

  // expire
  function Expire(t: Table, i: nat, now: nat): Table
    requires i < |t.sessions|
  {
    var s := t.sessions[i];
    if !s.active then t
    else if Stale(s, now) then Discard(t, i)
    else if s.saved.Some? && s.solvedUntil != 0 && now > s.bodyUntil then Release(t, i)
    else t
  }

  // Every operation changes one session at a time; the others keep their place.
  lemma ExpireShape(t: Table, i: nat, now: nat)
    requires i < |t.sessions|
    ensures var u := Expire(t, i, now);
      |u.sessions| == |t.sessions| && u.pinned == t.pinned && u.mutation >= t.mutation
      && forall k :: 0 <= k < |t.sessions| && k != i ==> u.sessions[k] == t.sessions[k]
  {
  }

  function ExpireFirst(t: Table, now: nat, n: nat): (u: Table)
    requires n <= |t.sessions|
    ensures |u.sessions| == |t.sessions|
    decreases n
  {
    if n == 0 then t
    else
      var v := ExpireFirst(t, now, n - 1);
      ExpireShape(v, n - 1, now);
      Expire(v, n - 1, now)
  }

  predicate Matches(s: Session, id: Bytes) {
    s.active && s.texts.id[..] == id + [0]
  }

  // The loop of ankah_session_find from session i on: it expires as it goes.
  function FindFrom(t: Table, id: Bytes, now: nat, i: nat): (r: (Table, Option<nat>))
    requires i <= |t.sessions|
    ensures |r.0.sessions| == |t.sessions|
    ensures r.1.Some? ==> i <= r.1.value < |t.sessions| && Matches(r.0.sessions[r.1.value], id)
    decreases |t.sessions| - i
  {
    if i == |t.sessions| then (t, None)
    else
      ExpireShape(t, i, now);
      var u := Expire(t, i, now);
      if Matches(u.sessions[i], id) then (u, Some(i)) else FindFrom(u, id, now, i + 1)
  }

  // ankah_session_find
  function Find(t: Table, id: Bytes, now: nat): (r: (Table, Option<nat>))
    ensures |r.0.sessions| == |t.sessions|
  {
    if |id| != 32 then (t, None) else FindFrom(t, id, now, 0)
  }

  // The first inactive session, expiring as it goes.
  function FreeFrom(t: Table, now: nat, i: nat): (r: (Table, Option<nat>))
    requires i <= |t.sessions|
    ensures |r.0.sessions| == |t.sessions|
    ensures r.1.Some? ==> i <= r.1.value < |t.sessions| && !r.0.sessions[r.1.value].active
    decreases |t.sessions| - i
  {
    if i == |t.sessions| then (t, None)
    else
      ExpireShape(t, i, now);
      var u := Expire(t, i, now);
      if !u.sessions[i].active then (u, Some(i)) else FreeFrom(u, now, i + 1)
  }

  function FirstInactive(sessions: seq<Session>): (i: nat)
    ensures i <= |sessions| && (i < |sessions| ==> !sessions[i].active)
    ensures forall k :: 0 <= k < i ==> sessions[k].active
  {
    if sessions == [] || !sessions[0].active then 0 else 1 + FirstInactive(sessions[1..])
  }

  // What is counted over the table: unsolved sessions issued without proof, those of
  // one peer, and the owners of one payload.
  datatype Query = Unsolved | UnsolvedFrom(peer: Bytes) | OwnerOf(payload: nat)

  predicate Satisfies(s: Session, q: Query) {
    match q
    case Unsolved => s.active && !s.proved && s.solvedUntil == 0
    case UnsolvedFrom(peer) => s.active && !s.proved && s.solvedUntil == 0 && s.texts.peer == peer
    case OwnerOf(payload) => s.saved == Some(payload)
  }

  function Count(sessions: seq<Session>, q: Query): nat {
    if sessions == [] then 0
    else
      Count(sessions[..|sessions| - 1], q) + if Satisfies(sessions[|sessions| - 1], q) then 1 else 0
  }

  function Padded(text: Bytes, size: nat): Bytes {
    if |text| <= size then text + Zeros(size - |text|) else text
  }

  predicate LowerHex(b: Byte) {
    48 <= b <= 57 || 97 <= b <= 102
  }

  // The first eight digits of an id are the time it was issued.
  function IssuedAt(id: Bytes): nat
    requires |id| == 32 && forall i :: 0 <= i < 32 ==> LowerHex(id[i])
  {
    assert forall i :: 0 <= i < |id[..8]| ==> LowerHex(id[..8][i]);
    Chunked.HexValue(id[..8])
  }

  predicate HasTarget(s: Session) {
    s.texts.target != [] && s.texts.target[0] != 0
  }

  // The last step of ankah_session_accept_solved on the session it found or made.
  function Accepted(s: Session, now: nat, target: Option<Bytes>, isPost: bool): Session {
    var solved := if s.solvedUntil == 0 then s.(solvedUntil := now + 1800, bodyUntil := now + 300) else s;
    if target.Some? && !HasTarget(s) then
      solved.(texts := solved.texts.(target := Padded(target.value, 2048)), isPost := isPost)
    else solved
  }

  function Admitted(id: Bytes, issued: nat, host: Bytes): Session {
    Blank().(active := true, issued := issued,
             texts := Blank().texts.(id := id + [0], host := Padded(host, 256)))
  }

  predicate SolvedIdInWindow(id: Bytes, now: nat) {
    |id| == 32 && (forall i :: 0 <= i < 32 ==> LowerHex(id[i])) &&
    IssuedAt(id) <= now + 30 && now <= IssuedAt(id) + 1800
  }

  // ankah_session_accept_solved
  function AcceptSolved(t: Table, id: Bytes, now: nat, target: Option<Bytes>, isPost: bool, host: Bytes)
    : (r: (Table, Option<nat>))
    ensures r.1.Some? ==> r.1.value < |r.0.sessions|
  {
    if host == [] || |host| >= 256 || (target.Some? && |target.value| >= 2048)
       || !SolvedIdInWindow(id, now) then (t, None)
    else
      var (found, at) := FindFrom(t, id, now, 0);
      if at.Some? then
        if TextOf(found.sessions[at.value].texts.host) != TextOf(host) then (found, None)
        else (WithSession(found, at.value, Accepted(found.sessions[at.value], now, target, isPost)), at)
      else
        var (free, slot) := FreeFrom(found, now, 0);
        if slot.None? then (free, None)
        else (WithSession(free, slot.value, Accepted(Admitted(id, IssuedAt(id), host), now, target, isPost)), slot)
  }

  // One session rewritten, and noted as a change.
  function WithSession(t: Table, i: nat, s: Session): (u: Table)
    requires i < |t.sessions|
    ensures |u.sessions| == |t.sessions|
  {
    t.(sessions := t.sessions[i := s], mutation := t.mutation + 1)
  }

  // What a new session is made from. `drawn` is the id and token if there was randomness
  // and a challenge; `payload` an unused payload if there was memory for one.
  datatype Draft = Draft(
    host: Bytes, target: Bytes, peer: Bytes, isPost: bool, size: nat, request: Bytes, proved: bool,
    drawn: Option<(Bytes, Bytes, Bytes)>, payload: Option<nat>)

  function Drafted(d: Draft, now: nat): Session
    requires d.drawn.Some?
  {
    var (id, token, challenge) := d.drawn.value;
    Session(true, Texts(id, token, challenge, Padded(d.target, 2048), Padded(d.peer, 64), Padded(d.host, 256)),
            now, 0, 0, if d.isPost then d.payload else None, d.isPost, d.proved, false)
  }

  predicate AtCap(sessions: seq<Session>, peer: Bytes) {
    Count(sessions, Unsolved) >= UNSOLVED || Count(sessions, UnsolvedFrom(Padded(peer, 64))) >= UNSOLVED_PER_PEER
  }

  // ankah_session_new_with_proof
  function New(t: Table, d: Draft, now: nat): (r: (Table, Option<nat>))
    ensures r.1.Some? ==> r.1.value < |r.0.sessions|
  {
    if d.host == [] || |d.host| >= 256 then (t, None)
    else if d.isPost && (d.size > REPLAY_MAX || d.size + REQUEST_SIZE > PENDING_BYTES - t.pending) then (t, None)
    else
      var u := ExpireFirst(t, now, |t.sessions|);
      var slot := FirstInactive(u.sessions);
      if slot == |u.sessions| || (!d.proved && AtCap(u.sessions, d.peer)) then (u, None)
      else if d.drawn.None? || (d.isPost && d.payload.None?) then (u.(sessions := u.sessions[slot := Blank()]), None)
      else if d.isPost then
        (WithSession(u, slot, Drafted(d, now)).(heap := u.heap[d.payload.value := Payload(d.request, [], d.size, 1)],
                                        pending := u.pending + d.size + REQUEST_SIZE), Some(slot))
      else (WithSession(u, slot, Drafted(d, now)), Some(slot))
  }

  // ankah_session_append
  function Append(t: Table, i: nat, data: Bytes): (Table, int)
    requires i < |t.sessions|
  {
    var s := t.sessions[i];
    if !s.active || s.saved.None? || s.saved.value !in t.heap then (t, -1)
    else
      var p := t.heap[s.saved.value];
      if |p.body| > p.size || |data| > p.size - |p.body| then (t, -1)
      else
        var grown := p.(body := p.body + data);
        (t.(heap := t.heap[s.saved.value := grown], mutation := if data != [] then t.mutation + 1 else t.mutation),
         if |grown.body| == grown.size then 1 else 0)
  }

  // ankah_session_solve
  function Solve(t: Table, i: nat, now: nat): (Table, int)
    requires i < |t.sessions|
  {
    var s := t.sessions[i];
    if !s.active || now > s.issued + 300 then (t, -1)
    else (WithSession(t, i, s.(solvedUntil := now + 1800, bodyUntil := now + 300)), 0)
  }

  predicate IsComplete(heap: map<nat, Payload>, saved: Option<nat>) {
    saved.Some? && saved.value in heap && |heap[saved.value].body| == heap[saved.value].size
  }

  // `token` is the caller's text, if it has one.
  predicate Takeable(t: Table, i: nat, token: Option<Bytes>, now: nat)
    requires i < |t.sessions|
  {
    var s := t.sessions[i];
    && s.active && s.solvedUntil >= now && s.solvedUntil != 0 && s.saved.Some? && now <= s.bodyUntil
    && IsComplete(t.heap, s.saved) && token.Some? && TextOf(s.texts.token) == TextOf(token.value)
  }

  // ankah_session_take_post: the pin passes to the caller.
  function Take(t: Table, i: nat, token: Option<Bytes>, now: nat): (Table, int)
    requires i < |t.sessions|
  {
    var s := t.sessions[i];
    if !Takeable(t, i, token, now) then (t, -1)
    else (t.(sessions := t.sessions[i := Emptied(s)], pinned := t.pinned + multiset{s.saved.value},
             pending := t.pending - Cost(t.heap, s.saved), mutation := t.mutation + 1), 0)
  }

  // ankah_session_reserve_post and ankah_session_unreserve_post
  function Reserve(t: Table, i: nat, token: Option<Bytes>, now: nat): (Table, int)
    requires i < |t.sessions|
  {
    if !Takeable(t, i, token, now) || t.sessions[i].reserved then (t, -1)
    else (t.(sessions := t.sessions[i := t.sessions[i].(reserved := true)]), 0)
  }

  function Unreserve(t: Table, i: nat): Table
    requires i < |t.sessions|
  {
    t.(sessions := t.sessions[i := t.sessions[i].(reserved := false)])
  }

  // A holder outside the table lets go.
  function LetGo(t: Table, p: nat): Table {
    t.(heap := Unpin(t.heap, p), pinned := t.pinned - multiset{p})
  }

  // ankah_session_discard_saved_posts
  function DiscardSaved(t: Table, n: nat): (u: Table)
    requires n <= |t.sessions|
    ensures |u.sessions| == |t.sessions|
    decreases n
  {
    if n == 0 then t else Release(DiscardSaved(t, n - 1), n - 1)
  }

  // A snapshot holds on to a payload.
  function Pin(t: Table, p: nat): Table {
    if p in t.heap then
      t.(heap := t.heap[p := t.heap[p].(pins := t.heap[p].pins + 1)], pinned := t.pinned + multiset{p})
    else t
  }

  function PinAll(t: Table, payloads: seq<nat>): Table
    decreases |payloads|
  {
    if payloads == [] then t else Pin(PinAll(t, payloads[..|payloads| - 1]), payloads[|payloads| - 1])
  }

  // Which sessions a snapshot captures: the active ones without a half-received POST.
  predicate Captured(s: Session, heap: map<nat, Payload>) {
    s.active && (s.saved.None? || IsComplete(heap, s.saved))
  }

  function CapturedSessions(sessions: seq<Session>, heap: map<nat, Payload>): seq<Session> {
    if sessions == [] then []
    else
      var last := sessions[|sessions| - 1];
      CapturedSessions(sessions[..|sessions| - 1], heap) + if Captured(last, heap) then [last] else []
  }

  function PayloadsOf(sessions: seq<Session>): seq<nat> {
    if sessions == [] then []
    else
      var last := sessions[|sessions| - 1];
      PayloadsOf(sessions[..|sessions| - 1]) + if last.saved.Some? then [last.saved.value] else []
  }

  // ankah_session_snapshot_begin, as far as the table goes: expire, then capture and pin.
  function Capture(t: Table, now: nat): (Table, seq<Session>) {
    var u := ExpireFirst(t, now, |t.sessions|);
    var captured := CapturedSessions(u.sessions, u.heap);
    (PinAll(u, PayloadsOf(captured)), captured)
  }
}
