/** The session table and the snapshot encoder as session.c keeps them: one static array,
    a byte counter and a change counter, updated in place by loops. */
module SessionTable {
  import opened Options
  import opened Bytes
  import opened LittleEndian
  import opened Sessions
  import opened SessionImage
  import opened SessionSnapshot
  import opened SessionSafety
  import opened SessionScan
  import opened SessionNames
  import opened SessionRecovery
  import opened SessionRestart
  import Ids
  import Journal

  class Store {
    const sessions: array<Session>
    var heap: map<nat, Payload>
    var pending: int
    var mutation: nat
    ghost var pinned: multiset<nat>

    ghost function View(): Table
      reads this, sessions
    {
      Table(sessions[..], heap, pinned, pending, mutation)
    }

    constructor ()
      ensures View() == Table(seq(CAPACITY, _ => Blank()), map[], multiset{}, 0, 0) && fresh(sessions)
    {
      sessions := new Session[CAPACITY](_ => Blank());
      heap, pending, mutation, pinned := map[], 0, 0, multiset{};
    }

    /** ankah_post_payload_release for a payload that leaves a session. */
    method Unhold(p: nat)
      modifies this`heap
      ensures heap == Unpin(old(heap), p)
    {
      if p in heap {
        var payload := heap[p];
        if payload.pins <= 1 { heap := heap - {p}; } else { heap := heap[p := payload.(pins := payload.pins - 1)]; }
      }
    }

    /** release_post */
    method ReleasePost(i: nat)
      requires i < sessions.Length
      modifies this`heap, this`pending, this`mutation, sessions
      ensures View() == Release(old(View()), i)
    {
      var s := sessions[i];
      if s.saved.None? { return; }
      pending := pending - Cost(heap, s.saved);
      Unhold(s.saved.value);
      sessions[i] := Emptied(s);
      mutation := mutation + 1;
    }

    /** ankah_session_discard */
    method DiscardSession(i: nat)
      requires i < sessions.Length
      modifies this`heap, this`pending, this`mutation, sessions
      ensures View() == Discard(old(View()), i)
    {
      hide Blank;
      ReleasePost(i);
      sessions[i] := Blank();
      mutation := mutation + 1;
    }

    /** expire */
    method ExpireSession(i: nat, now: nat)
      requires i < sessions.Length
      modifies this`heap, this`pending, this`mutation, sessions
      ensures View() == Expire(old(View()), i, now)
    {
      hide Discard, Release;
      var s := sessions[i];
      if !s.active { return; }
      if (s.solvedUntil == 0 && now > s.issued + 300) || (s.solvedUntil != 0 && now > s.solvedUntil) {
        DiscardSession(i);
      } else if s.saved.Some? && s.solvedUntil != 0 && now > s.bodyUntil {
        ReleasePost(i);
      }
    }

    /** The expiry loops of the scans over the whole table. */
    method ExpireEvery(now: nat)
      modifies this`heap, this`pending, this`mutation, sessions
      ensures View() == ExpireFirst(old(View()), now, sessions.Length)
    {
      hide Expire;
      for i := 0 to sessions.Length
        invariant View() == ExpireFirst(old(View()), now, i)
      {
        ExpireSession(i, now);
      }
    }

    /** ankah_session_find */
    method Find(id: Bytes, now: nat) returns (found: Option<nat>)
      modifies this`heap, this`pending, this`mutation, sessions
      ensures (View(), found) == Sessions.Find(old(View()), id, now)
    {
      if |id| != 32 { return None; }
      hide Expire, Matches;
      var i := 0;
      while i < sessions.Length
        invariant i <= sessions.Length
        invariant FindFrom(old(View()), id, now, 0) == FindFrom(View(), id, now, i)
      {
        ghost var before := View();
        ExpireSession(i, now);
        assert View() == Expire(before, i, now);
        if Matches(sessions[i], id) { return Some(i); }
        i := i + 1;
      }
      found := None;
    }

    /** The second loop of ankah_session_accept_solved. */
    method FindFree(now: nat) returns (slot: Option<nat>)
      modifies this`heap, this`pending, this`mutation, sessions
      ensures (View(), slot) == FreeFrom(old(View()), now, 0)
    {
      hide Expire;
      var i := 0;
      while i < sessions.Length
        invariant i <= sessions.Length
        invariant FreeFrom(old(View()), now, 0) == FreeFrom(View(), now, i)
      {
        ghost var before := View();
        ExpireSession(i, now);
        assert View() == Expire(before, i, now);
        if !sessions[i].active { return Some(i); }
        i := i + 1;
      }
      slot := None;
    }

    /** ankah_session_accept_solved */
    method Accept(id: Bytes, now: nat, target: Option<Bytes>, isPost: bool, host: Bytes) returns (at: Option<nat>)
      modifies this`heap, this`pending, this`mutation, sessions
      ensures (View(), at) == AcceptSolved(old(View()), id, now, target, isPost, host)
    {
      hide FindFrom, FreeFrom, Accepted, Admitted;
      if host == [] || |host| >= 256 || (target.Some? && |target.value| >= 2048) || !SolvedIdInWindow(id, now) {
        return None;
      }
      at := Find(id, now);
      var s;
      if at.Some? {
        s := sessions[at.value];
        if TextOf(s.texts.host) != TextOf(host) { return None; }
      } else {
        at := FindFree(now);
        if at.None? { return; }
        s := Admitted(id, IssuedAt(id), host);
      }
      WriteSession(at.value, Accepted(s, now, target, isPost));
    }

    // One session rewritten, and noted as a change.
    method WriteSession(i: nat, s: Session)
      requires i < sessions.Length
      modifies this`mutation, sessions
      ensures View() == WithSession(old(View()), i, s)
    {
      sessions[i] := s;
      mutation := mutation + 1;
    }

    /** ankah_session_solve */
    method SolveSession(i: nat, now: nat) returns (result: int)
      requires i < sessions.Length
      modifies this`mutation, sessions
      ensures (View(), result) == Solve(old(View()), i, now)
    {
      var s := sessions[i];
      if !s.active || now > s.issued + 300 { return -1; }
      WriteSession(i, s.(solvedUntil := now + 1800, bodyUntil := now + 300));
      result := 0;
    }

    /** ankah_session_append */
    method AppendBody(i: nat, data: Bytes) returns (result: int)
      requires i < sessions.Length
      modifies this`heap, this`mutation
      ensures (View(), result) == Append(old(View()), i, data)
    {
      var s := sessions[i];
      if !s.active || s.saved.None? || s.saved.value !in heap { return -1; }
      var p := heap[s.saved.value];
      if |p.body| > p.size || |data| > p.size - |p.body| { return -1; }
      p := p.(body := p.body + data);
      heap := heap[s.saved.value := p];
      if data != [] { mutation := mutation + 1; }
      result := if |p.body| == p.size then 1 else 0;
    }

    /** ankah_session_reserve_post */
    method ReservePost(i: nat, token: Option<Bytes>, now: nat) returns (result: int)
      requires i < sessions.Length
      modifies sessions
      ensures (View(), result) == Reserve(old(View()), i, token, now)
    {
      var s := sessions[i];
      if !(s.active && s.solvedUntil >= now && s.solvedUntil != 0) || s.saved.None? || now > s.bodyUntil
         || !IsComplete(heap, s.saved) || token.None? || TextOf(s.texts.token) != TextOf(token.value)
         || s.reserved { return -1; }
      sessions[i] := s.(reserved := true);
      result := 0;
    }

    /** ankah_session_unreserve_post */
    method UnreservePost(i: nat)
      requires i < sessions.Length
      modifies sessions
      ensures View() == Unreserve(old(View()), i)
    {
      sessions[i] := sessions[i].(reserved := false);
    }

    /** ankah_session_take_post: on 0 the payload is handed out. */
    method TakePost(i: nat, token: Option<Bytes>, now: nat) returns (result: int, payload: Option<nat>)
      requires i < sessions.Length
      modifies this`pending, this`mutation, this`pinned, sessions
      ensures (View(), result) == Take(old(View()), i, token, now)
      ensures payload == if result == 0 then old(sessions[i].saved) else None
    {
      var s := sessions[i];
      if !(s.active && s.solvedUntil >= now && s.solvedUntil != 0) || s.saved.None? || now > s.bodyUntil
         || !IsComplete(heap, s.saved) || token.None? || TextOf(s.texts.token) != TextOf(token.value)
      { return -1, None; }
      payload := s.saved;
      pending := pending - Cost(heap, s.saved);
      pinned := pinned + multiset{s.saved.value};
      sessions[i] := Emptied(s);
      mutation := mutation + 1;
      result := 0;
    }

    /** ankah_session_discard_saved_posts */
    method DiscardSavedPosts()
      modifies this`heap, this`pending, this`mutation, sessions
      ensures View() == DiscardSaved(old(View()), sessions.Length)
    {
      hide Release;
      for i := 0 to sessions.Length
        invariant View() == DiscardSaved(old(View()), i)
      {
        ReleasePost(i);
      }
    }

    // One good line of the journal.
    method ReplayLine(id: Ids.Id, now: nat)
      modifies this`heap, this`pending, this`mutation, sessions
      ensures View() == ReplayOne(old(View()), id, now)
    {
      hide Release, FindFrom;
      var found := Find(IdBytes(id), now);
      if found.Some? { ReleasePost(found.value); }
    }

    /** The journal replay of ankah_session_restore: line by line with fgets and strlen, releasing
        the POST of each session it finds, and every POST when a line is bad or the file could
        not be read to its end. */
    method ReplayJournal(file: string, readError: bool, now: nat) returns (result: int)
      modifies this`heap, this`pending, this`mutation, sessions
      ensures View() == ReplayFile(old(View()), file, readError, now)
      ensures result == if readError || !Journal.WellFormed(file) then -2 else 0
    {
      hide ReplayOne, ReplayAll, Journal.LeadingIds, Journal.Parse, DiscardSaved;
      ghost var start := View();
      var bad, at := false, 0;
      ghost var read: seq<Ids.Id> := [];
      NoLines(start, file, now);
      while at < |file|
        invariant at <= |file|
        invariant !bad ==> View() == ReplayAll(start, read, now)
        invariant !bad ==> Journal.LeadingIds(file) == read + Journal.LeadingIds(file[at..])
        invariant !bad ==> (Journal.WellFormed(file) <==> Journal.WellFormed(file[at..]))
        invariant bad ==> !Journal.WellFormed(file) && View() == ReplayAll(start, Journal.LeadingIds(file), now)
      {
        ghost var rest := file[at..];
        var n := Journal.LineLength(file[at..], Journal.LINE_BUFFER - 1);
        var line := file[at..][..n];
        Journal.NextLine(read, rest);
        assert rest[n..] == file[at + n..];
        if !Journal.LineShaped(line) {
          bad := true;
        } else {
          var wasBad := bad;
          bad := ReadDigits(line, bad);
          if !bad {
            assert Journal.GoodLine(line) && line[..32] == rest[..32];
            ReplaySnoc(start, read, line[..32], now);
            ReplayLine(line[..32], now);
            read := read + [line[..32]];
          }
        }
        at := at + n;
      }
      NoMoreLines(read, file[at..]);
      if readError { bad := true; }
      if bad {
        DiscardSavedPosts();
        result := -2;
      } else {
        result := 0;
      }
    }

    // The test of the digits of one line.
    static method ReadDigits(line: string, before: bool) returns (bad: bool)
      requires Journal.LineShaped(line)
      ensures bad <==> before || !Journal.GoodLine(line)
    {
      bad := before;
      var digit := 0;
      while digit < 32
        invariant digit <= 32
        invariant bad <==> before || exists i :: 0 <= i < digit && !Ids.Hex(line[i])
      {
        if !Ids.Hex(line[digit]) { bad := true; }
        digit := digit + 1;
      }
    }

    /** load_image, over the records that valid_image accepted. */
    method LoadImage(items: seq<Item>, version: nat, primaryHost: Bytes, now: nat)
      requires |items| <= CAPACITY && View() == EmptyTable()
      modifies this`heap, this`pending, sessions
      ensures View() == Load(items, version, primaryHost, now)
    {
      hide LoadedSession, StaleRecord, Blank;
      var i := 0;
      while i < |items|
        invariant i <= |items| && sessions.Length == CAPACITY
        invariant View() == Load(items[..i], version, primaryHost, now)
      {
        assert items[..i + 1][..i] == items[..i];
        var r := items[i].record;
        LoadLeavesCounters(items[..i], version, primaryHost, now);
        if !StaleRecord(r, now) {
          sessions[i] := LoadedSession(items[i], version, primaryHost, i);
          if r.hasPayload == 1 {
            heap := heap[i := Payload(items[i].request, items[i].body, r.size, 1)];
            pending := pending + r.size + REQUEST_SIZE;
          }
        }
        i := i + 1;
      }
      assert items[..i] == items;
    }

    /** ankah_session_restore: the newest readable snapshot is loaded, then the journal is replayed. */
    method Restore(files: seq<Reading>, sha: Bytes -> Digest, primaryHost: Bytes, now: nat, file: string,
                   readError: bool) returns (result: int, generation: nat)
      requires |files| == 2 && View() == EmptyTable()
      modifies this`heap, this`pending, this`mutation, sessions
      ensures primaryHost == [] || |primaryHost| >= 256 ==> result == -1 && generation == 0 && View() == old(View())
      ensures 0 < |primaryHost| < 256 ==>
        && (forall n: nat :: Newest(files, sha, n) ==>
              && generation == ImageOf(files[n], sha).value.generation
              && View() == Restored(ImageOf(files[n], sha).value, primaryHost, now, file, readError).(mutation := 0))
        && (Unreadable(files, sha) ==>
              generation == 0 && View() == ReplayFile(EmptyTable(), file, readError, now).(mutation := 0))
        && result == (if readError || !Journal.WellFormed(file) then -2
                      else if exists n :: 0 <= n < 2 && files[n] != Missing && ImageOf(files[n], sha).None? then -1
                      else 0)
    {
      hide Load, ReplayFile, ValidImage, Journal.WellFormed;
      result, generation := 0, 0;
      if primaryHost == [] || |primaryHost| >= 256 { return -1, 0; }
      var images: seq<Option<SessionImage.Image>> := [];
      for slot := 0 to 2
        invariant |images| == slot && forall n :: 0 <= n < slot ==> images[n] == ImageOf(files[n], sha)
        invariant result ==
          if exists n :: 0 <= n < slot && files[n] != Missing && ImageOf(files[n], sha).None? then -1 else 0
      {
        var image := None;
        if files[slot].Read? {
          image := ValidImage(files[slot].data, sha);
          if image.None? { result := -1; }
        } else if files[slot].Failed? {
          result := -1;
        }
        images := images + [image];
      }
      var chosen := None;
      if images[0].Some? { chosen := Some(0); }
      if images[1].Some? && (chosen.None? || images[1].value.generation > images[0].value.generation) {
        chosen := Some(1);
      }
      if chosen.Some? {
        var image := images[chosen.value].value;
        LoadImage(image.items, image.version, primaryHost, now);
        generation := image.generation;
      }
      assert forall n: nat :: Newest(files, sha, n) ==> chosen == Some(n);
      assert Unreadable(files, sha) ==> chosen.None?;
      var replayed := ReplayJournal(file, readError, now);
      if replayed != 0 { result := replayed; }
      mutation := 0;
    }

    // The counting loop of ankah_session_new_with_proof.
    method CountUnsolved(peer: Bytes) returns (unsolved: nat, fromPeer: nat)
      ensures unsolved == Count(sessions[..], Unsolved)
      ensures fromPeer == Count(sessions[..], UnsolvedFrom(peer))
    {
      unsolved, fromPeer := 0, 0;
      for i := 0 to sessions.Length
        invariant unsolved == Count(sessions[..i], Unsolved) && fromPeer == Count(sessions[..i], UnsolvedFrom(peer))
      {
        assert sessions[..i + 1][..i] == sessions[..i];
        var candidate := sessions[i];
        if candidate.active && !candidate.proved && candidate.solvedUntil == 0 {
          unsolved := unsolved + 1;
          if candidate.texts.peer == peer { fromPeer := fromPeer + 1; }
        }
      }
      assert sessions[..sessions.Length] == sessions[..];
    }

    // The search for a free session in the same scan.
    method FirstFree() returns (slot: nat)
      ensures slot == FirstInactive(sessions[..])
    {
      slot := 0;
      while slot < sessions.Length && sessions[slot].active
        invariant slot <= sessions.Length && forall k :: 0 <= k < slot ==> sessions[k].active
      {
        slot := slot + 1;
      }
      FirstInactiveIs(sessions[..], slot);
    }

    /** ankah_session_new_with_proof */
    method NewSession(d: Draft, now: nat) returns (at: Option<nat>)
      modifies this`heap, this`pending, this`mutation, sessions
      ensures (View(), at) == New(old(View()), d, now)
    {
      hide ExpireFirst, FirstInactive, Count, Drafted, Blank;
      if d.host == [] || |d.host| >= 256 { return None; }
      if d.isPost && (d.size > REPLAY_MAX || d.size + REQUEST_SIZE > PENDING_BYTES - pending) { return None; }
      ExpireEvery(now);
      var slot := FirstFree();
      if slot == sessions.Length { return None; }
      if !d.proved {
        var unsolved, fromPeer := CountUnsolved(Padded(d.peer, 64));
        if unsolved >= UNSOLVED || fromPeer >= UNSOLVED_PER_PEER { return None; }
      }
      if d.drawn.None? || (d.isPost && d.payload.None?) {
        sessions[slot] := Blank();
        return None;
      }
      sessions[slot] := Drafted(d, now);
      if d.isPost {
        heap := heap[d.payload.value := Payload(d.request, [], d.size, 1)];
        pending := pending + d.size + REQUEST_SIZE;
      }
      mutation := mutation + 1;
      at := Some(slot);
    }
  }

  lemma {:induction false} FirstInactiveIs(sessions: seq<Session>, slot: nat)
    requires slot <= |sessions| && (forall k :: 0 <= k < slot ==> sessions[k].active)
    requires slot < |sessions| ==> !sessions[slot].active
    ensures FirstInactive(sessions) == slot
  {
  }

  /** struct ankah_session_snapshot: the encoder and its cursor. */
  lemma NoLines(t: Table, file: string, now: nat)
    ensures ReplayAll(t, [], now) == t && file[0..] == file
  {
  }

  lemma NoMoreLines(read: seq<Ids.Id>, rest: string)
    ensures rest == "" ==> read + Journal.LeadingIds(rest) == read && Journal.WellFormed(rest)
  {
  }

  lemma ReplaySnoc(t: Table, ids: seq<Ids.Id>, id: Ids.Id, now: nat)
    ensures ReplayAll(t, ids + [id], now) == ReplayOne(ReplayAll(t, ids, now), id, now)
  {
    hide ReplayOne;
    assert (ids + [id])[..|ids|] == ids;
  }

  lemma {:induction false} LoadLeavesCounters(items: seq<Item>, version: nat, primaryHost: Bytes, now: nat)
    requires |items| <= CAPACITY
    ensures var t := Load(items, version, primaryHost, now); t.mutation == 0 && t.pinned == multiset{}
    decreases |items|
  {
    hide LoadedSession, StaleRecord, Blank;
    if items != [] { LoadLeavesCounters(items[..|items| - 1], version, primaryHost, now); }
  }

  class Encoder {
    const entries: seq<Entry>
    const generation: nat
    const size: nat
    var data: Bytes
    var entry: nat
    var part: nat
    var partUsed: nat
    var complete: bool

    ghost function View(): Snapshot
      reads this
    {
      Snapshot(entries, generation, size, data, entry, part, partUsed, complete)
    }

    constructor (captured: seq<Entry>, number: nat, declared: nat)
      ensures entries == captured && generation == number && size == declared
      ensures View() == Snapshot(captured, number, declared,
                PutHeader(Header(VERSION, REQUEST_SIZE, RECORD, |captured|, number, declared)), 0, 0, 0, false)
    {
      entries, generation, size := captured, number, declared;
      data := PutHeader(Header(VERSION, REQUEST_SIZE, RECORD, |captured|, number, declared));
      entry, part, partUsed, complete := 0, 0, 0, false;
    }

    /** ankah_session_snapshot_step, reading the payloads as they are at that moment. */
    method Step(heap: map<nat, Payload>, budget: nat, sha: Bytes -> Digest) returns (result: int)
      modifies this
      ensures (View(), result) == SessionSnapshot.Step(old(View()), ItemsAt(entries, heap), budget, sha)
    {
      hide Drive, PutRecord, ItemAt;
      if budget == 0 { return -1; }
      if complete { return 1; }
      Write(heap, budget);
      if entry != |entries| { return 0; }
      if |data| + 32 != size { return -1; }
      data, complete := data + sha(data), true;
      result := 1;
    }

    // The copying loop.
    method Write(heap: map<nat, Payload>, budget: nat)
      modifies this`data, this`entry, this`part, this`partUsed
      ensures View() == Drive(old(View()), ItemsAt(entries, heap), budget)
    {
      hide PutRecord, ItemAt;
      var left: nat := budget;
      ghost var items := ItemsAt(entries, heap);
      while left > 0 && entry < |entries|
        invariant Drive(old(View()), items, budget) == Drive(View(), items, left)
        decreases |entries| - entry, if part <= 3 then 4 - part else 0, left
      {
        var item := ItemAt(entries[entry], heap);
        if HasPart(item, part) {
          var source := PartBytes(item, part);
          if partUsed >= |source| {
            part, partUsed := part + 1, 0;
          } else {
            var piece := |source| - partUsed;
            if piece > left { piece := left; }
            data := data + source[partUsed..partUsed + piece];
            partUsed, left := partUsed + piece, left - piece;
          }
        } else {
          entry, part, partUsed := entry + 1, 0, 0;
        }
      }
    }
  }
}
