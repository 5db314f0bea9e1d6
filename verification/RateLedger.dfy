/**
 * What the rate limiter grants. Each bucket is compared with the plain list of the times at which it admitted: a
 * request is refused exactly when admitting it would put more requests into some stretch than burst and refill allow.
 */
module RateLedger {
  import opened Rate

  // ----- one bucket as a list of admission times -----

  // Times in order, none after `now`.
  predicate UpTo(times: seq<nat>, now: nat) {
    && (forall j, k :: 0 <= j < k < |times| ==> times[j] <= times[k])
    && (forall k :: 0 <= k < |times| ==> times[k] <= now)
  }

  // How long the stretch is that the k-th admission opens; the last one is `now` itself.
  function Since(times: seq<nat>, now: nat, k: nat): nat
    requires UpTo(times, now) && k <= |times|
  {
    if k < |times| then now - times[k] else 0
  }

  // With one more admission now, the stretch from the k-th on holds more than it may.
  predicate Bursts(times: seq<nat>, now: nat, k: nat, burst: real, refill: real)
    requires UpTo(times, now) && k <= |times|
  {
    (|times| - k + 1) as real > burst + Accrued(refill, Since(times, now, k))
  }

  predicate Exhausted(times: seq<nat>, now: nat, burst: real, refill: real)
    requires UpTo(times, now)
  {
    exists k :: 0 <= k <= |times| && Bursts(times, now, k, burst, refill)
  }

  // What the bucket holds: full at first, less one for every admission, refilled in between.
  function Level(times: seq<nat>, now: nat, burst: real, refill: real): real
    requires UpTo(times, now)
    decreases |times|
  {
    if times == [] then burst
    else
      var n := |times| - 1;
      Capped(Level(times[..n], times[n], burst, refill) - 1.0 + Accrued(refill, now - times[n]), burst)
  }

  // The level that the stretch from the k-th admission on leaves is below x.
  predicate Short(times: seq<nat>, now: nat, k: nat, x: real, burst: real, refill: real)
    requires UpTo(times, now) && k <= |times|
  {
    burst + Accrued(refill, Since(times, now, k)) - (|times| - k) as real < x
  }

  lemma ShortEarlier(times: seq<nat>, now: nat, k: nat, x: real, burst: real, refill: real)
    requires UpTo(times, now) && k < |times|
    ensures var n := |times| - 1; var y := x + 1.0 - Accrued(refill, now - times[n]);
      UpTo(times[..n], times[n])
      && (Short(times[..n], times[n], k, y, burst, refill) <==> Short(times, now, k, x, burst, refill))
  {
    var n := |times| - 1;
    AccruedAdds(refill, times[n] - times[k], now - times[n]);
    hide Accrued;
    assert (|times| - k) as real == (n - k) as real + 1.0;
    if k == n {
      assert Since(times[..n], times[n], k) == 0 && Since(times, now, k) == now - times[n];
    } else {
      assert times[..n][k] == times[k];
    }
  }

  // The level is the least over all stretches.
  lemma {:induction false} LevelBelow(times: seq<nat>, now: nat, x: real, burst: real, refill: real)
    requires UpTo(times, now)
    ensures Level(times, now, burst, refill) < x <==>
      exists k :: 0 <= k <= |times| && Short(times, now, k, x, burst, refill)
    decreases |times|
  {
    hide Accrued, Short;
    assert Short(times, now, |times|, x, burst, refill) <==> burst < x by { ShortNow(times, now, x, burst, refill); }
    if times != [] {
      var n := |times| - 1;
      var y := x + 1.0 - Accrued(refill, now - times[n]);
      LevelBelow(times[..n], times[n], y, burst, refill);
      forall k | 0 <= k <= n
        ensures Short(times[..n], times[n], k, y, burst, refill) <==> Short(times, now, k, x, burst, refill)
      {
        ShortEarlier(times, now, k, x, burst, refill);
      }
    }
  }

  lemma ShortNow(times: seq<nat>, now: nat, x: real, burst: real, refill: real)
    requires UpTo(times, now)
    ensures Short(times, now, |times|, x, burst, refill) <==> burst < x
  {
    AccruedAdds(refill, 0, 0);
  }

  lemma ShortBursts(times: seq<nat>, now: nat, k: nat, burst: real, refill: real)
    requires UpTo(times, now) && k <= |times|
    ensures Short(times, now, k, 1.0, burst, refill) <==> Bursts(times, now, k, burst, refill)
  {
    hide Accrued;
    assert (|times| - k + 1) as real == (|times| - k) as real + 1.0;
  }

  /** A bucket lacks a token exactly when one more admission would overfill some stretch. */
  lemma LevelExhausted(times: seq<nat>, now: nat, burst: real, refill: real)
    requires UpTo(times, now)
    ensures Level(times, now, burst, refill) < 1.0 <==> Exhausted(times, now, burst, refill)
  {
    hide Level, Short, Bursts;
    LevelBelow(times, now, 1.0, burst, refill);
    forall k | 0 <= k <= |times|
      ensures Short(times, now, k, 1.0, burst, refill) <==> Bursts(times, now, k, burst, refill)
    {
      ShortBursts(times, now, k, burst, refill);
    }
  }

  lemma LevelLater(times: seq<nat>, now: nat, later: nat, burst: real, refill: real)
    requires UpTo(times, now) && now <= later && refill >= 0.0
    ensures UpTo(times, later)
    ensures Level(times, later, burst, refill) ==
      Capped(Level(times, now, burst, refill) + Accrued(refill, later - now), burst)
  {
    if times == [] {
      AccruedPositive(refill, later - now);
    } else {
      var n := |times| - 1;
      hide Accrued, Capped;
      CappedTwice(Level(times[..n], times[n], burst, refill) - 1.0, refill, burst, now - times[n], later - now);
    }
  }

  lemma LevelSpend(times: seq<nat>, now: nat, burst: real, refill: real)
    requires UpTo(times, now)
    ensures UpTo(times + [now], now)
    ensures Level(times, now, burst, refill) <= burst
    ensures Level(times + [now], now, burst, refill) == Level(times, now, burst, refill) - 1.0
  {
    var next := times + [now];
    assert next[..|next| - 1] == times;
    AccruedAdds(refill, 0, 0);
  }

  // ----- the limiter as lists of admission times -----

  // When each request was admitted, and for each client those since its bucket was filled.
  datatype Ledger = Ledger(all: seq<nat>, clients: map<string, seq<nat>>)

  const BLANK := Ledger([], map[])

  function TimesOf(l: Ledger, ip: string, known: bool): seq<nat> {
    if known && ip in l.clients then l.clients[ip] else []
  }

  predicate Dated(l: Ledger, now: nat) {
    UpTo(l.all, now) && forall ip :: ip in l.clients ==> UpTo(l.clients[ip], now)
  }

  // The answer that the lists demand. `known` is whether the client still has its bucket.
  function Verdict(l: Ledger, ip: string, known: bool, now: nat, r: Rates): int
    requires Dated(l, now)
  {
    if Exhausted(TimesOf(l, ip, known), now, r.clientBurst, r.clientRefill) then 1
    else if Exhausted(l.all, now, r.globalBurst, r.globalRefill) then 2
    else 0
  }

  function Noted(l: Ledger, ip: string, known: bool, now: nat, admitted: bool): Ledger {
    var times := TimesOf(l, ip, known);
    Ledger(if admitted then l.all + [now] else l.all,
           l.clients[ip := if admitted then times + [now] else times])
  }

  // ----- the limiter keeps what the lists say -----

  predicate BucketAgrees(b: Bucket, books: map<string, seq<nat>>, now: nat, r: Rates) {
    b.ip != "" ==>
      && b.last <= now && b.ip in books && UpTo(books[b.ip], now)
      && Ready(b, now, r) == Level(books[b.ip], now, r.clientBurst, r.clientRefill)
  }

  ghost predicate Agrees(s: Limit, l: Ledger, now: nat, r: Rates) {
    && s.clients != [] && Monotone(s, now) && Dated(l, now) && Distinct(s.clients)
    && GlobalNow(s, now, r) == Level(l.all, now, r.globalBurst, r.globalRefill)
    && forall k :: 0 <= k < |s.clients| ==> BucketAgrees(s.clients[k], l.clients, now, r)
  }

  lemma DatedLater(l: Ledger, now: nat, later: nat)
    requires Dated(l, now) && now <= later
    ensures Dated(l, later)
  {
  }

  lemma AgreesLater(s: Limit, l: Ledger, now: nat, later: nat, r: Rates)
    requires Agrees(s, l, now, r) && now <= later && Sensible(r)
    ensures Agrees(s, l, later, r)
  {
    DatedLater(l, now, later);
    GlobalLater(s, now, later, r);
    LevelLater(l.all, now, later, r.globalBurst, r.globalRefill);
    hide Level, Accrued, Capped, GlobalNow, Ready, Distinct, UpTo;
    forall k | 0 <= k < |s.clients|
      ensures BucketAgrees(s.clients[k], l.clients, later, r)
    {
      BucketLater(s.clients[k], l.clients, now, later, r);
    }
  }

  lemma BucketLater(b: Bucket, books: map<string, seq<nat>>, now: nat, later: nat, r: Rates)
    requires BucketAgrees(b, books, now, r) && now <= later && Sensible(r)
    ensures BucketAgrees(b, books, later, r)
  {
    hide Level, Accrued, Capped, Ready, UpTo;
    if b.ip != "" {
      ReadyLater(b, now, later, r);
      LevelLater(books[b.ip], now, later, r.clientBurst, r.clientRefill);
    }
  }

  // What a call finds in the two buckets.
  lemma CallFinds(s: Limit, l: Ledger, ip: string, now: nat, r: Rates)
    requires Agrees(s, l, now, r) && Sensible(r) && ip != ""
    ensures ClientNow(s, ip, now, r) == Level(TimesOf(l, ip, Resident(s, ip)), now, r.clientBurst, r.clientRefill)
    ensures GlobalNow(s, now, r) == Level(l.all, now, r.globalBurst, r.globalRefill)
  {
    hide Oldest, Level;
    AccruedAdds(r.clientRefill, 0, 0);
    var b := s.clients[SlotFor(s.clients, ip)];
    assert BucketAgrees(b, l.clients, now, r);
    if b.ip == ip {
      assert Resident(s, ip);
    } else {
      assert !Resident(s, ip);
      assert TimesOf(l, ip, false) == [];
      LevelFull(now, r.clientBurst, r.clientRefill);
    }
  }

  lemma LevelFull(now: nat, burst: real, refill: real)
    ensures Level([], now, burst, refill) == burst
  {
  }

  lemma CallAnswers(s: Limit, l: Ledger, ip: string, now: nat, r: Rates)
    requires Agrees(s, l, now, r) && Sensible(r) && ip != ""
    ensures Allow(s, ip, now, r).1 == Verdict(l, ip, Resident(s, ip), now, r)
  {
    hide Level, Exhausted, ClientNow, GlobalNow;
    CallFinds(s, l, ip, now, r);
    LevelExhausted(TimesOf(l, ip, Resident(s, ip)), now, r.clientBurst, r.clientRefill);
    LevelExhausted(l.all, now, r.globalBurst, r.globalRefill);
  }

  // The buckets after a call.
  lemma CallLeaves(s: Limit, ip: string, now: nat, r: Rates)
    requires s.clients != [] && Monotone(s, now) && now > 0 && Sensible(r)
    ensures var (t, result) := Allow(s, ip, now, r); var spent := if result == 0 then 1.0 else 0.0;
      var slot := SlotFor(s.clients, ip);
      && Monotone(t, now) && GlobalNow(t, now, r) == GlobalNow(s, now, r) - spent
      && t.clients == s.clients[slot := t.clients[slot]] && t.clients[slot].ip == ip && t.clients[slot].last == now
      && Ready(t.clients[slot], now, r) == ClientNow(s, ip, now, r) - spent
  {
    hide Oldest, IndexOf, SlotFor;
    AccruedAdds(r.globalRefill, 0, 0);
    AccruedAdds(r.clientRefill, 0, 0);
  }

  lemma NotedDated(l: Ledger, ip: string, known: bool, now: nat, admitted: bool)
    requires Dated(l, now)
    ensures Dated(Noted(l, ip, known, now, admitted), now)
  {
  }

  lemma SpendLevels(l: Ledger, ip: string, known: bool, now: nat, admitted: bool, r: Rates)
    requires Dated(l, now)
    ensures var m, spent := Noted(l, ip, known, now, admitted), if admitted then 1.0 else 0.0;
      && Dated(m, now) && ip in m.clients
      && Level(m.all, now, r.globalBurst, r.globalRefill)
           == Level(l.all, now, r.globalBurst, r.globalRefill) - spent
      && Level(m.clients[ip], now, r.clientBurst, r.clientRefill)
           == Level(TimesOf(l, ip, known), now, r.clientBurst, r.clientRefill) - spent
      && forall other :: other in l.clients && other != ip ==>
           other in m.clients && m.clients[other] == l.clients[other]
  {
    hide Level;
    NotedDated(l, ip, known, now, admitted);
    LevelSpend(l.all, now, r.globalBurst, r.globalRefill);
    LevelSpend(TimesOf(l, ip, known), now, r.clientBurst, r.clientRefill);
  }

  // Every bucket agrees with the new lists.
  lemma BucketsAgree(s: Limit, t: Limit, slot: nat, l: Ledger, m: Ledger, now: nat, r: Rates)
    requires Agrees(s, l, now, r) && slot < |s.clients| == |t.clients|
    requires t.clients == s.clients[slot := t.clients[slot]]
    requires Distinct(t.clients) && BucketAgrees(t.clients[slot], m.clients, now, r)
    requires forall ip :: ip in l.clients && ip != t.clients[slot].ip ==>
      ip in m.clients && m.clients[ip] == l.clients[ip]
    ensures forall k :: 0 <= k < |t.clients| ==> BucketAgrees(t.clients[k], m.clients, now, r)
  {
    hide BucketAgrees, Distinct, Level, GlobalNow, Dated, Monotone;
    forall k | 0 <= k < |t.clients|
      ensures BucketAgrees(t.clients[k], m.clients, now, r)
    {
      if k != slot { BucketStays(t.clients, k, slot, l.clients, m.clients, now, r); }
    }
  }

  lemma AgreesWhen(s: Limit, l: Ledger, now: nat, r: Rates)
    requires s.clients != [] && Monotone(s, now) && Dated(l, now) && Distinct(s.clients)
    requires GlobalNow(s, now, r) == Level(l.all, now, r.globalBurst, r.globalRefill)
    requires forall k :: 0 <= k < |s.clients| ==> BucketAgrees(s.clients[k], l.clients, now, r)
    ensures Agrees(s, l, now, r)
  {
  }

  lemma AgreesParts(s: Limit, l: Ledger, now: nat, r: Rates)
    requires Agrees(s, l, now, r)
    ensures s.clients != [] && Monotone(s, now) && Dated(l, now) && Distinct(s.clients)
  {
  }

  lemma CallAgrees(s: Limit, l: Ledger, ip: string, now: nat, r: Rates)
    requires Agrees(s, l, now, r) && Sensible(r) && ip != "" && now > 0
    ensures s.clients != [] && Monotone(s, now)
    ensures var (t, result) := Allow(s, ip, now, r);
      Agrees(t, Noted(l, ip, Resident(s, ip), now, result == 0), now, r)
  {
    hide *;
    AgreesParts(s, l, now, r);
    var (t, result) := Allow(s, ip, now, r);
    var known, slot := Resident(s, ip), SlotFor(s.clients, ip);
    var m := Noted(l, ip, known, now, result == 0);
    CallFinds(s, l, ip, now, r);
    CallLeaves(s, ip, now, r);
    AllowDistinct(s, ip, now, r);
    SpendLevels(l, ip, known, now, result == 0, r);
    BooksDated(m, ip, now);
    BucketIs(t.clients[slot], m.clients, now, r);
    BucketsAgree(s, t, slot, l, m, now, r);
    AgreesWhen(t, m, now, r);
  }

  lemma BooksDated(l: Ledger, ip: string, now: nat)
    requires Dated(l, now) && ip in l.clients
    ensures UpTo(l.all, now) && UpTo(l.clients[ip], now)
  {
  }

  lemma BucketIs(b: Bucket, books: map<string, seq<nat>>, now: nat, r: Rates)
    requires b.last <= now && b.ip in books && UpTo(books[b.ip], now)
    requires Ready(b, now, r) == Level(books[b.ip], now, r.clientBurst, r.clientRefill)
    ensures BucketAgrees(b, books, now, r)
  {
  }

  lemma BucketStays(clients: seq<Bucket>, k: nat, slot: nat, books: map<string, seq<nat>>, next: map<string, seq<nat>>,
                    now: nat, r: Rates)
    requires Distinct(clients) && k < |clients| && slot < |clients| && k != slot
    requires BucketAgrees(clients[k], books, now, r)
    requires forall ip :: ip in books && ip != clients[slot].ip ==> ip in next && next[ip] == books[ip]
    ensures BucketAgrees(clients[k], next, now, r)
  {
    hide Level, Ready, Distinct, UpTo;
    if clients[k].ip != "" { OnceOnly(clients, k, slot); }
  }

  lemma OnceOnly(clients: seq<Bucket>, j: nat, k: nat)
    requires Distinct(clients) && j < |clients| && k < |clients| && j != k && clients[j].ip != ""
    ensures clients[j].ip != clients[k].ip
  {
    if clients[k].ip != "" {
      assert j < k ==> clients[j].ip != clients[k].ip;
      assert k < j ==> clients[k].ip != clients[j].ip;
    }
  }

  // ----- whole runs -----

  // The lists after some calls, by the answers they demand; only who is resident is the table's.
  function Kept(s: Limit, l: Ledger, calls: seq<Call>, r: Rates): (m: Ledger)
    requires s.clients != [] && Ordered(calls)
    requires calls != [] ==> Monotone(s, calls[0].now) && Dated(l, calls[0].now)
    ensures calls != [] ==> Dated(m, Last(calls))
    decreases |calls|
  {
    if calls == [] then l
    else
      var ip, now := calls[0].ip, calls[0].now;
      var known := Resident(s, ip);
      var next := Noted(l, ip, known, now, Verdict(l, ip, known, now, r) == 0);
      NotedDated(l, ip, known, now, Verdict(l, ip, known, now, r) == 0);
      assert calls[1..] != [] ==> Dated(next, calls[1].now) by {
        if calls[1..] != [] { DatedLater(next, now, calls[1].now); }
      }
      Kept(Allow(s, ip, now, r).0, next, calls[1..], r)
  }

  lemma {:induction false} KeptAgrees(s: Limit, l: Ledger, now: nat, calls: seq<Call>, later: nat, r: Rates)
    requires Agrees(s, l, now, r) && Sensible(r) && Holds(s, r) && Timely(s, calls) && now <= later
    requires forall i :: 0 <= i < |calls| ==> calls[i].ip != "" && now <= calls[i].now <= later
    ensures calls != [] ==> Dated(l, calls[0].now)
    ensures Agrees(After(s, calls, r), Kept(s, l, calls, r), later, r)
    decreases |calls|
  {
    if calls == [] {
      AgreesLater(s, l, now, later, r);
    } else {
      var ip, at := calls[0].ip, calls[0].now;
      AgreesLater(s, l, now, at, r);
      CallAnswers(s, l, ip, at, r);
      CallAgrees(s, l, ip, at, r);
      AllowKeeps(s, ip, at, r);
      hide Allow, Verdict, Noted, Monotone, Dated, Resident, Holds;
      var (t, result) := Allow(s, ip, at, r);
      KeptAgrees(t, Noted(l, ip, Resident(s, ip), at, result == 0), at, calls[1..], later, r);
    }
  }

  lemma EmptyAgrees(r: Rates)
    requires Sensible(r)
    ensures Agrees(Empty(), BLANK, 0, r)
  {
    AccruedAdds(r.globalRefill, 0, 0);
  }

  predicate Named(calls: seq<Call>) {
    forall i :: 0 <= i < |calls| ==> calls[i].ip != ""
  }

  // The state and the lists after a run.
  ghost predicate Run(calls: seq<Call>, now: nat, r: Rates, s: Limit, l: Ledger) {
    && Sensible(r) && Named(calls) && Timely(Empty(), calls) && now > 0 && (calls != [] ==> Last(calls) <= now)
    && Holds(Empty(), r) && s == After(Empty(), calls, r)
    && Dated(BLANK, if calls == [] then 0 else calls[0].now) && l == Kept(Empty(), BLANK, calls, r)
  }

  lemma RunAgrees(calls: seq<Call>, now: nat, r: Rates, s: Limit, l: Ledger)
    requires Run(calls, now, r, s, l)
    ensures Agrees(s, l, now, r)
  {
    EmptyAgrees(r);
    hide Agrees, Empty, After, Kept;
    KeptAgrees(Empty(), BLANK, 0, calls, now, r);
  }

  /** In every run, the limiter's answer is the one that the admission times demand: refused with 1
      exactly when the client has no room in some stretch since its bucket was filled, else with 2
      exactly when all clients together have none, and admitted otherwise. */
  lemma AnswerIs(calls: seq<Call>, ip: string, now: nat, r: Rates, s: Limit, l: Ledger)
    requires Run(calls, now, r, s, l) && ip != ""
    ensures s.clients != [] && Monotone(s, now) && Dated(l, now)
    ensures Allow(s, ip, now, r).1 == Verdict(l, ip, Resident(s, ip), now, r)
  {
    hide Run, Allow, Verdict, Distinct, Level;
    assert Sensible(r) by { RunSensible(calls, now, r, s, l); }
    RunAgrees(calls, now, r, s, l);
    CallAnswers(s, l, ip, now, r);
  }

  lemma RunSensible(calls: seq<Call>, now: nat, r: Rates, s: Limit, l: Ledger)
    requires Run(calls, now, r, s, l)
    ensures Sensible(r) && (calls == [] ==> s == Empty() && l == BLANK)
  {
  }

  // Within the burst nothing is ever exhausted.
  lemma WithinBurst(times: seq<nat>, now: nat, burst: real, refill: real)
    requires UpTo(times, now) && refill >= 0.0 && |times| as real + 1.0 <= burst
    ensures !Exhausted(times, now, burst, refill)
  {
    hide Accrued;
    forall k | 0 <= k <= |times|
      ensures !Bursts(times, now, k, burst, refill)
    {
      AccruedPositive(refill, Since(times, now, k));
      assert (|times| - k + 1) as real <= |times| as real + 1.0;
    }
  }

  /** A client without a bucket is admitted unless the global limit is exhausted, and the first
      request of a run always is. */
  lemma NewcomerAdmitted(calls: seq<Call>, ip: string, now: nat, r: Rates, s: Limit, l: Ledger)
    requires Run(calls, now, r, s, l) && ip != "" && r.clientBurst >= 1.0
    ensures s.clients != [] && Monotone(s, now) && Dated(l, now)
    ensures !Resident(s, ip) ==>
      Allow(s, ip, now, r).1 == if Exhausted(l.all, now, r.globalBurst, r.globalRefill) then 2 else 0
    ensures calls == [] && r.globalBurst >= 1.0 ==> Allow(s, ip, now, r).1 == 0
  {
    AnswerIs(calls, ip, now, r, s, l);
    RunSensible(calls, now, r, s, l);
    if calls == [] && r.globalBurst >= 1.0 {
      WithinBurst(l.all, now, r.globalBurst, r.globalRefill);
      NobodyResident(ip);
    }
    hide Allow, Exhausted;
    if !Resident(s, ip) { WithinBurst(TimesOf(l, ip, false), now, r.clientBurst, r.clientRefill); }
  }

  lemma NobodyResident(ip: string)
    requires ip != ""
    ensures !Resident(Empty(), ip)
  {
  }

  // ----- who keeps a bucket -----

  lemma {:induction false} AfterSnoc(s: Limit, calls: seq<Call>, r: Rates)
    requires Holds(s, r) && Sensible(r) && Timely(s, calls) && calls != []
    ensures var n := |calls| - 1;
      && Timely(s, calls[..n]) && After(s, calls[..n], r).clients != []
      && Monotone(After(s, calls[..n], r), calls[n].now)
      && After(s, calls, r) == Allow(After(s, calls[..n], r), calls[n].ip, calls[n].now, r).0
    decreases |calls|
  {
    hide Allow, Accrued;
    var n := |calls| - 1;
    AllowKeeps(s, calls[0].ip, calls[0].now, r);
    if n == 0 {
      assert calls[..n] == [] && calls[1..] == [];
    } else {
      AfterSnoc(Allow(s, calls[0].ip, calls[0].now, r).0, calls[1..], r);
      assert calls[1..][..n - 1] == calls[..n][1..];
    }
  }

  // The other addresses that called at or after a time.
  function Rivals(calls: seq<Call>, ip: string, since: nat): set<string> {
    set j | 0 <= j < |calls| && calls[j].now >= since && calls[j].ip != ip :: calls[j].ip
  }

  // Each bucket knows when its client last called.
  predicate CalledLast(b: Bucket, calls: seq<Call>) {
    if b.ip == "" then b.last == 0
    else
      && Call(b.ip, b.last) in calls
      && forall j :: 0 <= j < |calls| && calls[j].ip == b.ip ==> calls[j].now <= b.last
  }

  predicate LastKnown(s: Limit, calls: seq<Call>) {
    |s.clients| == BUCKETS && forall k :: 0 <= k < |s.clients| ==> CalledLast(s.clients[k], calls)
  }

  lemma CallNotes(s: Limit, calls: seq<Call>, c: Call, r: Rates)
    requires LastKnown(s, calls) && Monotone(s, c.now) && c.ip != "" && Distinct(s.clients) && Ordered(calls + [c])
    ensures LastKnown(Allow(s, c.ip, c.now, r).0, calls + [c])
  {
    AllowDistinct(s, c.ip, c.now, r);
    AllowPlaces(s, c.ip, c.now, r);
    hide Allow, Distinct, Monotone, SlotFor;
    var t, slot := Allow(s, c.ip, c.now, r).0, SlotFor(s.clients, c.ip);
    assert (calls + [c])[|calls|] == c;
    forall k | 0 <= k < |t.clients|
      ensures CalledLast(t.clients[k], calls + [c])
    {
      if k != slot {
        assert CalledLast(s.clients[k], calls);
        if t.clients[k].ip != "" { OnceOnly(t.clients, k, slot); }
      } else {
        assert forall j :: 0 <= j < |calls| ==> (calls + [c])[j].now <= c.now;
      }
    }
  }

  lemma AllowPlaces(s: Limit, ip: string, now: nat, r: Rates)
    requires s.clients != [] && Monotone(s, now)
    ensures var t, slot := Allow(s, ip, now, r).0, SlotFor(s.clients, ip);
      && |t.clients| == |s.clients| && t.clients[slot].ip == ip && t.clients[slot].last == now
      && forall k :: 0 <= k < |s.clients| && k != slot ==> t.clients[k] == s.clients[k]
  {
  }

  lemma {:induction false} LastKnownAfter(calls: seq<Call>, r: Rates)
    requires Sensible(r) && Named(calls) && Timely(Empty(), calls) && Holds(Empty(), r)
    ensures LastKnown(After(Empty(), calls, r), calls) && Distinct(After(Empty(), calls, r).clients)
    decreases |calls|
  {
    hide Allow, Accrued, LastKnown, Distinct;
    EmptyHolds(r);
    if calls == [] {
      NoneCalled();
    } else {
      var n := |calls| - 1;
      AfterSnoc(Empty(), calls, r);
      LastKnownAfter(calls[..n], r);
      assert calls[..n] + [calls[n]] == calls;
      CallNotes(After(Empty(), calls[..n], r), calls[..n], calls[n], r);
      AllowDistinct(After(Empty(), calls[..n], r), calls[n].ip, calls[n].now, r);
    }
  }

  lemma NoneCalled()
    ensures LastKnown(Empty(), [])
  {
  }

  function Addresses(clients: seq<Bucket>): set<string> {
    set k | 0 <= k < |clients| :: clients[k].ip
  }

  lemma {:induction false} DistinctCount(clients: seq<Bucket>)
    requires Distinct(clients) && forall k :: 0 <= k < |clients| ==> clients[k].ip != ""
    ensures |Addresses(clients)| == |clients|
    decreases |clients|
  {
    if clients != [] {
      var n := |clients| - 1;
      DistinctCount(clients[..n]);
      assert clients[n].ip !in Addresses(clients[..n]);
      assert Addresses(clients) == Addresses(clients[..n]) + {clients[n].ip};
    }
  }

  lemma SubsetCount<T>(a: set<T>, b: set<T>)
    requires a <= b
    ensures |a| <= |b|
  {
    assert b == a + (b - a);
  }

  lemma RivalsGrow(calls: seq<Call>, c: Call, ip: string, since: nat)
    ensures Rivals(calls, ip, since) <= Rivals(calls + [c], ip, since)
    ensures c.now >= since && c.ip != ip ==> c.ip in Rivals(calls + [c], ip, since)
  {
    assert (calls + [c])[|calls|] == c;
    forall x | x in Rivals(calls, ip, since)
      ensures x in Rivals(calls + [c], ip, since)
    {
      var j :| 0 <= j < |calls| && calls[j].now >= since && calls[j].ip != ip && calls[j].ip == x;
      assert (calls + [c])[j] == calls[j];
    }
  }

  lemma StaysElsewhere(s: Limit, ip: string, c: Call, r: Rates)
    requires s.clients != [] && Monotone(s, c.now) && Resident(s, ip)
    ensures IndexOf(s.clients, ip) != SlotFor(s.clients, c.ip) ==> Resident(Allow(s, c.ip, c.now, r).0, ip)
  {
    var t, i := Allow(s, c.ip, c.now, r).0, IndexOf(s.clients, ip);
    if i != SlotFor(s.clients, c.ip) { assert t.clients[i].ip == ip; }
  }

  // When a call takes a client's bucket away, every bucket belongs to somebody who called no earlier.
  lemma Displaced(s: Limit, calls: seq<Call>, c: Call, ip: string, since: nat, r: Rates)
    requires LastKnown(s, calls) && Distinct(s.clients) && Monotone(s, c.now) && c.ip != "" && ip != "" && c.ip != ip
    requires Resident(s, ip) && !Resident(Allow(s, c.ip, c.now, r).0, ip)
    requires Call(ip, since) in calls && 0 < since <= c.now
    ensures |Rivals(calls + [c], ip, since)| >= BUCKETS
  {
    var t, slot, i := Allow(s, c.ip, c.now, r).0, SlotFor(s.clients, c.ip), IndexOf(s.clients, ip);
    AllowDistinct(s, c.ip, c.now, r);
    AllowPlaces(s, c.ip, c.now, r);
    RivalsGrow(calls, c, ip, since);
    StaysElsewhere(s, ip, c, r);
    SlotIsOldest(s.clients, c.ip);
    assert CalledLast(s.clients[i], calls);
    hide Allow, Monotone, SlotFor, Distinct, Resident, Rivals, IndexOf;
    forall k | 0 <= k < |t.clients|
      ensures t.clients[k].ip != "" && t.clients[k].ip in Rivals(calls + [c], ip, since)
    {
      if k != slot {
        assert CalledLast(s.clients[k], calls);
        OnceOnly(s.clients, i, k);
        RivalIs(calls, s.clients[k], ip, since);
      }
    }
    DistinctCount(t.clients);
    SubsetCount(Addresses(t.clients), Rivals(calls + [c], ip, since));
  }

  lemma RivalIs(calls: seq<Call>, b: Bucket, ip: string, since: nat)
    requires Call(b.ip, b.last) in calls && b.last >= since && b.ip != ip
    ensures b.ip in Rivals(calls, ip, since)
  {
    var j :| 0 <= j < |calls| && calls[j] == Call(b.ip, b.last);
  }

  lemma SlotIsOldest(clients: seq<Bucket>, ip: string)
    requires clients != []
    ensures clients[SlotFor(clients, ip)].ip != ip ==>
      forall k :: 0 <= k < |clients| ==> clients[SlotFor(clients, ip)].last <= clients[k].last
  {
  }

  /** A client keeps its bucket until as many other addresses as there are buckets have called at or
      after any of its calls. */
  lemma {:induction false} ResidentUnlessCrowded(calls: seq<Call>, r: Rates, i: nat)
    requires Sensible(r) && Named(calls) && Timely(Empty(), calls) && Holds(Empty(), r) && i < |calls|
    ensures Resident(After(Empty(), calls, r), calls[i].ip)
      || |Rivals(calls, calls[i].ip, calls[i].now)| >= BUCKETS
    decreases |calls|
  {
    hide Allow, Accrued, LastKnown, Distinct, Resident, Rivals, Monotone;
    var n := |calls| - 1;
    var before, c, ip, since := calls[..n], calls[n], calls[i].ip, calls[i].now;
    AfterSnoc(Empty(), calls, r);
    LastKnownAfter(before, r);
    var s := After(Empty(), before, r);
    assert before + [c] == calls;
    AllowDistinct(s, c.ip, c.now, r);
    if c.ip != ip {
      ResidentUnlessCrowded(before, r, i);
      assert before[i] == Call(ip, since);
      RivalsGrow(before, c, ip, since);
      if |Rivals(before, ip, since)| >= BUCKETS {
        SubsetCount(Rivals(before, ip, since), Rivals(calls, ip, since));
      } else if !Resident(Allow(s, c.ip, c.now, r).0, ip) {
        Displaced(s, before, c, ip, since, r);
      }
    }
  }
}
