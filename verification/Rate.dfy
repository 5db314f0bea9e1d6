/** The request rate limiter: one global token bucket and a bounded table of client
    buckets, over real-valued tokens. */
module Rate {

  const BUCKETS := 1024

  datatype Bucket = Bucket(ip: string, tokens: real, last: nat)

  datatype Limit = Limit(globalTokens: real, globalLast: nat, clients: seq<Bucket>)

  // Bursts and refills per second; fixed over a run.
  datatype Rates = Rates(globalBurst: real, globalRefill: real, clientBurst: real, clientRefill: real)

  predicate Sensible(r: Rates) {
    r.globalBurst >= 0.0 && r.globalRefill >= 0.0 && r.clientBurst >= 0.0 && r.clientRefill >= 0.0
  }

  // What accrues over some nanoseconds.
  function Accrued(refill: real, ns: nat): real {
    ns as real / 1000000000.0 * refill
  }

  function Capped(tokens: real, burst: real): real {
    if tokens > burst then burst else tokens
  }

  // The first client with this address, or |clients|.
  function IndexOf(clients: seq<Bucket>, ip: string): (i: nat)
    ensures i <= |clients| && (i < |clients| ==> clients[i].ip == ip)
    ensures forall k :: 0 <= k < i ==> clients[k].ip != ip
  {
    if clients == [] || clients[0].ip == ip then 0 else 1 + IndexOf(clients[1..], ip)
  }

  // The first of the least recently used clients.
  function Oldest(clients: seq<Bucket>): (i: nat)
    requires clients != []
    ensures i < |clients| && (forall k :: 0 <= k < |clients| ==> clients[i].last <= clients[k].last)
    ensures forall k :: 0 <= k < i ==> clients[i].last < clients[k].last
  {
    if |clients| == 1 then 0
    else
      var n := |clients| - 1;
      var i := Oldest(clients[..n]);
      if clients[n].last < clients[i].last then n else i
  }

  function SlotFor(clients: seq<Bucket>, ip: string): (i: nat)
    requires clients != []
    ensures i < |clients|
  {
    if IndexOf(clients, ip) < |clients| then IndexOf(clients, ip) else Oldest(clients)
  }

  function GlobalNow(s: Limit, now: nat, r: Rates): real
    requires s.globalLast <= now
  {
    if s.globalLast == 0 then Capped(r.globalBurst + Accrued(r.globalRefill, 0), r.globalBurst)
    else Capped(s.globalTokens + Accrued(r.globalRefill, now - s.globalLast), r.globalBurst)
  }

  function ClientNow(s: Limit, ip: string, now: nat, r: Rates): real
    requires s.clients != [] && forall k :: 0 <= k < |s.clients| ==> s.clients[k].last <= now
  {
    var b := s.clients[SlotFor(s.clients, ip)];
    if b.ip == ip then Capped(b.tokens + Accrued(r.clientRefill, now - b.last), r.clientBurst)
    else Capped(r.clientBurst + Accrued(r.clientRefill, 0), r.clientBurst)
  }

  predicate Monotone(s: Limit, now: nat) {
    s.globalLast <= now && forall k :: 0 <= k < |s.clients| ==> s.clients[k].last <= now
  }

  // ankah_rate_allow: 0 admits, 1 is the client's limit, 2 the global one.
  function Allow(s: Limit, ip: string, now: nat, r: Rates): (Limit, int)
    requires s.clients != [] && Monotone(s, now)
  {
    var global, client, slot := GlobalNow(s, now, r), ClientNow(s, ip, now, r), SlotFor(s.clients, ip);
    var result := if client < 1.0 then 1 else if global < 1.0 then 2 else 0;
    var spent := if result == 0 then 1.0 else 0.0;
    (Limit(global - spent, now, s.clients[slot := Bucket(ip, client - spent, now)]), result)
  }

  // ----- whole runs -----

  datatype Call = Call(ip: string, now: nat)

  predicate Ordered(calls: seq<Call>) {
    forall i, j :: 0 <= i < j < |calls| ==> calls[i].now <= calls[j].now
  }

  ghost predicate Timely(s: Limit, calls: seq<Call>) {
    Ordered(calls) && (forall i :: 0 <= i < |calls| ==> calls[i].now > 0) && (calls != [] ==> Monotone(s, calls[0].now))
  }

  predicate Holds(s: Limit, r: Rates) {
    && s.clients != []
    && 0.0 <= s.globalTokens && (s.globalLast > 0 ==> s.globalTokens <= r.globalBurst)
    && forall k :: 0 <= k < |s.clients| ==> 0.0 <= s.clients[k].tokens
  }

  lemma AccruedAdds(refill: real, a: nat, b: nat)
    ensures Accrued(refill, a + b) == Accrued(refill, a) + Accrued(refill, b)
    ensures Accrued(refill, 0) == 0.0
  {
    var x, y := a as real / 1000000000.0, b as real / 1000000000.0;
    assert (a + b) as real / 1000000000.0 == x + y;
    assert (x + y) * refill == x * refill + y * refill;
    assert 0 as real / 1000000000.0 * refill == 0.0;
  }

  lemma AccruedPositive(refill: real, ns: nat)
    requires refill >= 0.0
    ensures Accrued(refill, ns) >= 0.0
  {
    assert ns as real / 1000000000.0 >= 0.0;
  }

  lemma AllowKeeps(s: Limit, ip: string, now: nat, r: Rates)
    requires Holds(s, r) && Sensible(r) && Monotone(s, now) && now > 0
    ensures var (t, result) := Allow(s, ip, now, r);
      && Holds(t, r) && t.globalLast == now && |t.clients| == |s.clients|
      && forall later :: later >= now ==> Monotone(t, later)
  {
    AccruedAdds(r.globalRefill, 0, 0);
    AccruedAdds(r.clientRefill, 0, 0);
    AccruedPositive(r.globalRefill, now - s.globalLast);
    var b := s.clients[SlotFor(s.clients, ip)];
    AccruedPositive(r.clientRefill, now - b.last);
  }

  // How many calls were admitted.
  function Admitted(s: Limit, calls: seq<Call>, r: Rates): nat
    requires Holds(s, r) && Sensible(r) && Timely(s, calls)
    decreases |calls|
  {
    if calls == [] then 0
    else
      AllowKeeps(s, calls[0].ip, calls[0].now, r);
      var (t, result) := Allow(s, calls[0].ip, calls[0].now, r);
      (if result == 0 then 1 else 0) + Admitted(t, calls[1..], r)
  }

  function Last(calls: seq<Call>): nat
    requires calls != []
  {
    calls[|calls| - 1].now
  }

  lemma OneCallSpends(s: Limit, ip: string, now: nat, r: Rates)
    requires Holds(s, r) && Sensible(r) && Monotone(s, now) && now > 0
    ensures var (t, result) := Allow(s, ip, now, r); var spent := if result == 0 then 1.0 else 0.0;
      && t.globalTokens + spent <= r.globalBurst
      && (s.globalLast > 0 ==> t.globalTokens + spent <= s.globalTokens + Accrued(r.globalRefill, now - s.globalLast))
  {
    AccruedAdds(r.globalRefill, 0, 0);
  }

  lemma {:induction false} GlobalSpend(s: Limit, calls: seq<Call>, r: Rates)
    requires Holds(s, r) && Sensible(r) && Timely(s, calls) && s.globalLast > 0 && calls != []
    ensures Admitted(s, calls, r) as real <= s.globalTokens + Accrued(r.globalRefill, Last(calls) - s.globalLast)
    decreases |calls|
  {
    hide Accrued;
    var now := calls[0].now;
    AllowKeeps(s, calls[0].ip, now, r);
    OneCallSpends(s, calls[0].ip, now, r);
    var (t, result) := Allow(s, calls[0].ip, now, r);
    hide Allow, Holds;
    if |calls| == 1 {
      assert calls[1..] == [];
      GlobalPositive(t, r);
    } else {
      GlobalSpend(t, calls[1..], r);
      AccruedAdds(r.globalRefill, now - s.globalLast, Last(calls) - now);
    }
  }

  lemma GlobalPositive(t: Limit, r: Rates)
    requires Holds(t, r)
    ensures t.globalTokens >= 0.0
  {
  }

  /** Over any stretch of any run, admissions are at most the global burst plus what was
      refilled during that stretch. */
  lemma {:induction false} GlobalBound(s: Limit, calls: seq<Call>, r: Rates)
    requires Holds(s, r) && Sensible(r) && Timely(s, calls) && calls != []
    ensures Admitted(s, calls, r) as real <= r.globalBurst + Accrued(r.globalRefill, Last(calls) - calls[0].now)
  {
    hide Accrued;
    var now := calls[0].now;
    AllowKeeps(s, calls[0].ip, now, r);
    OneCallSpends(s, calls[0].ip, now, r);
    var (t, result) := Allow(s, calls[0].ip, now, r);
    hide Allow, Holds;
    if |calls| == 1 {
      assert calls[1..] == [];
      GlobalPositive(t, r);
      AccruedAdds(r.globalRefill, 0, 0);
    } else {
      GlobalSpend(t, calls[1..], r);
    }
  }

  // ----- one client -----

  predicate Distinct(clients: seq<Bucket>) {
    forall j, k :: 0 <= j < k < |clients| && clients[j].ip != "" ==> clients[j].ip != clients[k].ip
  }

  predicate Resident(s: Limit, ip: string) {
    IndexOf(s.clients, ip) < |s.clients|
  }

  /** Addresses stay distinct: a new one takes the place of the least recently used. */
  lemma AllowDistinct(s: Limit, ip: string, now: nat, r: Rates)
    requires s.clients != [] && Monotone(s, now) && Distinct(s.clients)
    ensures Distinct(Allow(s, ip, now, r).0.clients) && Resident(Allow(s, ip, now, r).0, ip)
  {
    hide Accrued, Oldest;
    var t, slot := Allow(s, ip, now, r).0, SlotFor(s.clients, ip);
    assert t.clients[slot].ip == ip;
    if s.clients[slot].ip != ip { assert forall k :: 0 <= k < |s.clients| ==> s.clients[k].ip != ip; }
  }

  // What another client's call leaves of a resident bucket that is still resident.
  lemma OtherCall(s: Limit, ip: string, other: string, now: nat, r: Rates)
    requires s.clients != [] && Monotone(s, now) && Distinct(s.clients) && ip != "" && other != ip
    requires Resident(s, ip) && Resident(Allow(s, other, now, r).0, ip)
    ensures var t := Allow(s, other, now, r).0;
      t.clients[IndexOf(t.clients, ip)] == s.clients[IndexOf(s.clients, ip)]
  {
    var t := Allow(s, other, now, r).0;
    AllowDistinct(s, other, now, r);
  }

  function AdmittedTo(s: Limit, calls: seq<Call>, ip: string, r: Rates): nat
    requires Holds(s, r) && Sensible(r) && Timely(s, calls)
    decreases |calls|
  {
    if calls == [] then 0
    else
      AllowKeeps(s, calls[0].ip, calls[0].now, r);
      var (t, result) := Allow(s, calls[0].ip, calls[0].now, r);
      (if result == 0 && calls[0].ip == ip then 1 else 0) + AdmittedTo(t, calls[1..], ip, r)
  }

  // The client's bucket is never evicted along the calls.
  ghost predicate StaysResident(s: Limit, calls: seq<Call>, ip: string, r: Rates)
    requires Holds(s, r) && Sensible(r) && Timely(s, calls)
    decreases |calls|, 1
  {
    Resident(s, ip) && ResidentAfter(s, calls, ip, r)
  }

  // The same from the state that the first call leaves.
  ghost predicate ResidentAfter(s: Limit, calls: seq<Call>, ip: string, r: Rates)
    requires Holds(s, r) && Sensible(r) && Timely(s, calls)
    decreases |calls|, 0
  {
    if calls == [] then true
    else
      AllowKeeps(s, calls[0].ip, calls[0].now, r);
      StaysResident(Allow(s, calls[0].ip, calls[0].now, r).0, calls[1..], ip, r)
  }

  function BucketOf(s: Limit, ip: string): Bucket
    requires Resident(s, ip)
  {
    s.clients[IndexOf(s.clients, ip)]
  }

  lemma OwnCall(s: Limit, ip: string, now: nat, r: Rates)
    requires Holds(s, r) && Sensible(r) && Monotone(s, now) && now > 0 && Distinct(s.clients) && ip != ""
    ensures var (t, result) := Allow(s, ip, now, r); var spent := if result == 0 then 1.0 else 0.0;
      && Resident(t, ip) && BucketOf(t, ip).last == now && 0.0 <= BucketOf(t, ip).tokens
      && BucketOf(t, ip).tokens + spent <= r.clientBurst
      && (Resident(s, ip) ==>
            BucketOf(t, ip).tokens + spent
              <= BucketOf(s, ip).tokens + Accrued(r.clientRefill, now - BucketOf(s, ip).last))
  {
    AccruedAdds(r.clientRefill, 0, 0);
    AllowKeeps(s, ip, now, r);
    AllowDistinct(s, ip, now, r);
    var t := Allow(s, ip, now, r).0;
    assert t.clients[SlotFor(s.clients, ip)].ip == ip;
    assert IndexOf(t.clients, ip) == SlotFor(s.clients, ip);
  }

  lemma StaysUnfold(s: Limit, calls: seq<Call>, ip: string, r: Rates)
    requires Holds(s, r) && Sensible(r) && Timely(s, calls) && calls != [] && StaysResident(s, calls, ip, r)
    ensures var t := Allow(s, calls[0].ip, calls[0].now, r).0;
      && Resident(s, ip) && Resident(t, ip) && Holds(t, r) && Timely(t, calls[1..])
      && StaysResident(t, calls[1..], ip, r)
  {
    AllowKeeps(s, calls[0].ip, calls[0].now, r);
    assert ResidentAfter(s, calls, ip, r);
    ResidentNow(Allow(s, calls[0].ip, calls[0].now, r).0, calls[1..], ip, r);
  }

  lemma ResidentNow(s: Limit, calls: seq<Call>, ip: string, r: Rates)
    requires Holds(s, r) && Sensible(r) && Timely(s, calls) && StaysResident(s, calls, ip, r)
    ensures Resident(s, ip)
  {
  }

  lemma {:induction false} ClientSpend(s: Limit, calls: seq<Call>, ip: string, r: Rates)
    requires Holds(s, r) && Sensible(r) && Timely(s, calls) && calls != [] && ip != ""
    requires Distinct(s.clients) && StaysResident(s, calls, ip, r)
    ensures BucketOf(s, ip).last <= calls[0].now
    ensures AdmittedTo(s, calls, ip, r) as real
      <= BucketOf(s, ip).tokens + Accrued(r.clientRefill, Last(calls) - BucketOf(s, ip).last)
    decreases |calls|
  {
    hide Accrued, Allow, AdmittedTo, ResidentAfter, StaysResident, Holds, IndexOf, Distinct;
    ResidentNow(s, calls, ip, r);
    var now, b := calls[0].now, BucketOf(s, ip);
    AllowKeeps(s, calls[0].ip, now, r);
    AllowDistinct(s, calls[0].ip, now, r);
    StaysUnfold(s, calls, ip, r);
    AdmittedUnfold(s, calls, ip, r);
    var t := Allow(s, calls[0].ip, now, r).0;
    if calls[0].ip == ip { OwnCall(s, ip, now, r); } else { OtherCall(s, ip, calls[0].ip, now, r); }
    if |calls| == 1 {
      assert calls[1..] == [];
      NoneAdmitted(t, ip, r);
      AccruedPositive(r.clientRefill, now - b.last);
      BucketPositive(s, ip, r);
    } else {
      ClientSpend(t, calls[1..], ip, r);
      AccruedAdds(r.clientRefill, now - b.last, Last(calls) - now);
    }
  }

  lemma BucketPositive(s: Limit, ip: string, r: Rates)
    requires Holds(s, r) && Resident(s, ip)
    ensures BucketOf(s, ip).tokens >= 0.0
  {
  }

  lemma AdmittedUnfold(s: Limit, calls: seq<Call>, ip: string, r: Rates)
    requires Holds(s, r) && Sensible(r) && Timely(s, calls) && calls != []
    ensures var (t, result) := Allow(s, calls[0].ip, calls[0].now, r);
      && Holds(t, r) && Timely(t, calls[1..])
      && AdmittedTo(s, calls, ip, r)
           == (if result == 0 && calls[0].ip == ip then 1 else 0) + AdmittedTo(t, calls[1..], ip, r)
      && (ResidentAfter(s, calls, ip, r) ==> StaysResident(t, calls[1..], ip, r))
  {
    AllowKeeps(s, calls[0].ip, calls[0].now, r);
  }

  lemma NoneAdmitted(s: Limit, ip: string, r: Rates)
    requires Holds(s, r) && Sensible(r)
    ensures AdmittedTo(s, [], ip, r) == 0
  {
  }

  /** Over any stretch that begins with one of its requests and during which its bucket is
      not evicted, a client is admitted at most its burst plus its refill. */
  lemma {:induction false} ClientBound(s: Limit, calls: seq<Call>, ip: string, r: Rates)
    requires Holds(s, r) && Sensible(r) && Timely(s, calls) && calls != [] && ip != "" && calls[0].ip == ip
    requires Distinct(s.clients) && ResidentAfter(s, calls, ip, r)
    ensures AdmittedTo(s, calls, ip, r) as real
      <= r.clientBurst + Accrued(r.clientRefill, Last(calls) - calls[0].now)
  {
    hide Accrued, Allow, IndexOf, Distinct, AdmittedTo, ResidentAfter, StaysResident, Holds;
    var now := calls[0].now;
    AllowKeeps(s, ip, now, r);
    AllowDistinct(s, ip, now, r);
    OwnCall(s, ip, now, r);
    AdmittedUnfold(s, calls, ip, r);
    var t := Allow(s, ip, now, r).0;
    if |calls| == 1 {
      assert calls[1..] == [];
      NoneAdmitted(t, ip, r);
      AccruedAdds(r.clientRefill, 0, 0);
    } else {
      ClientSpend(t, calls[1..], ip, r);
    }
  }

  // The bucket is not evicted from the client's first request on.
  ghost predicate StaysOnce(s: Limit, calls: seq<Call>, ip: string, r: Rates)
    requires Holds(s, r) && Sensible(r) && Timely(s, calls)
    decreases |calls|
  {
    if calls == [] then true
    else if calls[0].ip == ip then ResidentAfter(s, calls, ip, r)
    else
      AllowKeeps(s, calls[0].ip, calls[0].now, r);
      StaysOnce(Allow(s, calls[0].ip, calls[0].now, r).0, calls[1..], ip, r)
  }

  lemma StaysOnceUnfold(s: Limit, calls: seq<Call>, ip: string, r: Rates)
    requires Holds(s, r) && Sensible(r) && Timely(s, calls) && calls != [] && StaysOnce(s, calls, ip, r)
    ensures calls[0].ip == ip ==> ResidentAfter(s, calls, ip, r)
    ensures var t := Allow(s, calls[0].ip, calls[0].now, r).0;
      && Holds(t, r) && Timely(t, calls[1..])
      && (calls[0].ip != ip ==> StaysOnce(t, calls[1..], ip, r))
  {
    AllowKeeps(s, calls[0].ip, calls[0].now, r);
  }

  /** The client's bound for any stretch, whoever opens it: its burst plus its refill, while its
      bucket is not evicted from its own first request on. */
  lemma {:induction false} ClientStretch(s: Limit, calls: seq<Call>, ip: string, r: Rates)
    requires Holds(s, r) && Sensible(r) && Timely(s, calls) && calls != [] && ip != ""
    requires Distinct(s.clients) && StaysOnce(s, calls, ip, r)
    ensures AdmittedTo(s, calls, ip, r) as real
      <= r.clientBurst + Accrued(r.clientRefill, Last(calls) - calls[0].now)
    decreases |calls|
  {
    hide Accrued, Allow, IndexOf, Distinct, AdmittedTo, ResidentAfter, Holds, StaysOnce;
    StaysOnceUnfold(s, calls, ip, r);
    if calls[0].ip == ip {
      ClientBound(s, calls, ip, r);
    } else {
      AllowKeeps(s, calls[0].ip, calls[0].now, r);
      AllowDistinct(s, calls[0].ip, calls[0].now, r);
      AdmittedUnfold(s, calls, ip, r);
      var t := Allow(s, calls[0].ip, calls[0].now, r).0;
      if |calls| == 1 {
        assert calls[1..] == [];
        NoneAdmitted(t, ip, r);
        AccruedAdds(r.clientRefill, 0, 0);
      } else {
        ClientStretch(t, calls[1..], ip, r);
        AccruedAdds(r.clientRefill, calls[1].now - calls[0].now, Last(calls) - calls[1].now);
        AccruedPositive(r.clientRefill, calls[1].now - calls[0].now);
      }
    }
  }

  // ----- rejections -----

  // What a bucket holds at a time.
  function Ready(b: Bucket, now: nat, r: Rates): real
    requires b.last <= now
  {
    Capped(b.tokens + Accrued(r.clientRefill, now - b.last), r.clientBurst)
  }

  // Two states that no client can tell apart from `now` on, as long as nobody is evicted.
  predicate Alike(s: Limit, t: Limit, now: nat, r: Rates) {
    && |s.clients| == |t.clients| && s.clients != [] && Monotone(s, now) && Monotone(t, now)
    && GlobalNow(s, now, r) == GlobalNow(t, now, r)
    && forall k :: 0 <= k < |s.clients| ==>
         s.clients[k].ip == t.clients[k].ip && Ready(s.clients[k], now, r) == Ready(t.clients[k], now, r)
  }

  // Filling up twice is filling up once.
  lemma CappedTwice(tokens: real, refill: real, burst: real, a: nat, b: nat)
    requires refill >= 0.0
    ensures Capped(Capped(tokens + Accrued(refill, a), burst) + Accrued(refill, b), burst)
      == Capped(tokens + Accrued(refill, a + b), burst)
  {
    hide Accrued;
    AccruedAdds(refill, a, b);
    AccruedPositive(refill, b);
  }

  lemma ReadyLater(b: Bucket, now: nat, later: nat, r: Rates)
    requires Sensible(r) && b.last <= now <= later
    ensures Ready(b, later, r) == Capped(Ready(b, now, r) + Accrued(r.clientRefill, later - now), r.clientBurst)
  {
    hide Accrued, Capped;
    CappedTwice(b.tokens, r.clientRefill, r.clientBurst, now - b.last, later - now);
  }

  lemma GlobalLater(s: Limit, now: nat, later: nat, r: Rates)
    requires Sensible(r) && s.globalLast <= now <= later
    ensures GlobalNow(s, later, r) == Capped(GlobalNow(s, now, r) + Accrued(r.globalRefill, later - now), r.globalBurst)
  {
    hide Accrued;
    if s.globalLast == 0 {
      AccruedAdds(r.globalRefill, 0, 0);
      AccruedPositive(r.globalRefill, later - now);
    } else {
      CappedTwice(s.globalTokens, r.globalRefill, r.globalBurst, now - s.globalLast, later - now);
    }
  }

  lemma AlikeLater(s: Limit, t: Limit, now: nat, later: nat, r: Rates)
    requires Sensible(r) && Alike(s, t, now, r) && now <= later
    ensures Alike(s, t, later, r)
  {
    hide Accrued, Capped, GlobalNow, Ready;
    GlobalLater(s, now, later, r);
    GlobalLater(t, now, later, r);
    forall k | 0 <= k < |s.clients|
      ensures Ready(s.clients[k], later, r) == Ready(t.clients[k], later, r)
    {
      ReadyLater(s.clients[k], now, later, r);
      ReadyLater(t.clients[k], now, later, r);
    }
  }

  lemma {:induction false} SameIndex(a: seq<Bucket>, b: seq<Bucket>, ip: string)
    requires |a| == |b| && forall k :: 0 <= k < |a| ==> a[k].ip == b[k].ip
    ensures IndexOf(a, ip) == IndexOf(b, ip)
  {
    if a != [] { SameIndex(a[1..], b[1..], ip); }
  }

  lemma ReadyAgain(b: Bucket, now: nat, r: Rates)
    requires b.last <= now && Sensible(r)
    ensures b.tokens <= r.clientBurst ==> Ready(b.(last := now), now, r) == b.tokens
    ensures Ready(b, now, r) <= r.clientBurst
  {
    AccruedAdds(r.clientRefill, 0, 0);
  }

  lemma GlobalAgain(s: Limit, now: nat, r: Rates)
    requires s.globalLast == now && now > 0 && s.globalTokens <= r.globalBurst
    ensures GlobalNow(s, now, r) == s.globalTokens
  {
    AccruedAdds(r.globalRefill, 0, 0);
  }

  lemma GlobalAtMost(s: Limit, now: nat, r: Rates)
    requires s.globalLast <= now
    ensures GlobalNow(s, now, r) <= r.globalBurst
  {
  }

  // What a call by a resident client does to the buckets.
  lemma ResidentCall(s: Limit, ip: string, now: nat, r: Rates)
    requires s.clients != [] && Monotone(s, now) && now > 0 && Sensible(r) && Resident(s, ip)
    ensures var (t, result) := Allow(s, ip, now, r); var i := IndexOf(s.clients, ip);
      var spent := if result == 0 then 1.0 else 0.0;
      && result == (if Ready(s.clients[i], now, r) < 1.0 then 1 else if GlobalNow(s, now, r) < 1.0 then 2 else 0)
      && |t.clients| == |s.clients| && Monotone(t, now) && GlobalNow(t, now, r) == GlobalNow(s, now, r) - spent
      && forall k :: 0 <= k < |s.clients| ==>
           && t.clients[k].ip == s.clients[k].ip
           && Ready(t.clients[k], now, r) == Ready(s.clients[k], now, r) - if k == i then spent else 0.0
  {
    hide Accrued, Oldest, Capped;
    var (t, result) := Allow(s, ip, now, r);
    var i := IndexOf(s.clients, ip);
    ReadyAgain(s.clients[i], now, r);
    ReadyAgain(t.clients[i], now, r);
    GlobalAtMost(s, now, r);
    GlobalAgain(t, now, r);
  }

  lemma AlikeCall(s: Limit, t: Limit, ip: string, now: nat, r: Rates)
    requires Alike(s, t, now, r) && now > 0 && Sensible(r) && Resident(s, ip)
    ensures Allow(s, ip, now, r).1 == Allow(t, ip, now, r).1
    ensures Alike(Allow(s, ip, now, r).0, Allow(t, ip, now, r).0, now, r)
    ensures forall other :: Resident(s, other) ==> Resident(Allow(s, ip, now, r).0, other)
  {
    SameIndex(s.clients, t.clients, ip);
    ResidentCall(s, ip, now, r);
    ResidentCall(t, ip, now, r);
    hide Allow, Ready, GlobalNow, Accrued;
    var s1 := Allow(s, ip, now, r).0;
    forall other | Resident(s, other)
      ensures Resident(s1, other)
    {
      SameIndex(s.clients, s1.clients, other);
    }
  }

  // The answers to some calls.
  function Answers(s: Limit, calls: seq<Call>, r: Rates): seq<int>
    requires s.clients != [] && Ordered(calls) && (calls != [] ==> Monotone(s, calls[0].now))
    decreases |calls|
  {
    if calls == [] then []
    else
      var (t, result) := Allow(s, calls[0].ip, calls[0].now, r);
      [result] + Answers(t, calls[1..], r)
  }

  lemma {:induction false} AlikeAnswers(s: Limit, t: Limit, now: nat, calls: seq<Call>, r: Rates)
    requires Alike(s, t, now, r) && Sensible(r) && Ordered(calls) && (calls != [] ==> 0 < now <= calls[0].now)
    requires forall i :: 0 <= i < |calls| ==> Resident(s, calls[i].ip)
    ensures calls != [] ==> Monotone(s, calls[0].now) && Monotone(t, calls[0].now)
    ensures Answers(s, calls, r) == Answers(t, calls, r)
    decreases |calls|
  {
    hide Allow, Ready, GlobalNow, Accrued, Resident;
    if calls != [] {
      AlikeLater(s, t, now, calls[0].now, r);
      AlikeCall(s, t, calls[0].ip, calls[0].now, r);
      AlikeAnswers(Allow(s, calls[0].ip, calls[0].now, r).0, Allow(t, calls[0].ip, calls[0].now, r).0,
                   calls[0].now, calls[1..], r);
    }
  }

  // A rejected call leaves a state that nobody can tell from the one before.
  lemma RejectedAlike(s: Limit, ip: string, now: nat, r: Rates)
    requires s.clients != [] && Monotone(s, now) && now > 0 && Sensible(r) && Resident(s, ip)
    requires Allow(s, ip, now, r).1 != 0
    ensures Alike(s, Allow(s, ip, now, r).0, now, r)
  {
    hide Ready, GlobalNow, Accrued;
    ResidentCall(s, ip, now, r);
  }

  /** A rejected request of a resident client is as if it had not been made: every later call
      of resident clients gets the same answer, and at any later time both buckets hold what
      they would have held. */
  lemma {:induction false} RejectionIsFree(s: Limit, ip: string, now: nat, calls: seq<Call>, later: nat, r: Rates)
    requires s.clients != [] && Monotone(s, now) && now > 0 && Sensible(r) && Resident(s, ip)
    requires Allow(s, ip, now, r).1 != 0
    requires Ordered(calls) && (calls != [] ==> now <= calls[0].now) && now <= later
    requires forall i :: 0 <= i < |calls| ==> Resident(s, calls[i].ip)
    ensures var t := Allow(s, ip, now, r).0;
      && (calls != [] ==> Monotone(s, calls[0].now) && Monotone(t, calls[0].now))
      && Answers(t, calls, r) == Answers(s, calls, r)
      && Monotone(s, later) && Monotone(t, later) && t.clients != []
      && GlobalNow(t, later, r) == GlobalNow(s, later, r)
      && forall other :: ClientNow(t, other, later, r) == ClientNow(s, other, later, r)
  {
    RejectedAlike(s, ip, now, r);
    hide Allow, Accrued, Oldest;
    var t := Allow(s, ip, now, r).0;
    AlikeAnswers(s, t, now, calls, r);
    AlikeLater(s, t, now, later, r);
    forall other
      ensures ClientNow(t, other, later, r) == ClientNow(s, other, later, r)
    {
      SameClientNow(s, t, other, later, r);
    }
  }

  lemma SameClientNow(s: Limit, t: Limit, ip: string, now: nat, r: Rates)
    requires Alike(s, t, now, r)
    ensures ClientNow(t, ip, now, r) == ClientNow(s, ip, now, r)
  {
    hide Accrued, Oldest;
    SameIndex(s.clients, t.clients, ip);
  }

  // ----- from the start -----

  function Empty(): Limit {
    Limit(0.0, 0, seq(BUCKETS, _ => Bucket("", 0.0, 0)))
  }

  // The state that calls leave.
  function After(s: Limit, calls: seq<Call>, r: Rates): Limit
    requires Holds(s, r) && Sensible(r) && Timely(s, calls)
    decreases |calls|
  {
    if calls == [] then s
    else
      AllowKeeps(s, calls[0].ip, calls[0].now, r);
      After(Allow(s, calls[0].ip, calls[0].now, r).0, calls[1..], r)
  }

  lemma {:induction false} AfterHolds(s: Limit, calls: seq<Call>, r: Rates, later: nat)
    requires Holds(s, r) && Sensible(r) && Timely(s, calls) && Distinct(s.clients)
    ensures Holds(After(s, calls, r), r) && Distinct(After(s, calls, r).clients)
    ensures (if calls == [] then Monotone(s, later) else later >= Last(calls)) ==> Monotone(After(s, calls, r), later)
    decreases |calls|
  {
    hide Accrued, Distinct;
    if calls != [] {
      AllowKeeps(s, calls[0].ip, calls[0].now, r);
      AllowDistinct(s, calls[0].ip, calls[0].now, r);
      AfterHolds(Allow(s, calls[0].ip, calls[0].now, r).0, calls[1..], r, later);
    }
  }

  lemma TimelyParts(s: Limit, before: seq<Call>, during: seq<Call>)
    requires Timely(s, before + during) && during != []
    ensures Timely(s, before) && Ordered(during) && (forall i :: 0 <= i < |during| ==> during[i].now > 0)
    ensures before != [] ==> Last(before) <= during[0].now
    ensures before == [] ==> Monotone(s, during[0].now)
  {
    var all := before + during;
    assert forall i :: 0 <= i < |before| ==> before[i] == all[i];
    assert forall i :: 0 <= i < |during| ==> during[i] == all[|before| + i];
  }

  lemma EmptyHolds(r: Rates)
    requires Sensible(r)
    ensures Holds(Empty(), r) && Distinct(Empty().clients)
  {
  }

  /** The bound for any stretch `during` of any run from an empty limiter. */
  lemma RunBound(before: seq<Call>, during: seq<Call>, r: Rates)
    requires Sensible(r) && Timely(Empty(), before + during) && during != []
    ensures Holds(Empty(), r) && Timely(Empty(), before) && Holds(After(Empty(), before, r), r)
    ensures Timely(After(Empty(), before, r), during)
    ensures Admitted(After(Empty(), before, r), during, r) as real
      <= r.globalBurst + Accrued(r.globalRefill, Last(during) - during[0].now)
  {
    hide Accrued, Empty, Distinct, Holds;
    EmptyHolds(r);
    TimelyParts(Empty(), before, during);
    AfterHolds(Empty(), before, r, during[0].now);
    GlobalBound(After(Empty(), before, r), during, r);
  }

  /** The client's bound for any stretch of any run from an empty limiter. */
  lemma ClientRunBound(before: seq<Call>, during: seq<Call>, ip: string, r: Rates)
    requires Sensible(r) && Timely(Empty(), before + during) && during != [] && ip != ""
    requires Holds(Empty(), r) && Timely(Empty(), before) && Holds(After(Empty(), before, r), r)
    requires Timely(After(Empty(), before, r), during) && StaysOnce(After(Empty(), before, r), during, ip, r)
    ensures AdmittedTo(After(Empty(), before, r), during, ip, r) as real
      <= r.clientBurst + Accrued(r.clientRefill, Last(during) - during[0].now)
  {
    hide Accrued, Empty, Distinct, Holds, StaysOnce;
    EmptyHolds(r);
    AfterHolds(Empty(), before, r, during[0].now);
    ClientStretch(After(Empty(), before, r), during, ip, r);
  }

  // ----- the limiter in place -----

  class RateLimit {
    const clients: array<Bucket>
    var globalTokens: real
    var globalLast: nat

    ghost function View(): Limit
      reads this, clients
    {
      Limit(globalTokens, globalLast, clients[..])
    }

    constructor ()
      ensures View() == Empty() && fresh(clients)
    {
      clients := new Bucket[BUCKETS](_ => Bucket("", 0.0, 0));
      globalTokens, globalLast := 0.0, 0;
    }

    /** The scan for the client's bucket, or for the one to evict. */
    method Scan(ip: string) returns (slot: nat, found: bool)
      requires clients.Length > 0
      ensures slot == SlotFor(clients[..], ip) && slot < clients.Length
      ensures found <==> clients[slot].ip == ip
    {
      slot := 0;
      for i := 0 to clients.Length
        invariant slot < clients.Length && slot <= i && (slot == i ==> i == 0)
        invariant forall k :: 0 <= k < i ==> clients[k].ip != ip && clients[slot].last <= clients[k].last
        invariant forall k :: 0 <= k < slot ==> clients[slot].last < clients[k].last
      {
        if clients[i].ip == ip {
          FirstIndex(clients[..], ip, i);
          return i, true;
        }
        if clients[i].last < clients[slot].last { slot := i; }
      }
      found := false;
      FirstIndex(clients[..], ip, clients.Length);
      FirstOldest(clients[..], slot);
    }

    /** ankah_rate_allow */
    method AllowRequest(ip: string, now: nat, r: Rates) returns (result: int)
      requires clients.Length > 0 && Monotone(View(), now)
      modifies this`globalTokens, this`globalLast, clients
      ensures (View(), result) == Allow(old(View()), ip, now, r)
    {
      hide SlotFor, Accrued;
      if globalLast == 0 {
        globalLast := now;
        globalTokens := r.globalBurst;
      }
      globalTokens := globalTokens + Accrued(r.globalRefill, now - globalLast);
      if globalTokens > r.globalBurst { globalTokens := r.globalBurst; }
      globalLast := now;
      var slot, found := Scan(ip);
      var bucket := clients[slot];
      if !found { bucket := Bucket(ip, r.clientBurst, now); }
      var tokens := bucket.tokens + Accrued(r.clientRefill, now - bucket.last);
      if tokens > r.clientBurst { tokens := r.clientBurst; }
      clients[slot] := Bucket(ip, tokens, now);
      assert clients[..] == old(clients[..])[slot := Bucket(ip, tokens - 0.0, now)];
      if tokens < 1.0 { return 1; }
      if globalTokens < 1.0 { return 2; }
      globalTokens := globalTokens - 1.0;
      clients[slot] := Bucket(ip, tokens - 1.0, now);
      assert clients[..] == old(clients[..])[slot := Bucket(ip, tokens - 1.0, now)];
      result := 0;
    }
  }

  lemma FirstIndex(clients: seq<Bucket>, ip: string, i: nat)
    requires i <= |clients| && (i < |clients| ==> clients[i].ip == ip)
    requires forall k :: 0 <= k < i ==> clients[k].ip != ip
    ensures IndexOf(clients, ip) == i
  {
  }

  lemma FirstOldest(clients: seq<Bucket>, i: nat)
    requires i < |clients| && forall k :: 0 <= k < |clients| ==> clients[i].last <= clients[k].last
    requires forall k :: 0 <= k < i ==> clients[i].last < clients[k].last
    ensures Oldest(clients) == i
  {
  }
}
