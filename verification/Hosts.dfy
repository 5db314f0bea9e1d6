/**
 * Which route of a host answers a request. Ownership of the path is settled first, from the whole table; only then
 * are the method, the query and the body size looked at. The choice is described here without any table order,
 * and the two passes over the table are proved to make it.
 */
module Hosts {
  import opened Options

  datatype Route = Route(path: string, isPrefix: bool, verb: string, query: bool, bodyLimit: nat)
  // What the second pass needs of a request: its target, its method and its body size.
  datatype Request = Request(target: string, verb: string, contentLength: nat)
  // The HTTP status to refuse with, or 0, and the route, if one was chosen.
  datatype Answer<T> = Answer(status: nat, route: Option<T>)

  // ----- the path of a target -----

  predicate HasQuery(target: string) {
    '?' in target
  }

  function Path(target: string): (p: string)
    ensures p <= target && '?' !in p && (p == target || target[|p|] == '?')
    ensures |p| == |target| <==> !HasQuery(target)
  {
    if target == "" || target[0] == '?' then "" else [target[0]] + Path(target[1..])
  }

  /** A route matches its own path, a prefix route every path that starts with it. */
  predicate Matches(r: Route, path: string) {
    if r.isPrefix then r.path <= path else r.path == path
  }

  // ----- ownership -----

  // r is the more specific of two matching routes.
  predicate Better(r: Route, s: Route) {
    if s.isPrefix then !r.isPrefix || |r.path| > |s.path| else false
  }

  /** r owns the path: it matches, and nothing in the table is more specific. */
  predicate Owns(r: Route, table: set<Route>, path: string) {
    r in table && Matches(r, path) && forall s | s in table && Matches(s, path) :: !Better(s, r)
  }

  predicate SameKey(r: Route, s: Route) {
    r.path == s.path && r.isPrefix == s.isPrefix
  }

  // What the configuration makes sure of: no two entries share path, kind and method.
  predicate Distinct(routes: seq<Route>) {
    forall i, j | 0 <= i < j < |routes| :: SameKey(routes[i], routes[j]) ==> routes[i].verb != routes[j].verb
  }

  function Table(routes: seq<Route>): (t: set<Route>)
    ensures forall r :: r in t <==> r in routes
  {
    set r | r in routes
  }

  lemma OwnersShareKey(r: Route, s: Route, table: set<Route>, path: string)
    requires Owns(r, table, path) && Owns(s, table, path)
    ensures SameKey(r, s)
  {
    assert !Better(r, s) && !Better(s, r);
    if r.isPrefix {
      assert r.path == path[..|r.path|] && s.path == path[..|s.path|];
    }
  }

  // Any route with the key of an owner is an owner.
  lemma KeyOwns(r: Route, s: Route, table: set<Route>, path: string)
    requires Owns(r, table, path) && s in table && SameKey(r, s)
    ensures Owns(s, table, path)
  {
  }

  // ----- prefix paths -----

  predicate Forbidden(c: char) {
    c == '%' || c == '\\' || c == '#'
  }

  // The segment that starts at k is "." or "..".
  predicate DotSegment(path: string, k: nat) {
    || (k < |path| && path[k] == '.' && (k + 1 == |path| || path[k + 1] == '/'))
    || (k + 1 < |path| && path[k] == '.' && path[k + 1] == '.' && (k + 2 == |path| || path[k + 2] == '/'))
  }

  predicate StartsSegment(path: string, k: nat) {
    k == 1 || (2 <= k <= |path| && path[k - 1] == '/')
  }

  /** Nothing in the path could be read as another path: no escapes, empty segments or dot segments. */
  predicate Unambiguous(path: string) {
    && (forall i | 0 <= i < |path| :: !Forbidden(path[i]))
    && (forall i | 1 <= i < |path| :: path[i] == '/' ==> path[i - 1] != '/')
    && (forall k: nat | 1 <= k <= |path| && StartsSegment(path, k) :: !DotSegment(path, k))
  }

  predicate DotBetween(path: string, start: int, end: int)
    requires 0 <= start && end <= |path|
  {
    || (end - start == 1 && path[start] == '.')
    || (end - start == 2 && path[start] == '.' && path[start + 1] == '.')
  }

  /** unambiguous_prefix_path: one pass finds what Unambiguous rules out. */
  method UnambiguousPrefixPath(path: string) returns (ok: bool)
    ensures ok <==> Unambiguous(path)
  {
    var i, start := 0, 1;
    while i < |path|
      invariant 0 <= i <= |path| && 1 <= start && (start <= i || start == 1)
      invariant StartsSegment(path, start)
      invariant forall k | start <= k < i :: path[k] != '/'
      invariant forall k | 0 <= k < i :: !Forbidden(path[k])
      invariant forall k | 1 <= k < i :: path[k] == '/' ==> path[k - 1] != '/'
      invariant forall k: nat | 1 <= k < start && StartsSegment(path, k) :: !DotSegment(path, k)
    {
      if Forbidden(path[i]) {
        return false;
      }
      if path[i] == '/' && i > 0 && path[i - 1] == '/' {
        return false;
      }
      if i > 0 && path[i] == '/' {
        if DotBetween(path, start, i) {
          assert DotSegment(path, start);
          return false;
        }
        SegmentEnds(path, start, i);
        start := i + 1;
      }
      i := i + 1;
    }
    SegmentEnds(path, start, |path|);
    return !DotBetween(path, start, |path|);
  }

  // A segment with no slash inside is a dot segment exactly when its text is one or two dots.
  lemma SegmentEnds(path: string, start: nat, end: nat)
    requires 1 <= start && end <= |path|
    requires start <= end || (start == 1 && path == "")
    requires forall k | start <= k < end :: path[k] != '/'
    requires end < |path| ==> path[end] == '/'
    ensures DotSegment(path, start) <==> DotBetween(path, start, end)
    ensures forall k: nat | start < k <= end :: !StartsSegment(path, k)
  {
  }

  // ----- the decision -----

  /** The answer for a path that no route owns. */
  function Unowned(local: bool): Answer<nat> {
    Answer(if local then 0 else 404, None)
  }

  // Some owner of the path accepts the request's query.
  ghost predicate QueryAllowed(table: set<Route>, request: Request) {
    exists r :: Owns(r, table, Path(request.target)) && (r.query || !HasQuery(request.target))
  }

  // The first owner with the request's method.
  ghost predicate FirstOwner(routes: seq<Route>, request: Request, i: nat) {
    && i < |routes| && Owns(routes[i], Table(routes), Path(request.target)) && routes[i].verb == request.verb
    && forall j | 0 <= j < i && Owns(routes[j], Table(routes), Path(request.target)) :: routes[j].verb != request.verb
  }

  function Accepted(r: Route, request: Request, i: nat): Answer<nat> {
    if HasQuery(request.target) && !r.query then Answer(404, None)
    else Answer(if request.contentLength > r.bodyLimit then 413 else 0, Some(i))
  }

  /** What the host answers: only owners of the path decide, and their refusal is final. */
  ghost predicate Decided(routes: seq<Route>, request: Request, local: bool, a: Answer<nat>) {
    var table, path := Table(routes), Path(request.target);
    && ((forall r | r in table :: !Owns(r, table, path)) ==> a == Unowned(local))
    && (forall r | r in table && Owns(r, table, path) ::
          if r.isPrefix && !Unambiguous(path) then a == Answer(404, None)
          else
            && (forall i: nat | FirstOwner(routes, request, i) :: a == Accepted(routes[i], request, i))
            && ((forall s | s in table && Owns(s, table, path) :: s.verb != request.verb) ==>
                  a == Answer(if QueryAllowed(table, request) then 405 else 404, None)))
  }

  // The loop's test for taking r instead of the best so far.
  predicate Takes(r: Route, best: Option<Route>) {
    || best.None?
    || (!r.isPrefix && best.value.isPrefix)
    || (best.value.isPrefix && r.isPrefix && |r.path| > |best.value.path|)
  }

  // The owner of the path among the routes seen so far.
  predicate BestOf(routes: seq<Route>, path: string, best: Option<Route>) {
    && (best.None? ==> forall r | r in routes :: !Matches(r, path))
    && (best.Some? ==> Owns(best.value, Table(routes), path))
  }

  lemma BestStep(seen: seq<Route>, r: Route, path: string, best: Option<Route>)
    requires BestOf(seen, path, best)
    ensures BestOf(seen + [r], path, if Matches(r, path) && Takes(r, best) then Some(r) else best)
  {
    forall s | s in seen + [r] && Matches(s, path)
      ensures s in seen || s == r
    {
    }
  }

  method FindOwner(routes: seq<Route>, path: string) returns (best: Option<Route>)
    ensures BestOf(routes, path, best)
  {
    best := None;
    var i := 0;
    while i < |routes|
      invariant 0 <= i <= |routes|
      invariant BestOf(routes[..i], path, best)
    {
      var r := routes[i];
      BestStep(routes[..i], r, path, best);
      assert routes[..i + 1] == routes[..i] + [r];
      if Matches(r, path) && Takes(r, best) {
        best := Some(r);
      }
      i := i + 1;
    }
    assert routes[..i] == routes;
  }

  // What the second pass knows after the first i routes.
  ghost predicate Scanned(routes: seq<Route>, best: Route, request: Request, i: nat, queryAllowed: bool) {
    && i <= |routes|
    && (forall j | 0 <= j < i && SameKey(routes[j], best) :: routes[j].verb != request.verb)
    && (queryAllowed <==>
          exists j :: 0 <= j < i && SameKey(routes[j], best) && (routes[j].query || !HasQuery(request.target)))
  }

  // Among the routes of the table, owners are the ones with the key of one owner.
  lemma OwnersByKey(routes: seq<Route>, best: Route, path: string)
    requires Owns(best, Table(routes), path)
    ensures forall j | 0 <= j < |routes| :: Owns(routes[j], Table(routes), path) <==> SameKey(routes[j], best)
  {
    forall j | 0 <= j < |routes|
      ensures Owns(routes[j], Table(routes), path) <==> SameKey(routes[j], best)
    {
      if SameKey(routes[j], best) {
        KeyOwns(best, routes[j], Table(routes), path);
      }
      if Owns(routes[j], Table(routes), path) {
        OwnersShareKey(routes[j], best, Table(routes), path);
      }
    }
  }

  lemma AcceptedIsDecided(routes: seq<Route>, best: Route, request: Request, local: bool, i: nat, queryAllowed: bool)
    requires Owns(best, Table(routes), Path(request.target))
    requires best.isPrefix ==> Unambiguous(Path(request.target))
    requires Scanned(routes, best, request, i, queryAllowed)
    requires i < |routes| && SameKey(routes[i], best) && routes[i].verb == request.verb
    ensures Decided(routes, request, local, Accepted(routes[i], request, i))
  {
    hide Better, Matches, Path, Unambiguous;
    var table, path := Table(routes), Path(request.target);
    OwnersByKey(routes, best, path);
    assert FirstOwner(routes, request, i);
    forall r | r in table && Owns(r, table, path)
      ensures SameKey(r, best)
    {
      OwnersShareKey(r, best, table, path);
    }
  }

  lemma RefusedIsDecided(routes: seq<Route>, best: Route, request: Request, local: bool, queryAllowed: bool)
    requires Owns(best, Table(routes), Path(request.target))
    requires best.isPrefix ==> Unambiguous(Path(request.target))
    requires Scanned(routes, best, request, |routes|, queryAllowed)
    ensures Decided(routes, request, local, Answer(if queryAllowed then 405 else 404, None))
  {
    hide Better, Matches, Path, Unambiguous;
    var table, path := Table(routes), Path(request.target);
    OwnersByKey(routes, best, path);
    forall r | r in table && Owns(r, table, path)
      ensures SameKey(r, best) && r.verb != request.verb
    {
      OwnersShareKey(r, best, table, path);
    }
    assert queryAllowed <==> QueryAllowed(table, request);
  }

  /** ankah_host_request, from the choice of the route on. */
  method HostRequest(routes: seq<Route>, request: Request, primary: bool, local: bool) returns (a: Answer<nat>)
    ensures primary ==> a == Answer(0, None)
    ensures !primary ==> Decided(routes, request, local, a)
  {
    hide Better, Matches, Takes, Unambiguous, Decided, Owns, Scanned;
    if primary {
      return Answer(0, None);
    }
    var path := Path(request.target);
    var best := FindOwner(routes, path);
    if best.None? {
      NobodyOwns(routes, request, local);
      return Unowned(local);
    }
    if best.value.isPrefix {
      var clear := UnambiguousPrefixPath(path);
      if !clear {
        AmbiguousIsDecided(routes, best.value, request, local);
        return Answer(404, None);
      }
    }
    var queryAllowed := false;
    var i := 0;
    NothingScanned(routes, best.value, request);
    while i < |routes|
      invariant 0 <= i <= |routes|
      invariant Scanned(routes, best.value, request, i, queryAllowed)
    {
      var r := routes[i];
      ghost var before := queryAllowed;
      if SameKey(r, best.value) {
        if r.query || !HasQuery(request.target) {
          queryAllowed := true;
        }
        if r.verb == request.verb {
          AcceptedIsDecided(routes, best.value, request, local, i, before);
          if HasQuery(request.target) && !r.query {
            return Answer(404, None);
          }
          return Answer(if request.contentLength > r.bodyLimit then 413 else 0, Some(i));
        }
      }
      ScanStep(routes, best.value, request, i, before);
      i := i + 1;
    }
    RefusedIsDecided(routes, best.value, request, local, queryAllowed);
    return Answer(if queryAllowed then 405 else 404, None);
  }

  lemma NothingScanned(routes: seq<Route>, best: Route, request: Request)
    ensures Scanned(routes, best, request, 0, false)
  {
  }

  lemma ScanStep(routes: seq<Route>, best: Route, request: Request, i: nat, before: bool)
    requires i < |routes| && Scanned(routes, best, request, i, before)
    requires SameKey(routes[i], best) ==> routes[i].verb != request.verb
    ensures Scanned(routes, best, request, i + 1,
                    before || (SameKey(routes[i], best) && (routes[i].query || !HasQuery(request.target))))
  {
  }

  lemma NobodyOwns(routes: seq<Route>, request: Request, local: bool)
    requires BestOf(routes, Path(request.target), None)
    ensures Decided(routes, request, local, Unowned(local))
  {
    hide Path;
  }

  lemma AmbiguousIsDecided(routes: seq<Route>, best: Route, request: Request, local: bool)
    requires Owns(best, Table(routes), Path(request.target)) && best.isPrefix && !Unambiguous(Path(request.target))
    ensures Decided(routes, request, local, Answer(404, None))
  {
    hide Better, Matches, Path, Unambiguous;
    forall r | r in Table(routes) && Owns(r, Table(routes), Path(request.target))
      ensures r.isPrefix
    {
      OwnersShareKey(r, best, Table(routes), Path(request.target));
    }
  }

  // ----- what the decision means -----

  // If an owner has the method, some owner has it first.
  lemma {:induction false} SomebodyFirst(routes: seq<Route>, request: Request, j: nat) returns (i: nat)
    requires j < |routes| && Owns(routes[j], Table(routes), Path(request.target)) && routes[j].verb == request.verb
    ensures FirstOwner(routes, request, i)
    decreases j
  {
    hide Owns, Path;
    if k: nat :| k < j && Owns(routes[k], Table(routes), Path(request.target)) && routes[k].verb == request.verb {
      i := SomebodyFirst(routes, request, k);
    } else {
      i := j;
    }
  }

  // A request that is given a route had an owner with its method, and the first one was chosen.
  lemma ChosenIsFirst(routes: seq<Route>, request: Request, local: bool, a: Answer<nat>)
    requires Decided(routes, request, local, a) && a.route.Some?
    ensures a.route.value < |routes| && FirstOwner(routes, request, a.route.value)
  {
    hide Owns, Path, Unambiguous;
    var table, path := Table(routes), Path(request.target);
    var r :| r in table && Owns(r, table, path);
    assert !(r.isPrefix && !Unambiguous(path));
    var s :| s in table && Owns(s, table, path) && s.verb == request.verb;
    var j: nat :| j < |routes| && routes[j] == s;
    var i := SomebodyFirst(routes, request, j);
    assert a == Accepted(routes[i], request, i);
  }

  lemma MatchesMeans(routes: seq<Route>, request: Request, a: Answer<nat>)
    ensures forall r :: Matches(r, Path(request.target)) <==>
      if r.isPrefix then r.path <= Path(request.target) else r.path == Path(request.target)
  {
  }

  /** The chosen route is the most specific one that matches: an exact route if there is one, else
      the longest prefix. */
  lemma ChosenIsMostSpecific(routes: seq<Route>, request: Request, local: bool, a: Answer<nat>, s: Route)
    requires Decided(routes, request, local, a) && a.route.Some?
    requires s in routes && Matches(s, Path(request.target))
    ensures var i := a.route.value;
      && i < |routes| && Matches(routes[i], Path(request.target)) && routes[i].verb == request.verb
      && (!s.isPrefix ==> !routes[i].isPrefix)
      && (routes[i].isPrefix ==> |s.path| <= |routes[i].path|)
      && (if routes[i].isPrefix then routes[i].path <= Path(request.target) else routes[i].path == Path(request.target))
  {
    MatchesMeans(routes, request, a);
    hide Path, Decided, Matches;
    ChosenIsFirst(routes, request, local, a);
    assert s in Table(routes);
    assert !Better(s, routes[a.route.value]);
  }

  /** The statuses: 413 exactly for a chosen route whose body limit is exceeded, 405 only when no owner
      of the path has the method, and without an owner the local answer or 404. */
  lemma StatusExactly(routes: seq<Route>, request: Request, local: bool, a: Answer<nat>)
    requires Decided(routes, request, local, a)
    ensures a.route.Some? ==>
      && a.route.value < |routes| && routes[a.route.value].verb == request.verb
      && ('?' in request.target ==> routes[a.route.value].query)
      && a.status == if request.contentLength > routes[a.route.value].bodyLimit then 413 else 0
    ensures a.status == 405 ==>
      a.route.None? && forall r :: Owns(r, Table(routes), Path(request.target)) ==> r.verb != request.verb
    ensures a.route.None? ==> a.status == 404 || a.status == 405 || (a.status == 0 && local)
    ensures (forall r :: !Owns(r, Table(routes), Path(request.target))) ==>
      a.route.None? && a.status == if local then 0 else 404
  {
    hide Owns, Path, Unambiguous;
    var table, path := Table(routes), Path(request.target);
    if a.route.Some? { ChosenIsFirst(routes, request, local, a); }
    if r :| r in table && Owns(r, table, path) {
      if s :| s in table && Owns(s, table, path) && s.verb == request.verb {
        var j: nat :| j < |routes| && routes[j] == s;
        var i := SomebodyFirst(routes, request, j);
      }
    }
    forall r | Owns(r, table, path)
      ensures r in table
    {
      OwnsIn(r, table, path);
    }
  }

  lemma OwnsIn(r: Route, table: set<Route>, path: string)
    requires Owns(r, table, path)
    ensures r in table
  {
  }

  function Chosen(routes: seq<Route>, a: Answer<nat>): Option<Route> {
    if a.route.Some? && a.route.value < |routes| then Some(routes[a.route.value]) else None
  }

  // Two first owners of the same table, however it is ordered, are the same route.
  lemma SameFirst(one: seq<Route>, two: seq<Route>, request: Request, i: nat, k: nat)
    requires Table(one) == Table(two) && Distinct(one)
    requires FirstOwner(one, request, i) && FirstOwner(two, request, k)
    ensures one[i] == two[k]
  {
    hide Path, Owns;
    OwnersShareKey(one[i], two[k], Table(one), Path(request.target));
    assert two[k] in Table(two);
    var j: nat :| j < |one| && one[j] == two[k];
  }

  /** The answer does not depend on the order of the table. */
  lemma OrderDoesNotMatter(one: seq<Route>, two: seq<Route>, request: Request, local: bool,
                           a: Answer<nat>, b: Answer<nat>)
    requires Table(one) == Table(two) && Distinct(one)
    requires Decided(one, request, local, a) && Decided(two, request, local, b)
    ensures a.status == b.status && Chosen(one, a) == Chosen(two, b)
  {
    hide Path, Owns, Unambiguous, QueryAllowed;
    var table, path := Table(one), Path(request.target);
    if r :| r in table && Owns(r, table, path) {
      if !(r.isPrefix && !Unambiguous(path)) {
        if s :| s in table && Owns(s, table, path) && s.verb == request.verb {
          var j: nat :| j < |one| && one[j] == s;
          var i := SomebodyFirst(one, request, j);
          assert s in Table(two);
          var l: nat :| l < |two| && two[l] == s;
          var k := SomebodyFirst(two, request, l);
          SameFirst(one, two, request, i, k);
          assert a == Accepted(one[i], request, i) && b == Accepted(two[k], request, k);
        }
      }
    }
  }
}
