/** First-match dispatch and the per-route counters of csi_http/server/server.h. */
module Routing {
  import opened Base
  import opened Replies
  import opened UriPatterns

  /** Counters are uint64_t: they wrap at 2^64. */
  const WRAP: nat := 0x1_0000_0000_0000_0000
  type uint64 = n: nat | n < WRAP

  function AddWrapped(a: uint64, b: uint64): uint64 {
    if a + b < WRAP then a + b else a + b - WRAP
  }

  /** The uint64_t that stands for an unbounded total. */
  function Wrapped(n: nat): uint64 {
    if n < WRAP then n else Wrapped(n - WRAP)
  }

  /** A 64-bit counter holds the total modulo 2^64. */
  lemma {:induction false} WrappedIsRemainder(n: nat)
    ensures Wrapped(n) == n % 0x1_0000_0000_0000_0000
  {
    if n >= WRAP {
      WrappedIsRemainder(n - WRAP);
    }
  }

  lemma {:induction false} WrappedAdd(n: nat, b: uint64)
    ensures Wrapped(n + b) == AddWrapped(Wrapped(n), b)
  {
    if n >= WRAP {
      WrappedAdd(n - WRAP, b);
    }
  }

  datatype Route = Route(pattern: Pattern, count: uint64)

  /** The least index of a flag that is set. */
  function FirstTrue(flags: seq<bool>): (r: Option<nat>)
    ensures r.Some? ==> r.value < |flags| && flags[r.value]
    ensures r.Some? ==> forall i :: 0 <= i < r.value ==> !flags[i]
    ensures r.None? ==> forall i :: 0 <= i < |flags| ==> !flags[i]
  {
    if flags == [] then None
    else if flags[0] then Some(0)
    else
      match FirstTrue(flags[1..])
      case None => assert forall i :: 0 < i < |flags| ==> flags[i] == flags[1..][i - 1]; None
      case Some(i) => assert forall k :: 0 < k < |flags| ==> flags[k] == flags[1..][k - 1]; Some(i + 1)
  }

  lemma {:induction false} FirstTrueIs(flags: seq<bool>, i: nat)
    requires i < |flags| && flags[i] && forall k :: 0 <= k < i ==> !flags[k]
    ensures FirstTrue(flags) == Some(i)
  {
    if i > 0 {
      FirstTrueIs(flags[1..], i - 1);
    }
  }

  lemma FirstTrueOfLonger(flags: seq<bool>, more: seq<bool>)
    requires FirstTrue(flags).Some? && flags <= more
    ensures FirstTrue(more) == FirstTrue(flags)
  {
    FirstTrueIs(more, FirstTrue(flags).value);
  }

  function MatchFlags(routes: seq<Route>, parts: Segments): (r: seq<bool>)
    ensures |r| == |routes|
  {
    seq(|routes|, i requires 0 <= i < |routes| => Matches(routes[i].pattern, parts))
  }

  /** The least index whose pattern matches. */
  function FirstMatch(routes: seq<Route>, parts: Segments): Option<nat> {
    FirstTrue(MatchFlags(routes, parts))
  }

  function Dispatched(routes: seq<Route>, parts: Segments): seq<Route> {
    match FirstMatch(routes, parts)
    case None => routes
    case Some(i) => routes[i := routes[i].(count := AddWrapped(routes[i].count, 1))]
  }

  /** The counters of the chosen routes, added up without wrapping. */
  function SumOver(routes: seq<Route>, chosen: set<nat>): nat {
    if routes == [] then 0
    else
      var n := |routes| - 1;
      SumOver(routes[..n], chosen) + if n in chosen then routes[n].count else 0
  }

  function MatchingRoutes(routes: seq<Route>, parts: Segments): set<nat> {
    set i: nat | i < |routes| && Matches(routes[i].pattern, parts)
  }

  lemma {:induction false} SumOverCongruent(routes: seq<Route>, a: set<nat>, b: set<nat>)
    requires forall i :: 0 <= i < |routes| ==> (i in a <==> i in b)
    ensures SumOver(routes, a) == SumOver(routes, b)
  {
    if routes != [] {
      SumOverCongruent(routes[..|routes| - 1], a, b);
    }
  }

  lemma {:induction false} SumOverNone(routes: seq<Route>, chosen: set<nat>)
    requires forall i :: 0 <= i < |routes| ==> i !in chosen
    ensures SumOver(routes, chosen) == 0
  {
    if routes != [] {
      SumOverNone(routes[..|routes| - 1], chosen);
    }
  }

  /** One chosen route contributes its counter; with SumOverUnion this fixes every sum. */
  lemma {:induction false} SumOverOne(routes: seq<Route>, i: nat)
    requires i < |routes|
    ensures SumOver(routes, {i}) == routes[i].count
  {
    var n := |routes| - 1;
    if i < n {
      SumOverOne(routes[..n], i);
    } else {
      SumOverNone(routes[..n], {i});
    }
  }

  lemma {:induction false} SumOverUnion(routes: seq<Route>, a: set<nat>, b: set<nat>)
    requires a !! b
    ensures SumOver(routes, a + b) == SumOver(routes, a) + SumOver(routes, b)
  {
    if routes != [] {
      SumOverUnion(routes[..|routes| - 1], a, b);
    }
  }

  lemma SumOverPrefix(routes: seq<Route>, parts: Segments, i: nat)
    requires i < |routes|
    ensures SumOver(routes[..i + 1], MatchingRoutes(routes, parts))
         == SumOver(routes[..i], MatchingRoutes(routes, parts))
            + if Matches(routes[i].pattern, parts) then routes[i].count else 0
  {
    assert routes[..i + 1][..i] == routes[..i];
  }

  class HandlerData {
    const pattern: UriPattern
    var requests: uint64

    ghost function View(): Route
      reads this
    {
      Route(pattern.View(), requests)
    }

    /** The counter has no initialiser in the source, so it starts at any value. */
    constructor (text: Octets, initial: uint64)
      ensures View() == Route(Compile(text), initial)
    {
      pattern := new UriPattern(text);
      requests := initial;
    }

    method Call()
      modifies this
      ensures View() == old(View()).(count := AddWrapped(old(View()).count, 1))
    {
      requests := AddWrapped(requests, 1);
    }
  }

  class Server {
    var handlers: seq<HandlerData>

    ghost predicate Valid()
      reads this
    {
      forall i, j :: 0 <= i < j < |handlers| ==> handlers[i] != handlers[j]
    }

    ghost function View(): (r: seq<Route>)
      reads this, handlers
      ensures |r| == |handlers| && forall i :: 0 <= i < |r| ==> r[i] == handlers[i].View()
    {
      seq(|handlers|, i requires 0 <= i < |handlers| reads this, handlers => handlers[i].View())
    }

    constructor ()
      ensures Valid() && View() == []
    {
      handlers := [];
    }

    method AddHandler(text: Octets, initial: uint64)
      requires Valid()
      modifies this
      ensures Valid() && View() == old(View()) + [Route(Compile(text), initial)]
    {
      var data := new HandlerData(text, initial);
      handlers := handlers + [data];
    }

    /** Counts the request on its route, or answers 404; what the route's handler does is its own. */
    method HandleRequest(url: Octets, reply: Reply) returns (routed: Option<nat>)
      requires Valid() && reply.content.Some?
      modifies handlers, reply
      ensures Valid() && handlers == old(handlers)
      ensures routed == FirstMatch(old(View()), Split(url))
      ensures View() == Dispatched(old(View()), Split(url))
      ensures reply.View() == if routed.Some? then old(reply.View())
                              else Created(old(reply.View()), NOT_FOUND, TEXT_HTML, 0)
      ensures routed.None? ==> reply.status == 404
    {
      var parts := Split(url);
      var i := 0;
      while i < |handlers|
        invariant 0 <= i <= |handlers|
        invariant forall k :: 0 <= k < i ==> !Matches(handlers[k].pattern.View(), parts)
        invariant View() == old(View()) && reply.View() == old(reply.View())
      {
        var matched := handlers[i].pattern.Match(parts);
        if matched {
          FirstTrueIs(MatchFlags(View(), parts), i);
          handlers[i].Call();
          return Some(i);
        }
        i := i + 1;
      }
      reply.Create(NOT_FOUND, TEXT_HTML, 0);
      return None;
    }

    method GetNoOfRequests(text: Octets) returns (result: uint64)
      ensures result == Wrapped(SumOver(View(), MatchingRoutes(View(), Split(text))))
    {
      var parts := Split(text);
      result := 0;
      var i := 0;
      ghost var routes := View();
      while i < |handlers|
        invariant 0 <= i <= |handlers|
        invariant result == Wrapped(SumOver(routes[..i], MatchingRoutes(routes, parts)))
      {
        var matched := handlers[i].pattern.Match(parts);
        SumOverPrefix(routes, parts, i);
        if matched {
          WrappedAdd(SumOver(routes[..i], MatchingRoutes(routes, parts)), handlers[i].requests);
          result := AddWrapped(result, handlers[i].requests);
        }
        i := i + 1;
      }
      assert routes[..i] == routes;
    }
  }

  // ---- whole histories

  datatype ServerEvent = AddRoute(text: Octets, initial: uint64) | Request(url: Octets)

  /** A server and the books an observer keeps beside it: who should have served each request. */
  datatype History = History(
    routes: seq<Route>,
    texts: seq<Octets>,
    initials: seq<uint64>,
    hits: seq<nat>,
    misses: nat,
    requests: nat)

  function LanguageFlags(texts: seq<Octets>, url: Octets): (r: seq<bool>)
    ensures |r| == |texts|
  {
    seq(|texts|, i requires 0 <= i < |texts| => InLanguage(texts[i], url))
  }

  /** Who should serve a URL: the first pattern whose language holds it. */
  function Owner(texts: seq<Octets>, url: Octets): (r: Option<nat>)
    ensures r.Some? ==> r.value < |texts|
  {
    FirstTrue(LanguageFlags(texts, url))
  }

  function Credit(hits: seq<nat>, owner: Option<nat>): (r: seq<nat>)
    ensures |r| == |hits|
  {
    if owner.Some? && owner.value < |hits| then hits[owner.value := hits[owner.value] + 1] else hits
  }

  function Next(h: History, e: ServerEvent): History {
    match e
    case AddRoute(text, initial) =>
      h.(routes := h.routes + [Route(Compile(text), initial)],
         texts := h.texts + [text], initials := h.initials + [initial], hits := h.hits + [0])
    case Request(url) =>
      var owner := Owner(h.texts, url);
      h.(routes := Dispatched(h.routes, Split(url)), hits := Credit(h.hits, owner),
         misses := h.misses + (if owner.None? then 1 else 0), requests := h.requests + 1)
  }

  function Run(es: seq<ServerEvent>): History {
    if es == [] then History([], [], [], [], 0, 0) else Next(Run(es[..|es| - 1]), es[|es| - 1])
  }

  function Sum(ns: seq<nat>): nat {
    if ns == [] then 0 else Sum(ns[..|ns| - 1]) + ns[|ns| - 1]
  }

  predicate Compiled(routes: seq<Route>, texts: seq<Octets>) {
    |routes| == |texts| && forall i :: 0 <= i < |texts| ==> routes[i].pattern == Compile(texts[i])
  }

  /** The counter of every route moved by the number of requests the route owned. */
  predicate Counted(routes: seq<Route>, initials: seq<uint64>, hits: seq<nat>) {
    && |routes| == |initials| == |hits|
    && forall i :: 0 <= i < |routes| ==> routes[i].count == Wrapped(initials[i] + hits[i])
  }

  lemma FirstMatchIsOwner(routes: seq<Route>, texts: seq<Octets>, url: Octets)
    requires Compiled(routes, texts)
    ensures FirstMatch(routes, Split(url)) == Owner(texts, url)
  {
    forall i | 0 <= i < |texts|
      ensures Matches(routes[i].pattern, Split(url)) <==> InLanguage(texts[i], url)
    {
      MatchDecidesLanguage(texts[i], url);
    }
    assert MatchFlags(routes, Split(url)) == LanguageFlags(texts, url);
  }

  lemma {:induction false} SumOfCredit(hits: seq<nat>, owner: Option<nat>)
    requires owner.Some? ==> owner.value < |hits|
    ensures Sum(Credit(hits, owner)) == Sum(hits) + if owner.Some? then 1 else 0
  {
    var n := |hits| - 1;
    if owner.Some? {
      if owner.value < n {
        SumOfCredit(hits[..n], owner);
        assert Credit(hits, owner)[..n] == Credit(hits[..n], owner);
      } else {
        assert Credit(hits, owner)[..n] == hits[..n];
      }
    }
  }

  lemma AddKeepsCounted(routes: seq<Route>, initials: seq<uint64>, hits: seq<nat>, r: Route)
    requires Counted(routes, initials, hits)
    ensures Counted(routes + [r], initials + [r.count], hits + [0])
  {
  }

  predicate Accounted(h: History) {
    && Compiled(h.routes, h.texts)
    && Counted(h.routes, h.initials, h.hits)
    && Sum(h.hits) + h.misses == h.requests
  }

  lemma AddKeepsAccounts(h: History, text: Octets, initial: uint64)
    requires Accounted(h)
    ensures Accounted(Next(h, AddRoute(text, initial)))
  {
    AddKeepsCounted(h.routes, h.initials, h.hits, Route(Compile(text), initial));
    assert (h.hits + [0])[..|h.hits|] == h.hits;
  }

  /** The effect of a request, once its route is known. */
  function Bumped(routes: seq<Route>, owner: Option<nat>): seq<Route> {
    if owner.Some? && owner.value < |routes|
    then routes[owner.value := routes[owner.value].(count := AddWrapped(routes[owner.value].count, 1))]
    else routes
  }

  lemma BumpKeepsCompiled(routes: seq<Route>, texts: seq<Octets>, owner: Option<nat>)
    requires Compiled(routes, texts)
    ensures Compiled(Bumped(routes, owner), texts)
  {
  }

  lemma CreditKeepsCounted(routes: seq<Route>, initials: seq<uint64>, hits: seq<nat>, owner: Option<nat>)
    requires Counted(routes, initials, hits)
    ensures Counted(Bumped(routes, owner), initials, Credit(hits, owner))
  {
    if owner.Some? && owner.value < |routes| {
      WrappedAdd(initials[owner.value] + hits[owner.value], 1);
    }
  }

  lemma RequestKeepsAccounts(h: History, url: Octets)
    requires Accounted(h)
    ensures Accounted(Next(h, Request(url)))
  {
    var owner := Owner(h.texts, url);
    FirstMatchIsOwner(h.routes, h.texts, url);
    BumpKeepsCompiled(h.routes, h.texts, owner);
    CreditKeepsCounted(h.routes, h.initials, h.hits, owner);
    SumOfCredit(h.hits, owner);
    assert Dispatched(h.routes, Split(url)) == Bumped(h.routes, owner);
  }

  /**
   * Over any history each counter moved by the number of requests its route owned (modulo 2^64),
   * and no request is lost or counted twice.
   */
  lemma {:induction false} DispatchConserves(es: seq<ServerEvent>)
    ensures Accounted(Run(es))
  {
    if es != [] {
      DispatchConserves(es[..|es| - 1]);
      match es[|es| - 1]
      case AddRoute(text, initial) => AddKeepsAccounts(Run(es[..|es| - 1]), text, initial);
      case Request(url) => RequestKeepsAccounts(Run(es[..|es| - 1]), url);
    }
  }

  lemma {:induction false} TextsOnlyGrow(es: seq<ServerEvent>, more: seq<ServerEvent>)
    ensures Run(es).texts <= Run(es + more).texts
  {
    if more == [] {
      assert es + more == es;
    } else {
      TextsOnlyGrow(es, more[..|more| - 1]);
      assert (es + more)[..|es + more| - 1] == es + more[..|more| - 1];
    }
  }

  lemma OwnerOfLonger(texts: seq<Octets>, longer: seq<Octets>, url: Octets)
    requires texts <= longer && Owner(texts, url).Some?
    ensures Owner(longer, url) == Owner(texts, url)
  {
    FirstTrueOfLonger(LanguageFlags(texts, url), LanguageFlags(longer, url));
  }

  /** Once a URL has a route it keeps it, whatever is registered or requested later. */
  lemma RoutesAreStable(es: seq<ServerEvent>, more: seq<ServerEvent>, url: Octets)
    requires FirstMatch(Run(es).routes, Split(url)).Some?
    ensures FirstMatch(Run(es + more).routes, Split(url)) == FirstMatch(Run(es).routes, Split(url))
  {
    var (now, later) := (Run(es), Run(es + more));
    DispatchConserves(es);
    DispatchConserves(es + more);
    TextsOnlyGrow(es, more);
    FirstMatchIsOwner(now.routes, now.texts, url);
    FirstMatchIsOwner(later.routes, later.texts, url);
    OwnerOfLonger(now.texts, later.texts, url);
  }

  lemma ShadowedIsNoOwner(texts: seq<Octets>, i: nat, j: nat, url: Octets)
    requires i < j < |texts| && Contains(texts[i], texts[j])
    ensures Owner(texts, url) != Some(j)
  {
    var flags := LanguageFlags(texts, url);
    assert flags[j] ==> flags[i];
  }

  lemma NextKeepsDead(h: History, e: ServerEvent, i: nat, j: nat)
    requires Accounted(h) && i < j < |h.texts| && Contains(h.texts[i], h.texts[j]) && h.hits[j] == 0
    ensures j < |Next(h, e).hits| && Next(h, e).hits[j] == 0
  {
    if e.Request? {
      ShadowedIsNoOwner(h.texts, i, j, e.url);
    }
  }

  /** A route behind one that holds its whole language never counts a request. */
  lemma {:induction false} ShadowedRouteIsDead(es: seq<ServerEvent>, i: nat, j: nat)
    requires i < j < |Run(es).texts| && Contains(Run(es).texts[i], Run(es).texts[j])
    ensures Accounted(Run(es)) && Run(es).hits[j] == 0
  {
    var before := Run(es[..|es| - 1]);
    DispatchConserves(es[..|es| - 1]);
    DispatchConserves(es);
    if j < |before.texts| {
      ShadowedRouteIsDead(es[..|es| - 1], i, j);
      NextKeepsDead(before, es[|es| - 1], i, j);
    }
  }

  /** Matching a new pattern's text against an old one predicts a counter that will never move. */
  lemma QueryPredictsDeadRoute(es: seq<ServerEvent>, i: nat, j: nat)
    requires i < j < |Run(es).texts|
    requires Matches(Compile(Run(es).texts[i]), Split(Run(es).texts[j]))
    requires Compile(Run(es).texts[j]).catchAll ==> Compile(Run(es).texts[i]).catchAll
    ensures Accounted(Run(es)) && Run(es).routes[j].count == Run(es).initials[j]
  {
    ContainmentExact(Run(es).texts[i], Run(es).texts[j]);
    ShadowedRouteIsDead(es, i, j);
  }

  ghost function ContainingRoutes(texts: seq<Octets>, q: Octets): set<nat> {
    set i: nat | i < |texts| && Contains(texts[i], q)
  }

  /** Routes without a final "#" that match the text of a query ending in "#". */
  function AccidentalRoutes(texts: seq<Octets>, q: Octets): set<nat> {
    set i: nat | i < |texts| && Compile(q).catchAll && !Compile(texts[i]).catchAll && Matches(Compile(texts[i]), Split(q))
  }

  /** What get_no_of_requests adds up: the routes holding the query's language, and the accidental ones. */
  lemma QuerySumsContainingRoutes(es: seq<ServerEvent>, q: Octets)
    ensures var (routes, texts) := (Run(es).routes, Run(es).texts);
      SumOver(routes, MatchingRoutes(routes, Split(q)))
      == SumOver(routes, ContainingRoutes(texts, q)) + SumOver(routes, AccidentalRoutes(texts, q))
    ensures !Compile(q).catchAll ==> AccidentalRoutes(Run(es).texts, q) == {}
  {
    var routes, texts := Run(es).routes, Run(es).texts;
    DispatchConserves(es);
    forall i: nat | i < |texts|
      ensures i in ContainingRoutes(texts, q) <==>
        Matches(Compile(texts[i]), Split(q)) && (Compile(q).catchAll ==> Compile(texts[i]).catchAll)
    {
      ContainmentExact(texts[i], q);
    }
    SumOverUnion(routes, ContainingRoutes(texts, q), AccidentalRoutes(texts, q));
    SumOverCongruent(routes, MatchingRoutes(routes, Split(q)), ContainingRoutes(texts, q) + AccidentalRoutes(texts, q));
  }
}
