/**
 * Temporary routes: a table from random tokens to routes, edited under a mutex by registrations, by
 * removals and by the requests themselves. Each locked section is one event.
 */
module Routes {
  import opened Text

  datatype Route = Route(pluginId: string, expiresAt: int, verb: string, oneTime: bool)

  datatype Request = Request(pluginId: string, token: string, verb: string, now: int)

  datatype Event =
    | Registered(token: string, route: Route)
    | Removed(token: string)
    | Requested(request: Request)

  datatype Response =
    | NotFound
    | MethodNotAllowed(allow: string)
    | Handled(route: Route)

  function Respond(items: map<string, Route>, r: Request): Response {
    if r.token !in items || items[r.token].pluginId != r.pluginId || r.now >= items[r.token].expiresAt then NotFound
    else if r.verb != items[r.token].verb then MethodNotAllowed(items[r.token].verb)
    else Handled(items[r.token])
  }

  function After(items: map<string, Route>, e: Event): map<string, Route> {
    match e
    case Registered(token, route) => items[token := route]
    case Removed(token) => items - {token}
    case Requested(r) =>
      match Respond(items, r)
      case NotFound => items - {r.token}
      case MethodNotAllowed(_) => items
      case Handled(route) => if route.oneTime then items - {r.token} else items
  }

  function ItemsAt(es: seq<Event>, m: nat): map<string, Route>
    requires m <= |es|
  {
    if m == 0 then map[] else After(ItemsAt(es, m - 1), es[m - 1])
  }

  // ---------------------------------------------------------------- said without the table

  /** The request names the route's plugin in time. */
  predicate Finds(route: Route, r: Request) {
    r.pluginId == route.pluginId && r.now < route.expiresAt
  }

  /** The request is one that the route's handler answers. */
  predicate Fits(route: Route, r: Request) {
    Finds(route, r) && r.verb == route.verb
  }

  /** What makes a route of this token unavailable. */
  predicate Spends(route: Route, token: string, e: Event) {
    match e
    case Registered(t, _) => t == token
    case Removed(t) => t == token
    case Requested(r) => r.token == token && (!Finds(route, r) || (route.oneTime && Fits(route, r)))
  }

  /** The k-th event registered the route that the token still has after m events. */
  predicate Live(es: seq<Event>, m: int, token: string, k: int) {
    && 0 <= k < m <= |es| && es[k].Registered? && es[k].token == token
    && forall j :: k < j < m ==> !Spends(es[k].route, token, es[j])
  }

  /** The m-th event is a request that runs a handler. */
  predicate RunsAt(es: seq<Event>, m: int) {
    0 <= m < |es| && es[m].Requested? && Respond(ItemsAt(es, m), es[m].request).Handled?
  }

  lemma OneLive(es: seq<Event>, m: int, token: string, k: int, l: int)
    requires Live(es, m, token, k) && Live(es, m, token, l)
    ensures k == l
  {
    assert k < l ==> Spends(es[k].route, token, es[l]);
    assert l < k ==> Spends(es[l].route, token, es[k]);
  }

  lemma LiveStep(es: seq<Event>, m: nat, token: string, k: int)
    requires m < |es|
    ensures Live(es, m + 1, token, k) <==>
      (k == m && es[m].Registered? && es[m].token == token)
      || (Live(es, m, token, k) && !Spends(es[k].route, token, es[m]))
  {
  }

  /** The table holds exactly the live routes. */
  lemma {:induction false} TableIsLiveRoutes(es: seq<Event>, m: nat, token: string)
    requires m <= |es|
    ensures token in ItemsAt(es, m) <==> exists k :: Live(es, m, token, k)
    ensures forall k :: Live(es, m, token, k) ==> ItemsAt(es, m)[token] == es[k].route
  {
    if m > 0 {
      TableIsLiveRoutes(es, m - 1, token);
      forall k ensures Live(es, m, token, k) <==>
        (k == m - 1 && es[m - 1].Registered? && es[m - 1].token == token)
        || (Live(es, m - 1, token, k) && !Spends(es[k].route, token, es[m - 1]))
      {
        LiveStep(es, m - 1, token, k);
      }
      assert es[m - 1].Registered? && es[m - 1].token == token ==> Live(es, m, token, m - 1);
      hide Live;
    }
  }

  /**
   * A request runs the handler exactly when its token was registered for that plugin and method, the
   * moment is before expiry, and nothing has spent the route in between.
   */
  lemma HandlerRunsExactlyWhen(es: seq<Event>, m: nat)
    requires m < |es| && es[m].Requested?
    ensures RunsAt(es, m) <==>
      exists k :: Live(es, m, es[m].request.token, k) && Fits(es[k].route, es[m].request)
  {
    TableIsLiveRoutes(es, m, es[m].request.token);
    hide Live;
  }

  /** A one-time route runs its handler at most once. */
  lemma OneTimeRunsOnce(es: seq<Event>, a: nat, b: nat, k: nat)
    requires a < |es| && b < |es| && RunsAt(es, a) && RunsAt(es, b)
    requires es[a].request.token == es[b].request.token
    requires Live(es, a, es[a].request.token, k) && Live(es, b, es[b].request.token, k) && es[k].route.oneTime
    ensures a == b
  {
    var token := es[a].request.token;
    HandlerRunsExactlyWhen(es, a);
    HandlerRunsExactlyWhen(es, b);
    forall l | Live(es, a, token, l) ensures l == k { OneLive(es, a, token, k, l); }
    forall l | Live(es, b, token, l) ensures l == k { OneLive(es, b, token, k, l); }
    assert Spends(es[k].route, token, es[a]) && Spends(es[k].route, token, es[b]);
  }

  /** A request with the wrong method changes nothing, whatever came before: every later answer is as without it. */
  lemma WrongMethodNeverConsumes(es: seq<Event>, m: nat, token: string, k: int)
    requires m < |es| && es[m].Requested? && Respond(ItemsAt(es, m), es[m].request).MethodNotAllowed?
    ensures ItemsAt(es, m + 1) == ItemsAt(es, m)
    ensures Live(es, m + 1, token, k) <==> Live(es, m, token, k)
  {
    LiveStep(es, m, token, k);
    TableIsLiveRoutes(es, m, es[m].request.token);
    if Live(es, m, token, k) && es[m].request.token == token {
      assert Respond(ItemsAt(es, m), es[m].request) == MethodNotAllowed(es[k].route.verb);
    }
  }

  // ---------------------------------------------------------------- the table

  datatype RouteOptions = RouteOptions(ttl: int, verb: string, oneTime: bool)

  datatype Registration =
    | Path(path: string, token: string)
    | NotBound
    | NoTTL
    | NoHandler

  predicate IsPluginId(s: string) {
    s != "" && forall k :: 0 <= k < |s| ==>
      ('A' <= s[k] <= 'Z' || 'a' <= s[k] <= 'z' || '0' <= s[k] <= '9' || s[k] == '_' || s[k] == '-')
  }

  /** Digits, letters, the hyphen and the underscore of ASCII; so an id is one segment of a path. */
  lemma PluginIdCharacters(s: string)
    ensures IsPluginId(s) <==> s != "" && forall c :: c in s ==>
      var n := c as int; 48 <= n <= 57 || 65 <= n <= 90 || 97 <= n <= 122 || n == 45 || n == 95
    ensures IsPluginId(s) ==> '/' !in s
  {
    if s != "" && !IsPluginId(s) {
      var k :| 0 <= k < |s| && !('A' <= s[k] <= 'Z' || 'a' <= s[k] <= 'z' || '0' <= s[k] <= '9' || s[k] == '_' || s[k] == '-');
      assert s[k] in s;
    }
  }

  function Upper(c: char): char {
    if 'a' <= c <= 'z' then 'A' + (c - 'a') else c
  }

  function ToUpper(s: string): string {
    seq(|s|, i requires 0 <= i < |s| => Upper(s[i]))
  }

  function MethodOf(raw: string): string {
    if TrimSpace(raw) == "" then "GET" else ToUpper(TrimSpace(raw))
  }

  /** One character is the other, up to the case of an ASCII letter. */
  predicate SameLetter(c: char, d: char) {
    || c == d
    || ('a' <= c <= 'z' && 'A' <= d <= 'Z' && c as int == d as int + 32)
    || ('A' <= c <= 'Z' && 'a' <= d <= 'z' && d as int == c as int + 32)
  }

  predicate SameSpelling(a: string, b: string) {
    |a| == |b| && forall i :: 0 <= i < |a| ==> SameLetter(a[i], b[i])
  }

  lemma LettersAreNoSpace(c: char, d: char)
    requires SameLetter(c, d)
    ensures IsSpace(c) <==> IsSpace(d)
    ensures Upper(c) == Upper(d) && !('a' <= Upper(c) <= 'z')
    ensures !('a' <= c <= 'z') ==> Upper(c) == c
  {
  }

  lemma {:induction false} TrimLeftSame(a: string, b: string)
    requires SameSpelling(a, b)
    ensures SameSpelling(TrimLeft(a), TrimLeft(b))
  {
    hide IsSpace, SameLetter;
    if a != "" {
      LettersAreNoSpace(a[0], b[0]);
      if IsSpace(a[0]) {
        TrimLeftSame(a[1..], b[1..]);
      }
    }
  }

  lemma {:induction false} TrimRightSame(a: string, b: string)
    requires SameSpelling(a, b)
    ensures SameSpelling(TrimRight(a), TrimRight(b))
  {
    hide IsSpace, SameLetter;
    if a != "" {
      LettersAreNoSpace(a[|a| - 1], b[|b| - 1]);
      if IsSpace(a[|a| - 1]) {
        TrimRightSame(a[..|a| - 1], b[..|b| - 1]);
      }
    }
  }

  /** Every spelling of a method in letter case is stored as the same one. */
  lemma MethodIgnoresCase(a: string, b: string)
    requires SameSpelling(a, b)
    ensures MethodOf(a) == MethodOf(b)
  {
    TrimLeftSame(a, b);
    TrimRightSame(TrimLeft(a), TrimLeft(b));
    var s, t := TrimSpace(a), TrimSpace(b);
    assert SameSpelling(s, t);
    forall i | 0 <= i < |s| ensures Upper(s[i]) == Upper(t[i]) {
      LettersAreNoSpace(s[i], t[i]);
    }
    hide TrimSpace, Upper, SameLetter;
    assert ToUpper(s) == ToUpper(t);
  }

  /** The stored method has no lower-case letter; one without lower-case letters is stored as it is, without the space around it, and a blank one as GET. */
  lemma MethodIsUpper(raw: string)
    ensures forall i :: 0 <= i < |MethodOf(raw)| ==> !('a' <= MethodOf(raw)[i] <= 'z')
    ensures TrimSpace(raw) == "" ==> MethodOf(raw) == "GET"
    ensures TrimSpace(raw) != "" && (forall i :: 0 <= i < |TrimSpace(raw)| ==> !('a' <= TrimSpace(raw)[i] <= 'z')) ==>
      MethodOf(raw) == TrimSpace(raw)
  {
    hide TrimSpace;
  }

  /** A request is answered 404 without a live route of its plugin in time, 405 with the route's method if only the method differs, and by the handler otherwise. */
  lemma AnswerExactlyWhen(es: seq<Event>, m: nat)
    requires m < |es| && es[m].Requested?
    ensures var r, answer := es[m].request, Respond(ItemsAt(es, m), es[m].request);
      && (answer.NotFound? <==> forall k :: Live(es, m, r.token, k) ==> es[k].route.pluginId != r.pluginId || es[k].route.expiresAt <= r.now)
      && (forall k :: Live(es, m, r.token, k) && es[k].route.pluginId == r.pluginId && r.now < es[k].route.expiresAt ==>
            answer == if r.verb == es[k].route.verb then Handled(es[k].route) else MethodNotAllowed(es[k].route.verb))
  {
    TableIsLiveRoutes(es, m, es[m].request.token);
    hide Live, ItemsAt;
  }

  class TemporaryRoutes {
    var items: map<string, Route>
    ghost var history: seq<Event>

    ghost predicate Valid()
      reads this
    {
      items == ItemsAt(history, |history|)
    }

    constructor ()
      ensures Valid() && history == []
    {
      items, history := map[], [];
    }

    lemma Appended(h: seq<Event>, e: Event, m: nat)
      requires m <= |h|
      ensures ItemsAt(h + [e], m) == ItemsAt(h, m)
    {
    }

    /** The token is drawn at random, and `now` is the moment at which the table is locked. */
    method RegisterTemporaryRoute(pluginId: string, options: RouteOptions, hasHandler: bool, token: string, now: int)
      returns (r: Registration)
      requires Valid()
      modifies this
      ensures Valid()
      ensures r == (if !IsPluginId(pluginId) then NotBound else if options.ttl <= 0 then NoTTL
        else if !hasHandler then NoHandler else Path("/_plugin/" + pluginId + "/" + token, token))
      ensures history == old(history) + if !r.Path? then [] else
        [Registered(token, Route(pluginId, now + options.ttl, MethodOf(options.verb), options.oneTime))]
    {
      if !IsPluginId(pluginId) {
        return NotBound;
      }
      if options.ttl <= 0 {
        return NoTTL;
      }
      if !hasHandler {
        return NoHandler;
      }
      var m := ToUpper(TrimSpace(options.verb));
      if m == "" {
        m := "GET";
      }
      var route := Route(pluginId, now + options.ttl, m, options.oneTime);
      items := items[token := route];
      Appended(history, Registered(token, route), |history|);
      history := history + [Registered(token, route)];
      return Path("/_plugin" + "/" + pluginId + "/" + token, token);
    }

    /** The function handed back with the path. */
    method Remove(token: string)
      requires Valid()
      modifies this
      ensures Valid() && history == old(history) + [Removed(token)]
    {
      items := items - {token};
      Appended(history, Removed(token), |history|);
      history := history + [Removed(token)];
    }

    method ServeTemporaryRoute(r: Request) returns (answer: Response)
      requires Valid()
      modifies this
      ensures Valid() && history == old(history) + [Requested(r)]
      ensures answer == Respond(ItemsAt(old(history), |old(history)|), r)
      ensures answer.Handled? <==> RunsAt(history, |old(history)|)
    {
      Appended(history, Requested(r), |history|);
      history := history + [Requested(r)];
      if r.token !in items || items[r.token].pluginId != r.pluginId || !(r.now < items[r.token].expiresAt) {
        items := items - {r.token};
        return NotFound;
      }
      var route := items[r.token];
      if r.verb != route.verb {
        return MethodNotAllowed(route.verb);
      }
      if route.oneTime {
        items := items - {r.token};
      }
      return Handled(route);
    }
  }
}
