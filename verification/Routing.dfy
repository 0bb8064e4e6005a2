/** Route configuration and the router (MyGateway/domain/route.go,
    MyGateway/service/route_matcher_generic.go). A string stands for a Go string, one character for
    each byte. */
module Routing {
  import opened Options
  import opened PrefixTable

  const AUTHORIZATION_NONE := "none"
  const AUTHORIZATION_REQUIRED := "required"
  const BALANCER_ROUND_ROBIN := "round_robin"
  const BALANCER_STICKY_SESSION := "sticky_sessions"
  const DEFAULT_ROUTE_ERROR := "error"
  const DEFAULT_ROUTE_USE_CLUSTER := "use_cluster"
  const STICKY_SESSION_HEADER := "session-id"

  datatype Balancer = Balancer(kind: string, header: string)

  datatype Route = Route(prefix: string, cluster: string, authorization: string, balancer: Balancer)

  datatype DefaultRoute = DefaultRoute(action: string, cluster: string)

  datatype RouteConfig = RouteConfig(routes: seq<Route>, def: DefaultRoute)

  /** The index is -1 for the default section. */
  datatype RouteConfigError = RouteConfigError(index: int, reason: string)

  function PrefixOf(r: Route): string {
    r.prefix
  }

  // ---------- white space ----------

  /** w is a white-space character of Unicode, in UTF-8. */
  predicate IsSpace(w: string) {
    if |w| == 1 then 9 <= w[0] as int <= 13 || w[0] == ' '
    else if |w| == 2 then w[0] as int == 0xC2 && w[1] as int in {0x85, 0xA0}
    else if |w| == 3 then
      var a, b, c := w[0] as int, w[1] as int, w[2] as int;
      || (a == 0xE1 && b == 0x9A && c == 0x80)
      || (a == 0xE2 && b == 0x80 && (0x80 <= c <= 0x8A || c in {0xA8, 0xA9, 0xAF}))
      || (a == 0xE2 && b == 0x81 && c == 0x9F)
      || (a == 0xE3 && b == 0x80 && c == 0x80)
    else false
  }

  /** The length of the white-space character a text begins with; 0 if it does not begin with one. */
  function Leading(s: string): (n: nat)
    ensures n <= |s| && (n > 0 ==> IsSpace(s[..n]))
  {
    if |s| >= 1 && IsSpace(s[..1]) then 1
    else if |s| >= 2 && IsSpace(s[..2]) then 2
    else if |s| >= 3 && IsSpace(s[..3]) then 3
    else 0
  }

  /** The same at the end. */
  function Trailing(s: string): (n: nat)
    ensures n <= |s| && (n > 0 ==> IsSpace(s[|s| - n..]))
  {
    if |s| >= 1 && IsSpace(s[|s| - 1..]) then 1
    else if |s| >= 2 && IsSpace(s[|s| - 2..]) then 2
    else if |s| >= 3 && IsSpace(s[|s| - 3..]) then 3
    else 0
  }

  /** White space and nothing else. */
  ghost predicate Blank(s: string)
    decreases |s|
  {
    s == "" || (Leading(s) > 0 && Blank(s[Leading(s)..]))
  }

  function TrimLeft(s: string): (r: string)
    ensures Leading(r) == 0 && |r| <= |s| && s[|s| - |r|..] == r
    decreases |s|
  {
    hide IsSpace;
    if Leading(s) > 0 then
      var rest := s[Leading(s)..];
      var r := TrimLeft(rest);
      assert s[|s| - |r|..] == rest[|rest| - |r|..];
      r
    else s
  }

  lemma {:induction false} LeftOfBlank(s: string)
    ensures TrimLeft(s) == "" <==> Blank(s)
    decreases |s|
  {
    hide IsSpace, Leading;
    if Leading(s) > 0 {
      LeftOfBlank(s[Leading(s)..]);
    }
  }

  lemma {:induction false} LeftIsBlank(s: string)
    ensures Blank(s[..|s| - |TrimLeft(s)|])
    decreases |s|
  {
    hide IsSpace, Leading, Blank;
    if Leading(s) > 0 {
      LeftIsBlank(s[Leading(s)..]);
      BlankCons(s, |s| - |TrimLeft(s)|);
    } else {
      NothingIsBlank(s[..0]);
    }
  }

  function TrimRight(s: string): (r: string)
    ensures Trailing(r) == 0 && r <= s
    decreases |s|
  {
    if Trailing(s) > 0 then TrimRight(s[..|s| - Trailing(s)]) else s
  }

  lemma {:induction false} RightIsBlank(s: string)
    ensures Blank(s[|TrimRight(s)|..])
    decreases |s|
  {
    hide IsSpace, Leading, Trailing, Blank;
    if Trailing(s) > 0 {
      var n := |s| - Trailing(s);
      RightIsBlank(s[..n]);
      BlankSnoc(s[..n][|TrimRight(s)|..], s[n..]);
      Slices(s, |TrimRight(s)|, n);
    } else {
      NothingIsBlank(s[|s|..]);
    }
  }

  lemma NothingIsBlank(s: string)
    requires s == ""
    ensures Blank(s)
  {
  }

  lemma Slices(s: string, i: nat, n: nat)
    requires i <= n <= |s|
    ensures s[i..] == s[..n][i..] + s[n..]
  {
  }

  /** r is s without some white space at either end, and the rest of s untouched. */
  ghost predicate CutFrom(s: string, r: string) {
    exists i, j :: 0 <= i <= j <= |s| && r == s[i..j] && Blank(s[..i]) && Blank(s[j..])
  }

  /** `strings.TrimSpace`: cuts off white space, of which none is left at either end, and nothing else. A
      blank string, and no other, becomes empty. */
  function TrimSpace(s: string): (r: string)
    ensures CutFrom(s, r) && Leading(r) == 0 && Trailing(r) == 0
    ensures r == "" <==> Blank(s)
  {
    TrimCuts(s);
    TrimEnds(s);
    TrimRight(TrimLeft(s))
  }

  lemma TrimCuts(s: string)
    ensures CutFrom(s, TrimRight(TrimLeft(s)))
  {
    hide *;
    LeftIsBlank(s);
    RightIsBlank(TrimLeft(s));
    BothCut(s, TrimLeft(s), TrimRight(TrimLeft(s)));
  }

  lemma TrimEnds(s: string)
    ensures var r := TrimRight(TrimLeft(s)); Leading(r) == 0 && (r == "" <==> Blank(s))
  {
    hide *;
    var left := TrimLeft(s);
    LeftOfBlank(s);
    LeadingOfPrefix(TrimRight(left), left);
    RightmostIsLeftmost(left);
  }

  lemma BothCut(s: string, left: string, r: string)
    requires |left| <= |s| && s[|s| - |left|..] == left && Blank(s[..|s| - |left|])
    requires r <= left && Blank(left[|r|..])
    ensures CutFrom(s, r)
  {
    var i := |s| - |left|;
    assert left[|r|..] == s[i + |r|..] && r == s[i..i + |r|];
  }

  /** White space, and then n - Leading(s) more characters of it. */
  lemma BlankCons(s: string, n: nat)
    requires 0 < Leading(s) <= n <= |s| && Blank(s[Leading(s)..][..n - Leading(s)])
    ensures Blank(s[..n])
  {
    LeadingStays(s[..Leading(s)], s[..n]);
    LeadingStays(s[..Leading(s)], s);
    LeadingWhole(s[..Leading(s)]);
    assert s[..n][Leading(s)..] == s[Leading(s)..][..n - Leading(s)];
  }

  /** No white-space character begins with another. */
  lemma LeadingWhole(w: string)
    requires IsSpace(w)
    ensures Leading(w) == |w|
  {
    if |w| > 1 {
      assert w[..1][0] == w[0];
    }
    if |w| > 2 {
      assert w[..2][0] == w[0];
    }
    assert w[..|w|] == w;
  }

  lemma LeadingStays(w: string, s: string)
    requires w <= s && Leading(w) > 0
    ensures Leading(s) == Leading(w)
  {
    forall n | 0 <= n <= |w| ensures w[..n] == s[..n] {}
  }

  lemma {:induction false} BlankSnoc(s: string, w: string)
    requires Blank(s) && IsSpace(w)
    ensures Blank(s + w)
    decreases |s|
  {
    if s == "" {
      LeadingWhole(w);
      SpaceIsBlank(w);
      assert s + w == w;
    } else {
      hide IsSpace, Leading;
      LeadingStays(s, s + w);
      BlankSnoc(s[Leading(s)..], w);
      assert (s + w)[Leading(s)..] == s[Leading(s)..] + w;
    }
  }

  lemma SpaceIsBlank(w: string)
    requires Leading(w) == |w| > 0
    ensures Blank(w)
  {
    hide IsSpace, Leading;
    assert w[|w|..] == "";
  }

  lemma LeadingOfPrefix(r: string, s: string)
    requires r <= s
    ensures Leading(r) > 0 ==> Leading(s) > 0
  {
    forall n | 0 <= n <= |r| ensures r[..n] == s[..n] {}
  }

  /** A text of which trimming at the end leaves nothing begins with white space. */
  lemma {:induction false} RightmostIsLeftmost(s: string)
    ensures TrimRight(s) == "" && s != "" ==> Leading(s) > 0
    decreases |s|
  {
    if Trailing(s) > 0 {
      var front := s[..|s| - Trailing(s)];
      RightmostIsLeftmost(front);
      LeadingOfPrefix(front, s);
      if front == "" {
        assert s[|s| - Trailing(s)..] == s[..Trailing(s)] == s;
      }
    }
  }

  /** A text of visible ASCII characters is not changed. */
  lemma VisibleIsKept(s: string)
    requires forall i :: 0 <= i < |s| ==> ' ' < s[i] < 0x80 as char
    ensures TrimSpace(s) == s
  {
    assert Leading(s) == 0 && Trailing(s) == 0;
  }

  // ---------- validation ----------

  predicate KnownAuthorization(mode: string) {
    mode == "" || mode == AUTHORIZATION_NONE || mode == AUTHORIZATION_REQUIRED
  }

  predicate KnownBalancer(kind: string) {
    kind == "" || kind == BALANCER_ROUND_ROBIN || kind == BALANCER_STICKY_SESSION
  }

  ghost predicate WellFormed(r: Route) {
    && "/" <= r.prefix
    && KnownAuthorization(r.authorization)
    && KnownBalancer(r.balancer.kind)
    && (r.balancer.kind == BALANCER_STICKY_SESSION ==> !Blank(r.balancer.header))
  }

  ghost predicate WellFormedDefault(d: DefaultRoute) {
    && d.action in {"", DEFAULT_ROUTE_ERROR, DEFAULT_ROUTE_USE_CLUSTER}
    && (d.action == DEFAULT_ROUTE_USE_CLUSTER ==> d.cluster != "")
  }

  ghost predicate ValidConfig(cfg: RouteConfig) {
    (forall i :: 0 <= i < |cfg.routes| ==> WellFormed(cfg.routes[i])) && WellFormedDefault(cfg.def)
  }

  /** The reason why a route is refused: the first of its fields that is at fault. */
  function RouteProblem(r: Route): (reason: Option<string>)
    ensures reason.None? <==> WellFormed(r)
    ensures reason.Some? ==>
              reason.value ==
              if r.prefix == "" then "prefix must be non-empty"
              else if !("/" <= r.prefix) then "prefix must start with /"
              else if !KnownAuthorization(r.authorization) then "authorization must be none|required"
              else if !KnownBalancer(r.balancer.kind) then "balancer.type must be round_robin|sticky_sessions"
              else "balancer.header is required for sticky_sessions"
  {
    if r.prefix == "" then Some("prefix must be non-empty")
    else if r.prefix[0] != '/' then Some("prefix must start with /")
    else if !KnownAuthorization(r.authorization) then
      Some("authorization must be none|required")
    else if !KnownBalancer(r.balancer.kind) then
      Some("balancer.type must be round_robin|sticky_sessions")
    else if r.balancer.kind == BALANCER_STICKY_SESSION && TrimSpace(r.balancer.header) == "" then
      Some("balancer.header is required for sticky_sessions")
    else None
  }

  /** `ValidateRouteConfig`: accepts exactly the well-formed configurations, and otherwise reports the
      first route that is not well-formed, or the default section. */
  method ValidateRouteConfig(cfg: RouteConfig) returns (err: Option<RouteConfigError>)
    ensures err.None? <==> ValidConfig(cfg)
    ensures err.Some? && err.value.index >= 0 ==>
              && err.value.index < |cfg.routes|
              && RouteProblem(cfg.routes[err.value.index]) == Some(err.value.reason)
              && forall i :: 0 <= i < err.value.index ==> WellFormed(cfg.routes[i])
    ensures err.Some? && err.value.index < 0 ==>
              && err.value.index == -1 && !WellFormedDefault(cfg.def)
              && err.value.reason == (if cfg.def.action == DEFAULT_ROUTE_USE_CLUSTER
                                      then "default.cluster is required when default.action=use_cluster"
                                      else "default.action must be error|use_cluster")
              && forall i :: 0 <= i < |cfg.routes| ==> WellFormed(cfg.routes[i])
  {
    for i := 0 to |cfg.routes|
      invariant forall j :: 0 <= j < i ==> WellFormed(cfg.routes[j])
    {
      var reason := RouteProblem(cfg.routes[i]);
      if reason.Some? {
        return Some(RouteConfigError(i, reason.value));
      }
    }
    if cfg.def.action == "" || cfg.def.action == DEFAULT_ROUTE_ERROR {
      return None;
    }
    if cfg.def.action == DEFAULT_ROUTE_USE_CLUSTER {
      if cfg.def.cluster == "" {
        return Some(RouteConfigError(-1, "default.cluster is required when default.action=use_cluster"));
      }
      return None;
    }
    return Some(RouteConfigError(-1, "default.action must be error|use_cluster"));
  }

  // ---------- the router ----------

  /** `withRouteDefaults`. */
  function WithRouteDefaults(route: Route): (r: Route)
    ensures r.prefix == route.prefix && r.cluster == route.cluster
    ensures r.authorization != "" && r.balancer.kind != ""
    ensures r.balancer.kind == BALANCER_STICKY_SESSION ==> r.balancer.header != ""
    ensures r.authorization == if route.authorization != "" then route.authorization else "none"
    ensures r.balancer.kind == if route.balancer.kind != "" then route.balancer.kind else "round_robin"
    ensures r.balancer.header ==
            if route.balancer.header == "" && route.balancer.kind == "sticky_sessions" then "session-id"
            else route.balancer.header
  {
    var authorization := if route.authorization == "" then AUTHORIZATION_NONE else route.authorization;
    var kind := if route.balancer.kind == "" then BALANCER_ROUND_ROBIN else route.balancer.kind;
    var header :=
      if kind == BALANCER_STICKY_SESSION && route.balancer.header == "" then STICKY_SESSION_HEADER
      else route.balancer.header;
    Route(route.prefix, route.cluster, authorization, Balancer(kind, header))
  }

  lemma DefaultsAreFinal(route: Route)
    ensures WithRouteDefaults(WithRouteDefaults(route)) == WithRouteDefaults(route)
  {
  }

  /** What a method is answered that no route's prefix fits. */
  function DefaultAnswer(def: DefaultRoute): (r: Option<Route>)
    ensures r == if def.action != "use_cluster" then None
                 else Some(Route("", def.cluster, "none", Balancer("round_robin", "")))
  {
    if def.action == DEFAULT_ROUTE_USE_CLUSTER then
      Some(WithRouteDefaults(Route("", def.cluster, "", Balancer("", ""))))
    else None
  }

  /** The answer of the first route in the list that fits. */
  function Lookup(routes: seq<Route>, def: DefaultRoute, fullMethod: string): Option<Route> {
    var hit := FirstHit(PrefixOf, routes, fullMethod);
    if hit.Some? then Some(WithRouteDefaults(hit.value)) else DefaultAnswer(def)
  }

  /** An answer has its defaults filled in: filling them in again changes nothing. */
  lemma AnswerHasDefaults(routes: seq<Route>, def: DefaultRoute, fullMethod: string)
    ensures var answer := Lookup(routes, def, fullMethod);
      answer.Some? ==> WithRouteDefaults(answer.value) == answer.value
  {
    var hit := FirstHit(PrefixOf, routes, fullMethod);
    if hit.Some? {
      DefaultsAreFinal(hit.value);
    } else {
      DefaultsAreFinal(Route("", def.cluster, "", Balancer("", "")));
    }
  }

  /** The configured routes whose prefix fits. */
  ghost predicate Fits(cfg: RouteConfig, fullMethod: string) {
    exists x :: x in cfg.routes && PrefixOf(x) <= fullMethod
  }

  /** Longest-prefix routing: the answer is a configured route whose prefix fits, with no longer one
      fitting, or the default answer exactly when none fits. */
  ghost predicate AnswersLongest(cfg: RouteConfig, fullMethod: string, answer: Option<Route>) {
    if Fits(cfg, fullMethod) then
      exists x :: Longest(PrefixOf, cfg.routes, fullMethod, x) && answer == Some(WithRouteDefaults(x))
    else answer == DefaultAnswer(cfg.def)
  }

  class RouteMatcher {
    const routes: seq<Route>
    const def: DefaultRoute
    ghost const config: RouteConfig
    ghost const sorter: Sorter

    /** The routes are those of the configuration, sorted by descending prefix length. */
    ghost predicate Valid() {
      ValidConfig(config) && Sorts(sorter) && routes == Sorted(PrefixOf, sorter, config.routes) && def == config.def
    }

    /** `NewRouteMatcherGeneric` after validation: copies and sorts. */
    constructor (cfg: RouteConfig, sorter: Sorter)
      requires ValidConfig(cfg) && Sorts(sorter)
      ensures Valid() && config == cfg && this.sorter == sorter
    {
      var a := new Route[|cfg.routes|](i requires 0 <= i < |cfg.routes| => cfg.routes[i]);
      assert a[..] == cfg.routes;
      SortByLength(PrefixOf, sorter, a);
      routes, def, config, this.sorter := a[..], cfg.def, cfg, sorter;
    }

    method Match(fullMethod: string) returns (answer: Option<Route>)
      requires Valid()
      ensures answer == Lookup(routes, def, fullMethod)
      ensures AnswersLongest(config, fullMethod, answer)
      ensures answer.Some? ==> WithRouteDefaults(answer.value) == answer.value
    {
      AnswerHasDefaults(routes, def, fullMethod);
      SortedArranges(PrefixOf, sorter, config.routes);
      LookupIsLongest(config, routes, fullMethod);
      for i := 0 to |routes|
        invariant FirstHit(PrefixOf, routes, fullMethod) == FirstHit(PrefixOf, routes[i..], fullMethod)
      {
        if routes[i].prefix <= fullMethod {
          return Some(WithRouteDefaults(routes[i]));
        }
        assert routes[i..][1..] == routes[i + 1..];
      }
      if def.action == DEFAULT_ROUTE_USE_CLUSTER {
        return Some(WithRouteDefaults(Route("", def.cluster, "", Balancer("", ""))));
      }
      return None;
    }
  }

  /** `NewRouteMatcherGeneric`: a router, or the error of the validation. */
  method NewRouteMatcherGeneric(cfg: RouteConfig, sorter: Sorter)
    returns (router: Option<RouteMatcher>, err: Option<RouteConfigError>)
    requires Sorts(sorter)
    ensures router.Some? <==> err.None?
    ensures router.Some? <==> ValidConfig(cfg)
    ensures router.Some? ==> router.value.Valid() && router.value.config == cfg && router.value.sorter == sorter
  {
    err := ValidateRouteConfig(cfg);
    if err.Some? {
      return None, err;
    }
    var r := new RouteMatcher(cfg, sorter);
    return Some(r), None;
  }

  lemma LookupIsLongest(cfg: RouteConfig, routes: seq<Route>, fullMethod: string)
    requires Arranged(PrefixOf, cfg.routes, routes)
    ensures AnswersLongest(cfg, fullMethod, Lookup(routes, cfg.def, fullMethod))
    ensures FirstHit(PrefixOf, routes, fullMethod).Some? <==> Fits(cfg, fullMethod)
  {
    FirstHitIsLongest(PrefixOf, cfg.routes, routes, fullMethod);
  }

  /** Two sorted orders route a method alike. */
  ghost predicate SameRoute(def: DefaultRoute, s: seq<Route>, t: seq<Route>, fullMethod: string) {
    Lookup(s, def, fullMethod) == Lookup(t, def, fullMethod)
  }

  /** What the documentation of the sort allows: any order among routes of equal length. Every such order
      routes every method alike, if and only if configured routes that share a prefix are the same once
      defaults are filled in; distinct prefixes are enough. Validation does not ask for that. */
  lemma RoutingIsDetermined(cfg: RouteConfig)
    ensures Unambiguous(PrefixOf, WithRouteDefaults, cfg.routes) <==>
            (forall s, t, m :: Arranged(PrefixOf, cfg.routes, s) && Arranged(PrefixOf, cfg.routes, t) ==>
              SameRoute(cfg.def, s, t, m))
    ensures (forall i, j :: 0 <= i < j < |cfg.routes| ==> cfg.routes[i].prefix != cfg.routes[j].prefix) ==>
              Unambiguous(PrefixOf, WithRouteDefaults, cfg.routes)
  {
    OrderIsIrrelevant(PrefixOf, WithRouteDefaults, cfg.routes);
    forall s, t, m | Arranged(PrefixOf, cfg.routes, s) && Arranged(PrefixOf, cfg.routes, t)
      ensures SameRoute(cfg.def, s, t, m) <==> SameAnswer(PrefixOf, WithRouteDefaults, s, t, m)
    {
      LookupIsLongest(cfg, s, m);
      LookupIsLongest(cfg, t, m);
    }
    if forall i, j :: 0 <= i < j < |cfg.routes| ==> cfg.routes[i].prefix != cfg.routes[j].prefix {
      DistinctIsUnambiguous(PrefixOf, WithRouteDefaults, cfg.routes);
    }
  }
}
