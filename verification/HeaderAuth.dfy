/** Metadata and the authorization of an RPC (MyGateway/helpers/headers.go,
    MyGateway/helpers/configurable_auth_processor.go), and its agreement with the router. */
module HeaderAuth {
  import opened Options
  import opened GatewayErrors
  import opened PrefixTable
  import opened Routing

  /** Metadata has lower-case keys. */
  type Metadata = map<string, seq<string>>

  const HEADER_SESSION_ID := "session-id"
  const HEADER_AUTHORIZATION := "authorization"
  const MISSING_SESSION := Status(Unauthenticated, "missing session-id")
  const BAD_TOKEN := Status(Unauthenticated, "missing or invalid token")

  function LowerChar(c: char): char {
    if 'A' <= c <= 'Z' then c - 'A' + 'a' else c
  }

  /** Letter by letter, 'A' to 'Z' become 'a' to 'z'. */
  function ToLower(s: string): (r: string)
    ensures |r| == |s|
    ensures forall i :: 0 <= i < |s| ==>
              r[i] as int == s[i] as int + if 65 <= s[i] as int <= 90 then 32 else 0
  {
    seq(|s|, i requires 0 <= i < |s| => LowerChar(s[i]))
  }

  /** v is the first value of a header of that name, in whatever case the name is given, and not empty. */
  ghost predicate HasHeader(md: Metadata, key: string, v: string) {
    var k := ToLower(key);
    k in md && md[k] != [] && md[k][0] == v != ""
  }

  /** `GetHeaderValue`: the first value of a header, unless it is empty. */
  function GetHeaderValue(md: Metadata, key: string): (r: Option<string>)
    ensures forall v :: r == Some(v) <==> HasHeader(md, key, v)
  {
    var k := ToLower(key);
    if k in md && md[k] != [] && md[k][0] != "" then Some(md[k][0]) else None
  }

  function GetSessionID(md: Metadata): Option<string> {
    GetHeaderValue(md, HEADER_SESSION_ID)
  }

  /** `GetAuthToken`: the token is the header's first value but for the white space at its ends; it is
      missing exactly if the header is, or has no value, or a blank one first. */
  function GetAuthToken(md: Metadata): (r: Option<string>)
    ensures r.None? <==> HEADER_AUTHORIZATION !in md || md[HEADER_AUTHORIZATION] == []
                         || Blank(md[HEADER_AUTHORIZATION][0])
    ensures r.Some? ==>
              && CutFrom(md[HEADER_AUTHORIZATION][0], r.value)
              && r.value != "" && Leading(r.value) == 0 && Trailing(r.value) == 0
  {
    assert ToLower(HEADER_AUTHORIZATION) == HEADER_AUTHORIZATION;
    var v := GetHeaderValue(md, HEADER_AUTHORIZATION);
    if v.None? then None
    else
      var token := TrimSpace(v.value);
      if token == "" then None else Some(token)
  }

  // ---------- the rules ----------

  datatype AuthRule = AuthRule(prefix: string, authorization: string)

  function RulePrefix(r: AuthRule): string {
    r.prefix
  }

  /** An empty mode means none. */
  function EffectiveAuthorization(route: Route): string {
    if route.authorization == "" then AUTHORIZATION_NONE else route.authorization
  }

  function RuleOf(route: Route): AuthRule {
    AuthRule(route.prefix, EffectiveAuthorization(route))
  }

  function Rules(routes: seq<Route>): seq<AuthRule> {
    seq(|routes|, i requires 0 <= i < |routes| => RuleOf(routes[i]))
  }

  /** The mode of the first rule that fits; none without one. */
  function ModeFor(rules: seq<AuthRule>, fullMethod: string): string {
    var hit := FirstHit(RulePrefix, rules, fullMethod);
    if hit.Some? then hit.value.authorization else AUTHORIZATION_NONE
  }

  /** `JwtService.ValidateToken`: (session, token) to whether the token is valid, or an error. */
  type JwtService = (string, string) -> Outcome<bool>

  /** The request carries a session and a token valid for it. */
  predicate Authenticated(jwt: JwtService, md: Metadata) {
    && GetSessionID(md).Some? && GetAuthToken(md).Some?
    && jwt(GetSessionID(md).value, GetAuthToken(md).value) == Ok(true)
  }

  /** What is wrong with a request that is not authenticated: no session, no token, a token that is not
      valid for the session, or a failure to tell. */
  ghost predicate RefusedWith(jwt: JwtService, md: Metadata, err: Error) {
    match (GetSessionID(md), GetAuthToken(md))
    case (None, _) => err == Status(Unauthenticated, "missing session-id")
    case (_, None) => err == Status(Unauthenticated, "missing or invalid token")
    case (Some(session), Some(token)) =>
      match jwt(session, token)
      case Ok(valid) => !valid && err == Status(Unauthenticated, "missing or invalid token")
      case Err(cause) => err == Status(Internal, Text(cause))
  }

  class ConfigurableAuthProcessor {
    const jwtService: JwtService
    const rules: seq<AuthRule>
    ghost const routes: seq<Route>
    ghost const sorter: Sorter

    /** The rules are those of the routes, sorted by descending prefix length. */
    ghost predicate Valid() {
      Sorts(sorter) && rules == Sorted(RulePrefix, sorter, Rules(routes))
    }

    /** `NewConfigurableAuthProcessor`. */
    constructor (jwt: JwtService, routes: seq<Route>, sorter: Sorter)
      requires Sorts(sorter)
      ensures Valid() && this.routes == routes && jwtService == jwt && this.sorter == sorter
    {
      var rules := [];
      for i := 0 to |routes|
        invariant rules == Rules(routes[..i])
      {
        var mode := routes[i].authorization;
        if mode == "" {
          mode := AUTHORIZATION_NONE;
        }
        rules := rules + [AuthRule(routes[i].prefix, mode)];
      }
      assert routes[..|routes|] == routes;
      var a := new AuthRule[|rules|](i requires 0 <= i < |rules| => rules[i]);
      assert a[..] == rules;
      SortByLength(RulePrefix, sorter, a);
      this.rules, this.routes, jwtService, this.sorter := a[..], routes, jwt, sorter;
    }

    /** `Process`: passes the headers on unchanged exactly when the method does not require
        authorization or the request is authenticated; the error says what is wrong with it. */
    method Process(md: Metadata, fullMethod: string) returns (r: Outcome<Metadata>)
      requires Valid()
      ensures r.Ok? <==> ModeFor(rules, fullMethod) != AUTHORIZATION_REQUIRED || Authenticated(jwtService, md)
      ensures r.Ok? ==> r.value == md
      ensures r.Err? ==> RefusedWith(jwtService, md, r.err)
    {
      var mode := AUTHORIZATION_NONE;
      for i := 0 to |rules|
        invariant mode == AUTHORIZATION_NONE
        invariant FirstHit(RulePrefix, rules, fullMethod) == FirstHit(RulePrefix, rules[i..], fullMethod)
      {
        if rules[i].prefix <= fullMethod {
          mode := rules[i].authorization;
          break;
        }
        assert rules[i..][1..] == rules[i + 1..];
      }
      assert mode == ModeFor(rules, fullMethod);
      if mode != AUTHORIZATION_REQUIRED {
        return Ok(md);
      }
      var session := GetSessionID(md);
      if session.None? {
        return Err(MISSING_SESSION);
      }
      var token := GetAuthToken(md);
      if token.None? {
        return Err(BAD_TOKEN);
      }
      var verdict := jwtService(session.value, token.value);
      if verdict.Err? {
        return Err(Status(Internal, Text(verdict.err)));
      }
      if !verdict.value {
        return Err(BAD_TOKEN);
      }
      return Ok(md);
    }
  }

  // ---------- agreement with the router ----------

  /** For a method that is routed, the mode enforced is that of the route. */
  ghost predicate EnforcedAsRouted(def: DefaultRoute, routes: seq<Route>, rules: seq<AuthRule>, fullMethod: string) {
    Lookup(routes, def, fullMethod).Some? ==>
      Lookup(routes, def, fullMethod).value.authorization == ModeFor(rules, fullMethod)
  }

  lemma RulesMembers(routes: seq<Route>)
    ensures forall r :: r in routes ==> RuleOf(r) in Rules(routes)
    ensures forall x :: x in Rules(routes) ==> exists r :: r in routes && RuleOf(r) == x
  {
    forall r | r in routes ensures RuleOf(r) in Rules(routes) {
      var i :| 0 <= i < |routes| && routes[i] == r;
      assert Rules(routes)[i] == RuleOf(r);
    }
    forall x | x in Rules(routes) ensures exists r :: r in routes && RuleOf(r) == x {
      var i :| 0 <= i < |routes| && Rules(routes)[i] == x;
      assert routes[i] in routes && RuleOf(routes[i]) == x;
    }
  }

  /** The longest rule that fits comes from a longest route that fits. */
  lemma RuleBehindMode(routes: seq<Route>, rules: seq<AuthRule>, fullMethod: string)
    requires Arranged(RulePrefix, Rules(routes), rules)
    ensures match FirstHit(RulePrefix, rules, fullMethod)
            case None => forall r :: r in routes ==> !(PrefixOf(r) <= fullMethod)
            case Some(x) => exists r :: Longest(PrefixOf, routes, fullMethod, r) && RuleOf(r) == x
  {
    FirstHitIsLongest(RulePrefix, Rules(routes), rules, fullMethod);
    RulesMembers(routes);
    var hit := FirstHit(RulePrefix, rules, fullMethod);
    if hit.None? {
      forall r | r in routes ensures !(PrefixOf(r) <= fullMethod) {
        assert RulePrefix(RuleOf(r)) == PrefixOf(r);
      }
    } else {
      var r :| r in routes && RuleOf(r) == hit.value;
      forall y | y in routes && PrefixOf(y) <= fullMethod ensures |PrefixOf(y)| <= |PrefixOf(r)| {
        assert RulePrefix(RuleOf(y)) == PrefixOf(y);
      }
      assert Longest(PrefixOf, routes, fullMethod, r);
    }
  }

  /** Rules have the lengths of their routes, so that the sort orders both alike. */
  lemma RulesSortAlike(sorter: Sorter, routes: seq<Route>)
    requires Sorts(sorter)
    ensures Sorted(RulePrefix, sorter, Rules(routes)) == Rules(Sorted(PrefixOf, sorter, routes))
  {
    assert Lengths(RulePrefix, Rules(routes)) == Lengths(PrefixOf, routes);
    assert IsOrder(Lengths(PrefixOf, routes), sorter(Lengths(PrefixOf, routes)));
  }

  /** In one order, the first rule that fits is that of the first route that fits. */
  lemma {:induction false} SameHit(routes: seq<Route>, fullMethod: string)
    ensures var hit := FirstHit(PrefixOf, routes, fullMethod);
      FirstHit(RulePrefix, Rules(routes), fullMethod) == if hit.Some? then Some(RuleOf(hit.value)) else None
    decreases routes
  {
    if routes != [] {
      assert Rules(routes)[1..] == Rules(routes[1..]);
      SameHit(routes[1..], fullMethod);
    }
  }

  /** Router and authorization agree: for every configuration, also one in which routes share a prefix,
      and every method that is routed, the mode that is enforced is the authorization of the very route
      taken, the default route and the empty mode included. */
  lemma RouterAndAuthAgree(cfg: RouteConfig, sorter: Sorter, fullMethod: string)
    requires Sorts(sorter)
    ensures EnforcedAsRouted(cfg.def, Sorted(PrefixOf, sorter, cfg.routes),
                             Sorted(RulePrefix, sorter, Rules(cfg.routes)), fullMethod)
  {
    RulesSortAlike(sorter, cfg.routes);
    SameHit(Sorted(PrefixOf, sorter, cfg.routes), fullMethod);
  }

  /** What the documentation of the sort allows: two orders that have nothing to do with each other. Then
      router and authorization agree on every method if and only if no two configured routes share a
      prefix and differ in effective authorization; distinct prefixes are enough. */
  lemma AgreeInAnyOrders(cfg: RouteConfig)
    ensures Unambiguous(PrefixOf, EffectiveAuthorization, cfg.routes) <==>
            (forall routes, rules, m ::
              Arranged(PrefixOf, cfg.routes, routes) && Arranged(RulePrefix, Rules(cfg.routes), rules) ==>
                EnforcedAsRouted(cfg.def, routes, rules, m))
    ensures (forall i, j :: 0 <= i < j < |cfg.routes| ==> cfg.routes[i].prefix != cfg.routes[j].prefix) ==>
              Unambiguous(PrefixOf, EffectiveAuthorization, cfg.routes)
  {
    if Unambiguous(PrefixOf, EffectiveAuthorization, cfg.routes) {
      forall routes, rules, m
        | Arranged(PrefixOf, cfg.routes, routes) && Arranged(RulePrefix, Rules(cfg.routes), rules)
        ensures EnforcedAsRouted(cfg.def, routes, rules, m)
      {
        SameAuthorization(cfg, routes, rules, m);
      }
    } else {
      TheyMayDisagree(cfg);
    }
    if forall i, j :: 0 <= i < j < |cfg.routes| ==> cfg.routes[i].prefix != cfg.routes[j].prefix {
      DistinctIsUnambiguous(PrefixOf, EffectiveAuthorization, cfg.routes);
    }
  }

  lemma SameAuthorization(cfg: RouteConfig, routes: seq<Route>, rules: seq<AuthRule>, m: string)
    requires Unambiguous(PrefixOf, EffectiveAuthorization, cfg.routes)
    requires Arranged(PrefixOf, cfg.routes, routes) && Arranged(RulePrefix, Rules(cfg.routes), rules)
    ensures EnforcedAsRouted(cfg.def, routes, rules, m)
  {
    FirstHitIsLongest(PrefixOf, cfg.routes, routes, m);
    RuleBehindMode(cfg.routes, rules, m);
    var hit := FirstHit(PrefixOf, routes, m);
    if hit.Some? {
      var r :| Longest(PrefixOf, cfg.routes, m, r) && RuleOf(r) == FirstHit(RulePrefix, rules, m).value;
      LongestAgree(PrefixOf, cfg.routes, m, hit.value, r);
      assert EffectiveAuthorization(hit.value) == EffectiveAuthorization(r);
    }
  }

  lemma TheyMayDisagree(cfg: RouteConfig)
    requires !Unambiguous(PrefixOf, EffectiveAuthorization, cfg.routes)
    ensures exists routes, rules, m ::
              Arranged(PrefixOf, cfg.routes, routes) && Arranged(RulePrefix, Rules(cfg.routes), rules)
              && !EnforcedAsRouted(cfg.def, routes, rules, m)
  {
    var x, y :| x in cfg.routes && y in cfg.routes && PrefixOf(x) == PrefixOf(y)
                && EffectiveAuthorization(x) != EffectiveAuthorization(y);
    RulesMembers(cfg.routes);
    var routes := AnyMayBeHit(PrefixOf, cfg.routes, x);
    var rules := AnyMayBeHit(RulePrefix, Rules(cfg.routes), RuleOf(y));
    assert !EnforcedAsRouted(cfg.def, routes, rules, x.prefix);
  }
}
