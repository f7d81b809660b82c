/** The configuration file's content and its validation. */
module Config {
  import opened Prelude

  datatype ServerConfig = ServerConfig(listen: string, maxIdleConnections: nat, timeoutMs: nat,
                                       httpChallengeListen: Option<string>)

  datatype RouteConfig = RouteConfig(pathPrefix: string, upstream: string, plugins: seq<string>)

  datatype TlsConfig = TlsConfig(acmeEmail: string, acmeDirectory: string, cacheDir: string, domains: seq<string>)

  datatype Config = Config(server: ServerConfig, routes: seq<RouteConfig>, tls: Option<TlsConfig>)

  datatype Problem =
    | InvalidListen
    | ChallengeListenRequired
    | DuplicatePrefix(route: nat)
    | PrefixWithoutSlash(route: nat)
    | InvalidUpstream(route: nat)

  predicate RepeatsEarlier(routes: seq<RouteConfig>, i: nat)
    requires i < |routes|
  {
    exists j :: 0 <= j < i && routes[j].pathPrefix == routes[i].pathPrefix
  }

  predicate StartsWithSlash(prefix: string) {
    prefix != [] && prefix[0] == '/'
  }

  predicate RouteOk(routes: seq<RouteConfig>, i: nat, isAddr: string -> bool)
    requires i < |routes|
  {
    !RepeatsEarlier(routes, i) && StartsWithSlash(routes[i].pathPrefix) && isAddr(routes[i].upstream)
  }

  predicate GlobalsOk(c: Config, isAddr: string -> bool) {
    isAddr(c.server.listen) && (c.tls.Some? ==> c.server.httpChallengeListen.Some?)
  }

  predicate Valid(c: Config, isAddr: string -> bool) {
    GlobalsOk(c, isAddr) && forall i :: 0 <= i < |c.routes| ==> RouteOk(c.routes, i, isAddr)
  }

  /** The globals are fine, and route `i` is the first that is not. */
  predicate FirstBadRoute(c: Config, isAddr: string -> bool, i: nat) {
    && GlobalsOk(c, isAddr)
    && i < |c.routes| && !RouteOk(c.routes, i, isAddr)
    && forall j :: 0 <= j < i ==> RouteOk(c.routes, j, isAddr)
  }

  /** What a valid configuration is, in plain terms. */
  lemma ValidIs(c: Config, isAddr: string -> bool)
    ensures Valid(c, isAddr) <==>
            && isAddr(c.server.listen) && (c.tls.Some? ==> c.server.httpChallengeListen.Some?)
            && forall i :: 0 <= i < |c.routes| ==>
                 && (forall j :: 0 <= j < i ==> c.routes[j].pathPrefix != c.routes[i].pathPrefix)
                 && c.routes[i].pathPrefix != [] && c.routes[i].pathPrefix[0] == '/' && isAddr(c.routes[i].upstream)
  {
    forall i | 0 <= i < |c.routes|
      ensures RouteOk(c.routes, i, isAddr) <==>
              && (forall j :: 0 <= j < i ==> c.routes[j].pathPrefix != c.routes[i].pathPrefix)
              && c.routes[i].pathPrefix != [] && c.routes[i].pathPrefix[0] == '/' && isAddr(c.routes[i].upstream)
    {
    }
  }

  /** And what makes route `i` the first bad one: those before it form a valid list, it does not extend it. */
  lemma FirstBadRouteIs(c: Config, isAddr: string -> bool, i: nat)
    requires i < |c.routes|
    ensures FirstBadRoute(c, isAddr, i) <==>
            && Valid(c.(routes := c.routes[..i]), isAddr)
            && !Valid(c.(routes := c.routes[..i + 1]), isAddr)
  {
    ExtendsIff(c, isAddr, i);
    ExtendsIff(c, isAddr, i + 1);
  }

  lemma ExtendsIff(c: Config, isAddr: string -> bool, n: nat)
    requires n <= |c.routes|
    ensures Valid(c.(routes := c.routes[..n]), isAddr) <==>
            GlobalsOk(c, isAddr) && forall k :: 0 <= k < n ==> RouteOk(c.routes, k, isAddr)
  {
    forall k | 0 <= k < n
      ensures RouteOk(c.routes[..n], k, isAddr) <==> RouteOk(c.routes, k, isAddr)
    {
    }
  }

  /** Accepts exactly the valid configurations; otherwise names the first problem in reading
      order, a duplicate before a missing slash before a bad upstream. `isAddr` says which strings
      parse as socket addresses. */
  method Validate(c: Config, isAddr: string -> bool) returns (problem: Option<Problem>)
    ensures problem.None? <==> Valid(c, isAddr)
    ensures match problem
            case None => true
            case Some(InvalidListen) => !isAddr(c.server.listen)
            case Some(ChallengeListenRequired) =>
              isAddr(c.server.listen) && c.tls.Some? && c.server.httpChallengeListen.None?
            case Some(DuplicatePrefix(i)) => FirstBadRoute(c, isAddr, i) && RepeatsEarlier(c.routes, i)
            case Some(PrefixWithoutSlash(i)) =>
              FirstBadRoute(c, isAddr, i) && !RepeatsEarlier(c.routes, i) && !StartsWithSlash(c.routes[i].pathPrefix)
            case Some(InvalidUpstream(i)) =>
              && FirstBadRoute(c, isAddr, i) && !RepeatsEarlier(c.routes, i)
              && StartsWithSlash(c.routes[i].pathPrefix) && !isAddr(c.routes[i].upstream)
  {
    if !isAddr(c.server.listen) {
      return Some(InvalidListen);
    }
    if c.tls.Some? && c.server.httpChallengeListen.None? {
      return Some(ChallengeListenRequired);
    }
    var seenPrefixes: set<string> := {};
    for i := 0 to |c.routes|
      invariant forall p :: p in seenPrefixes <==> exists j :: 0 <= j < i && c.routes[j].pathPrefix == p
      invariant forall j :: 0 <= j < i ==> RouteOk(c.routes, j, isAddr)
    {
      var route := c.routes[i];
      if route.pathPrefix in seenPrefixes {
        assert !RouteOk(c.routes, i, isAddr);
        return Some(DuplicatePrefix(i));
      }
      seenPrefixes := seenPrefixes + {route.pathPrefix};
      if route.pathPrefix == [] || route.pathPrefix[0] != '/' {
        assert !RouteOk(c.routes, i, isAddr);
        return Some(PrefixWithoutSlash(i));
      }
      if !isAddr(route.upstream) {
        assert !RouteOk(c.routes, i, isAddr);
        return Some(InvalidUpstream(i));
      }
    }
    return None;
  }
}
