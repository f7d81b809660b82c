/** What happens to one request, from the path to the response and the counters. */
module Handler {
  import opened Prelude
  import opened Config
  import opened Routing
  import opened Wasm
  import opened Plugin
  import opened State
  import opened Metrics
  import Pool
  import ForwardProtocol
  import Proxy

  datatype Request = Request(httpMethod: string, path: string)

  /** `timed` says whether the response carries x-response-time. */
  datatype Response = Response(status: nat, timed: bool)

  /** What a call of `Proxy.Forward` comes back with, and the status the upstream answered if it did. */
  datatype Forwarded = Forwarded(outcome: ForwardProtocol.Outcome, status: nat)

  function ErrorOf(f: ForwardProtocol.Failure): ProxyError {
    match f
    case BodyRead => Hyper
    case CannotConnect(error) => if error.UpstreamConnect? then ProxyError.UpstreamConnect else ProxyError.Hyper
    case Send => Hyper
    case ResponseRead => Hyper
    case Timeout => TimedOut
  }

  /** A failed call shows as 504 exactly when it timed out, as 502 exactly when the upstream refused
      the connection, and as 500 otherwise. */
  lemma FailureStatus(f: ForwardProtocol.Failure)
    ensures var status := ErrorStatus(ErrorOf(f));
            && (status == 504 <==> f == ForwardProtocol.Timeout)
            && (status == 502 <==> f == ForwardProtocol.CannotConnect(Pool.PoolError.UpstreamConnect))
            && (status == 504 || status == 502 || status == 500)
  {
  }

  function EndingOf(forwarded: Forwarded): Ending {
    match forwarded.outcome
    case Responded => Answered(forwarded.status)
    case Failed(failure) => Errored(ErrorOf(failure))
  }

  /** How a request ends that reaches its upstream, by the call that `Proxy.Forward` makes: as timed out
      exactly when the timer leaves the call too few awaits; else as answered exactly when the network
      gives an answer and its body, as refused exactly when a connection it needs is, and as an internal
      error otherwise. */
  lemma EndingOfCall(c: Proxy.Setting, hasIdle: bool, status: nat)
    ensures var needed := Proxy.AwaitsNeeded(c.net, hasIdle);
            var outcome := Proxy.UnderTimer(c, needed, Proxy.Unhurried(c.net, hasIdle));
            var ending := EndingOf(Forwarded(outcome, status));
            && (ending == Errored(TimedOut) <==> c.patience < needed)
            && (ending == Answered(status) <==>
                && c.patience >= needed && c.net.bodyOk && (hasIdle || c.net.first.Opened?)
                && (c.net.firstSend || (c.net.second.Opened? && c.net.secondSend)) && c.net.responseOk)
            && (ending == Errored(ProxyError.UpstreamConnect) <==>
                && c.patience >= needed && c.net.bodyOk
                && ((!hasIdle && c.net.first.Refused?)
                    || ((hasIdle || c.net.first.Opened?) && !c.net.firstSend && c.net.second.Refused?)))
            && (ending.Errored? ==> ErrorStatus(ending.error) in {504, 502, 500})
  {
  }

  function RouteConfigs(routes: seq<RouteState>): seq<RouteConfig> {
    seq(|routes|, i requires 0 <= i < |routes| => routes[i].route)
  }

  /** How the request must end at route `i`: health first, then the plugins, then the upstream. */
  function EndingAt(healthy: bool, verdict: Verdict, forwarded: Forwarded): Ending {
    if !healthy then Errored(UpstreamUnhealthy)
    else
      match verdict
      case Fail(_) => Errored(PluginFailed)
      case Block => BlockedByPlugin
      case Pass => EndingOf(forwarded)
  }

  /** How a request must be served at its route: an unhealthy upstream is an error; else the first plugin that
      does not pass the bytes of method and path decides; and only if all pass is the upstream contacted, and
      decides. */
  ghost predicate ServedAs(healthy: bool, plugins: seq<Plugin>, httpMethod: seq<byte>, path: seq<byte>,
                           forwarded: Forwarded, ending: Ending, contacts: bool)
  {
    var verdict := Chain(Verdicts(plugins, httpMethod, path));
    ending == EndingAt(healthy, verdict, forwarded) && (contacts <==> healthy && verdict == Pass)
  }

  /** The same plugin by plugin. */
  lemma ServedMeans(healthy: bool, plugins: seq<Plugin>, httpMethod: seq<byte>, path: seq<byte>,
                    forwarded: Forwarded, ending: Ending, contacts: bool)
    requires ServedAs(healthy, plugins, httpMethod, path, forwarded, ending, contacts)
    ensures !healthy ==> ending == Errored(UpstreamUnhealthy) && !contacts
    ensures healthy ==>
              (ending == BlockedByPlugin <==>
               exists k: nat ::
                 && k < |plugins| && VerdictOf(plugins[k], httpMethod, path) == Block
                 && forall j :: 0 <= j < k ==> VerdictOf(plugins[j], httpMethod, path) == Pass)
    ensures healthy ==>
              (ending == Errored(PluginFailed) <==>
               exists k: nat ::
                 && k < |plugins| && VerdictOf(plugins[k], httpMethod, path).Fail?
                 && forall j :: 0 <= j < k ==> VerdictOf(plugins[j], httpMethod, path) == Pass)
    ensures healthy ==>
              (contacts <==> forall k :: 0 <= k < |plugins| ==> VerdictOf(plugins[k], httpMethod, path) == Pass)
    ensures contacts ==>
              ending == match forwarded.outcome
                        case Responded => Answered(forwarded.status)
                        case Failed(failure) => Errored(ErrorOf(failure))
  {
    hide VerdictOf, Chain;
    if healthy {
      ChainIs(plugins, httpMethod, path);
    }
  }

  /** At the route the request goes to: its flag, its plugins on the bytes of method and path, its upstream. */
  method Serve(route: RouteState, req: Request, encode: string -> seq<byte>, forwarded: Forwarded)
    returns (ending: Ending, contacts: bool)
    ensures ServedAs(route.healthy.value, route.runtime.plugins, encode(req.httpMethod), encode(req.path),
                     forwarded, ending, contacts)
  {
    hide VerdictOf, Chain;
    if !route.healthy.value {
      return Errored(UpstreamUnhealthy), false;
    }
    var blocked, ran := route.runtime.RunOnRequest(encode(req.httpMethod), encode(req.path));
    match blocked
    case Err(_) => return Errored(PluginFailed), false;
    case Ok(true) => return BlockedByPlugin, false;
    case Ok(false) =>
      match forwarded.outcome {
        case Responded => return Answered(forwarded.status), true;
        case Failed(failure) => return Errored(ErrorOf(failure)), true;
      }
  }

  /** With the path-checking fixture alone on a healthy route, a request whose method and path fit its memory is
      blocked exactly when its path starts with the bytes of "/block". */
  method ServeWithFixture(route: RouteState, name: string, req: Request, encode: string -> seq<byte>,
                          forwarded: Forwarded)
    returns (ending: Ending)
    requires route.healthy.value && route.runtime.plugins == [BlockPathPlugin(name)]
    requires |encode(req.httpMethod)| <= 256 && 256 + |encode(req.path)| <= 65_536
    ensures ending == BlockedByPlugin <==> [47, 98, 108, 111, 99, 107] <= encode(req.path)
  {
    hide VerdictOf, BlockPathPlugin, ServedAs;
    var contacts;
    ending, contacts := Serve(route, req, encode, forwarded);
    ServedMeans(true, route.runtime.plugins, encode(req.httpMethod), encode(req.path), forwarded, ending, contacts);
    FixtureBlocksExactly(name, encode(req.httpMethod), encode(req.path));
    assert route.runtime.plugins[0] == BlockPathPlugin(name);
  }

  /** `route`; `encode` is how strings are encoded as bytes. A request for /health is answered at once, one that
      no prefix starts has no route, and any other is served by the first route whose prefix its path starts
      with. At most that one upstream is contacted. */
  method Route(routes: seq<RouteState>, req: Request, encode: string -> seq<byte>, forward: nat -> Forwarded)
    returns (ending: Ending, contacted: Option<nat>)
    ensures req.path == "/health" ==> ending == Answered(200) && contacted.None?
    ensures req.path != "/health" && (forall i :: 0 <= i < |routes| ==> !(routes[i].route.pathPrefix <= req.path)) ==>
              ending == Errored(NoRoute) && contacted.None?
    ensures forall i: nat ::
              i < |routes| && routes[i].route.pathPrefix <= req.path ==>
                (req.path != "/health" && (forall j :: 0 <= j < i ==> !(routes[j].route.pathPrefix <= req.path)) ==>
                   && (contacted.Some? ==> contacted == Some(i))
                   && ServedAs(routes[i].healthy.value, routes[i].runtime.plugins,
                               encode(req.httpMethod), encode(req.path), forward(i), ending, contacted.Some?))
  {
    hide ServedAs;
    if req.path == "/health" {
      return Answered(200), None;
    }
    var found := FindRoute(RouteConfigs(routes), req.path);
    assert forall i :: 0 <= i < |routes| ==> RouteConfigs(routes)[i].pathPrefix == routes[i].route.pathPrefix;
    if found.None? {
      return Errored(NoRoute), None;
    }
    var i := found.value;
    var contacts;
    ending, contacts := Serve(routes[i], req, encode, forward(i));
    contacted := if contacts then Some(i) else None;
  }

  /** The response to each ending: the status, and whether it carries x-response-time. */
  method Respond(ending: Ending) returns (response: Response, blocked: bool)
    ensures response == Response(StatusOf(ending), !ending.Errored?) && (blocked <==> ending == BlockedByPlugin)
    ensures ending.Answered? ==> response == Response(ending.status, true)
    ensures ending == BlockedByPlugin ==> response == Response(403, true)
    ensures ending == Errored(NoRoute) ==> response == Response(404, false)
    ensures ending == Errored(UpstreamUnhealthy) ==> response == Response(503, false)
    ensures ending == Errored(TimedOut) ==> response == Response(504, false)
    ensures ending == Errored(ProxyError.UpstreamConnect) ==> response == Response(502, false)
    ensures ending.Errored? && !(ending.error.NoRoute? || ending.error.UpstreamUnhealthy? || ending.error.TimedOut?
                                 || ending.error.UpstreamConnect?) ==>
              response == Response(500, false)
  {
    match ending
    case Errored(error) => return Response(ErrorStatus(error), false), false;
    case Answered(status) => return Response(status, true), false;
    case BlockedByPlugin => return Response(403, true), true;
  }

  /** The response to a request served like that. */
  ghost predicate RespondedAs(healthy: bool, plugins: seq<Plugin>, httpMethod: seq<byte>, path: seq<byte>,
                              forwarded: Forwarded, response: Response)
  {
    exists ending, contacts ::
      && ServedAs(healthy, plugins, httpMethod, path, forwarded, ending, contacts)
      && response == Response(StatusOf(ending), !ending.Errored?)
  }

  /** The response in plain terms: 503 when the upstream is unhealthy, 403 when the first plugin that does not pass
      the request blocks it and 500 when that one fails; else what the upstream answers, 504 on a timeout, 502 on a
      refused connection and 500 otherwise. */
  lemma ResponseMeans(healthy: bool, plugins: seq<Plugin>, httpMethod: seq<byte>, path: seq<byte>,
                      forwarded: Forwarded, response: Response)
    requires RespondedAs(healthy, plugins, httpMethod, path, forwarded, response)
    ensures !healthy ==> response == Response(503, false)
    ensures forall k: nat ::
              healthy && k < |plugins| && VerdictOf(plugins[k], httpMethod, path) != Pass
              && (forall j :: 0 <= j < k ==> VerdictOf(plugins[j], httpMethod, path) == Pass) ==>
                response == if VerdictOf(plugins[k], httpMethod, path) == Block then Response(403, true)
                            else Response(500, false)
    ensures healthy && (forall k :: 0 <= k < |plugins| ==> VerdictOf(plugins[k], httpMethod, path) == Pass) ==>
              response == match forwarded.outcome
                          case Responded => Response(forwarded.status, true)
                          case Failed(Timeout) => Response(504, false)
                          case Failed(CannotConnect(UpstreamConnect)) => Response(502, false)
                          case Failed(_) => Response(500, false)
  {
    hide ServedAs, VerdictOf;
    var ending, contacts :| && ServedAs(healthy, plugins, httpMethod, path, forwarded, ending, contacts)
                            && response == Response(StatusOf(ending), !ending.Errored?);
    ServedMeans(healthy, plugins, httpMethod, path, forwarded, ending, contacts);
  }

  /** The answer to a request other than for /metrics. */
  method AnswerTo(routes: seq<RouteState>, req: Request, encode: string -> seq<byte>, forward: nat -> Forwarded)
    returns (response: Response, blocked: bool, ghost ending: Ending)
    ensures response == Response(StatusOf(ending), !ending.Errored?) && (blocked <==> ending == BlockedByPlugin)
    ensures req.path == "/health" ==> response == Response(200, true)
    ensures req.path != "/health" && (forall i :: 0 <= i < |routes| ==> !(routes[i].route.pathPrefix <= req.path)) ==>
              response == Response(404, false)
    ensures forall i: nat ::
              i < |routes| && routes[i].route.pathPrefix <= req.path ==>
                (req.path != "/health" && (forall j :: 0 <= j < i ==> !(routes[j].route.pathPrefix <= req.path)) ==>
                   RespondedAs(routes[i].healthy.value, routes[i].runtime.plugins,
                               encode(req.httpMethod), encode(req.path), forward(i), response))
  {
    hide ServedAs, StatusOf;
    var end, _ := Route(routes, req, encode, forward);
    response, blocked := Respond(end);
    ending := end;
  }

  /** `handle`. A /metrics request is answered at once and touches no counter. Any other is recorded exactly once,
      under the status it is answered with. */
  method Handle(metrics: Metrics, routes: seq<RouteState>, req: Request, encode: string -> seq<byte>,
                elapsedMs: nat, forward: nat -> Forwarded)
    returns (response: Response, ghost ending: Ending)
    modifies metrics
    ensures req.path == "/metrics" ==> metrics.Read() == old(metrics.Read()) && response == Response(200, false)
    ensures req.path != "/metrics" ==>
              && response == Response(StatusOf(ending), !ending.Errored?)
              && metrics.Read() ==
                 AddBucket(AddElapsed(AddTotal(old(metrics.Read())), elapsedMs), BucketOfEnding(ending))
    ensures req.path != "/metrics" ==>
              && metrics.requestsTotal == (old(metrics.requestsTotal) + 1) % 0x1_0000_0000_0000_0000
              && metrics.responseTimeMsTotal ==
                 (old(metrics.responseTimeMsTotal) + elapsedMs) % 0x1_0000_0000_0000_0000
              && metrics.requestsBlocked == Bumped(old(metrics.requestsBlocked), ending == BlockedByPlugin)
              && metrics.requests2xx ==
                 Bumped(old(metrics.requests2xx), ending != BlockedByPlugin && 200 <= response.status <= 299)
              && metrics.requests4xx ==
                 Bumped(old(metrics.requests4xx), ending != BlockedByPlugin && 400 <= response.status <= 499)
              && metrics.requests5xx ==
                 Bumped(old(metrics.requests5xx), ending != BlockedByPlugin && 500 <= response.status <= 599)
    ensures req.path == "/health" ==> response == Response(200, true)
    ensures req.path != "/metrics" && req.path != "/health"
            && (forall i :: 0 <= i < |routes| ==> !(routes[i].route.pathPrefix <= req.path)) ==>
              response == Response(404, false)
    ensures forall i: nat ::
              i < |routes| && routes[i].route.pathPrefix <= req.path ==>
                (req.path != "/metrics" && req.path != "/health"
                 && (forall j :: 0 <= j < i ==> !(routes[j].route.pathPrefix <= req.path)) ==>
                   RespondedAs(old(routes[i].healthy.value), old(routes[i].runtime.plugins),
                               encode(req.httpMethod), encode(req.path), forward(i), response))
  {
    hide RespondedAs, StatusOf;
    if req.path == "/metrics" {
      return Response(200, false), Answered(200);
    }
    var blocked;
    response, blocked, ending := AnswerTo(routes, req, encode, forward);
    metrics.Record(response.status, elapsedMs, blocked);
  }

  /** A counter of 64 bits, one up if so. */
  function Bumped(n: nat, up: bool): nat {
    if up then (n + 1) % 0x1_0000_0000_0000_0000 else n
  }

  lemma BumpedIs(n: nat)
    requires n < 0x1_0000_0000_0000_0000
    ensures Bumped(n, false) == n
    ensures Bumped(n, true) == if n == 0xFFFF_FFFF_FFFF_FFFF then 0 else n + 1
  {
  }
}
