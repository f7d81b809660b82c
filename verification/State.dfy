/** Building the state requests run on, and who may write the health flags it carries. */
module State {
  import opened Prelude
  import opened Config
  import opened HealthCheck
  import opened Plugin

  // ----- build_state

  datatype RouteState = RouteState(route: RouteConfig, runtime: PluginRuntime, healthy: AtomicBool)

  datatype AppState = AppState(timeoutMs: nat, routes: seq<RouteState>, tls: Option<TlsConfig>)

  datatype BuildError = CannotLoad(path: string) | TlsFailed

  /** The world `build_state` reads: the module compiled from each plugin file, if it compiles, and
      the name it goes by; which cache directories hold both PEM files, and which of those make a
      usable TLS state. */
  datatype World = World(compiled: string -> Option<Module>, nameOf: string -> string,
                         hasPair: string -> bool, usablePair: string -> bool)

  predicate Loads(w: World, path: string) { w.compiled(path).Some? }

  predicate PluginsLoad(c: Config, w: World) {
    forall i, k :: 0 <= i < |c.routes| && 0 <= k < |c.routes[i].plugins| ==> Loads(w, c.routes[i].plugins[k])
  }

  /** Plugin `k` of route `i` is the first, in reading order, that does not load. */
  predicate FirstFailure(c: Config, w: World, i: nat, k: nat) {
    && i < |c.routes| && k < |c.routes[i].plugins| && !Loads(w, c.routes[i].plugins[k])
    && (forall l :: 0 <= l < k ==> Loads(w, c.routes[i].plugins[l]))
    && forall j, l :: 0 <= j < i && 0 <= l < |c.routes[j].plugins| ==> Loads(w, c.routes[j].plugins[l])
  }

  /** The runtime holds the configured plugins, in order. */
  ghost predicate RuntimeFor(runtime: PluginRuntime, paths: seq<string>, w: World)
    reads runtime
  {
    && |runtime.plugins| == |paths|
    && forall k :: 0 <= k < |paths| ==>
         Loads(w, paths[k]) && runtime.plugins[k] == Plugin(w.nameOf(paths[k]), w.compiled(paths[k]).value)
  }

  /** The flags are new objects, one per route, all up. */
  twostate predicate FreshFlags(new routes: seq<RouteState>)
    reads set r | r in routes :: r.healthy
  {
    && (forall i :: 0 <= i < |routes| ==> fresh(routes[i].healthy) && routes[i].healthy.value)
    && forall i, j :: 0 <= i < j < |routes| ==> routes[i].healthy != routes[j].healthy
  }

  /** Loads the plugins of one route, stopping at the first that does not load. */
  method LoadPlugins(paths: seq<string>, w: World) returns (runtime: PluginRuntime, loaded: nat)
    ensures fresh(runtime) && loaded <= |paths| && RuntimeFor(runtime, paths[..loaded], w)
    ensures loaded < |paths| ==> !Loads(w, paths[loaded])
  {
    runtime := new PluginRuntime();
    for k := 0 to |paths|
      invariant fresh(runtime) && RuntimeFor(runtime, paths[..k], w)
    {
      if !Loads(w, paths[k]) {
        return runtime, k;
      }
      runtime.PushModule(w.nameOf(paths[k]), w.compiled(paths[k]).value);
      assert paths[..k + 1] == paths[..k] + [paths[k]];
    }
    return runtime, |paths|;
  }

  /** Plugin loading in plain terms. */
  lemma LoadingIs(c: Config, w: World, i: nat, k: nat)
    ensures PluginsLoad(c, w) <==>
            forall j, l :: 0 <= j < |c.routes| && 0 <= l < |c.routes[j].plugins| ==>
              w.compiled(c.routes[j].plugins[l]).Some?
    ensures FirstFailure(c, w, i, k) <==>
            && i < |c.routes| && k < |c.routes[i].plugins| && w.compiled(c.routes[i].plugins[k]).None?
            && (forall l :: 0 <= l < k ==> w.compiled(c.routes[i].plugins[l]).Some?)
            && forall j, l :: 0 <= j < i && 0 <= l < |c.routes[j].plugins| ==>
                 w.compiled(c.routes[j].plugins[l]).Some?
  {
    if !PluginsLoad(c, w) {
      var j, l :| 0 <= j < |c.routes| && 0 <= l < |c.routes[j].plugins| && !Loads(w, c.routes[j].plugins[l]);
      assert w.compiled(c.routes[j].plugins[l]).None?;
    }
  }

  /** What a route runs in plain terms: its configured plugins, in order, each under its name. */
  lemma RuntimeForIs(runtime: PluginRuntime, paths: seq<string>, w: World)
    ensures RuntimeFor(runtime, paths, w) <==>
            && |runtime.plugins| == |paths|
            && forall k :: 0 <= k < |paths| ==>
                 && w.compiled(paths[k]).Some?
                 && runtime.plugins[k].name == w.nameOf(paths[k])
                 && runtime.plugins[k].code == w.compiled(paths[k]).value
  {
  }

  method BuildState(c: Config, w: World) returns (r: Result<AppState, BuildError>)
    ensures match r
            case Ok(app) =>
              && PluginsLoad(c, w)
              && app.timeoutMs == c.server.timeoutMs
              && |app.routes| == |c.routes|
              && (forall i :: 0 <= i < |c.routes| ==>
                    app.routes[i].route == c.routes[i] && RuntimeFor(app.routes[i].runtime, c.routes[i].plugins, w))
              && FreshFlags(app.routes)
              && (forall i :: 0 <= i < |app.routes| ==> fresh(app.routes[i].healthy) && app.routes[i].healthy.value)
              && (forall i, j :: 0 <= i < j < |app.routes| ==> app.routes[i].healthy != app.routes[j].healthy)
              && app.tls == (if c.tls.Some? && w.hasPair(c.tls.value.cacheDir) then c.tls else None)
              && (app.tls.Some? ==> w.usablePair(app.tls.value.cacheDir))
            case Err(CannotLoad(path)) =>
              exists i: nat, k: nat :: FirstFailure(c, w, i, k) && path == c.routes[i].plugins[k]
            case Err(TlsFailed) =>
              && PluginsLoad(c, w)
              && c.tls.Some? && w.hasPair(c.tls.value.cacheDir) && !w.usablePair(c.tls.value.cacheDir)
  {
    var routes: seq<RouteState> := [];
    for i := 0 to |c.routes|
      invariant |routes| == i && FreshFlags(routes)
      invariant forall j :: 0 <= j < i ==> fresh(routes[j].runtime) && routes[j].route == c.routes[j]
      invariant forall j :: 0 <= j < i ==> RuntimeFor(routes[j].runtime, c.routes[j].plugins, w)
    {
      var route := c.routes[i];
      var runtime, loaded := LoadPlugins(route.plugins, w);
      if loaded < |route.plugins| {
        assert forall l :: 0 <= l < loaded ==> route.plugins[l] == route.plugins[..loaded][l];
        assert FirstFailure(c, w, i, loaded);
        return Err(CannotLoad(route.plugins[loaded]));
      }
      assert route.plugins[..loaded] == route.plugins;
      var healthy := new AtomicBool(true);
      routes := routes + [RouteState(route, runtime, healthy)];
    }
    var tls: Option<TlsConfig> := None;
    if c.tls.Some? && w.hasPair(c.tls.value.cacheDir) {
      if !w.usablePair(c.tls.value.cacheDir) {
        return Err(TlsFailed);
      }
      tls := c.tls;
    }
    return Ok(AppState(c.server.timeoutMs, routes, tls));
  }

  // ----- flags over a whole run

  type Flag = nat

  /** `installed` and each snapshot are the flags of a state, in route order; `value` is every
      flag allocated so far; `watched` are the flags a health loop writes. */
  datatype System = System(value: map<Flag, bool>, next: Flag, watched: set<Flag>,
                           installed: seq<Flag>, snapshots: map<nat, seq<Flag>>, swaps: nat)

  /** What `build_state` allocates for `n` routes. */
  function NewFlags(next: Flag, n: nat): (flags: seq<Flag>)
    ensures |flags| == n && forall i :: 0 <= i < n ==> flags[i] == next + i
    ensures forall f: Flag :: f in flags <==> next <= f < next + n
  {
    if n == 0 then [] else NewFlags(next, n - 1) + [next + n - 1]
  }

  function Allocate(s: System, n: nat): System {
    s.(value := s.value + (map f | f in NewFlags(s.next, n) :: true),
       next := s.next + n, installed := NewFlags(s.next, n))
  }

  /** Startup builds the first state and spawns one health loop per route of it. */
  function Startup(n: nat): System {
    var s := Allocate(System(map[], 0, {}, [], map[], 0), n);
    s.(watched := set f | f in s.value)
  }

  datatype FlagAction =
    | LoopStores(flag: Flag, up: bool)
    | Swap(routes: nat)
    | RequestLoads(id: nat)

  /** Reload and renewal swap in a new state and spawn nothing. */
  function FlagStep(s: System, a: FlagAction): System {
    match a
    case LoopStores(f, up) => if f in s.watched then s.(value := s.value[f := up]) else s
    case Swap(n) => Allocate(s, n).(swaps := s.swaps + 1)
    case RequestLoads(id) => s.(snapshots := s.snapshots[id := s.installed])
  }

  function FlagRun(s: System, actions: seq<FlagAction>): System {
    if actions == [] then s else FlagStep(FlagRun(s, actions[..|actions| - 1]), actions[|actions| - 1])
  }

  /** The steps in plain terms: a load gives the request the flags installed at that moment and nothing else
      changes; a store sets a flag that a loop writes and no other; a swap installs as many new, distinct flags
      as there are routes, all up, that no loop writes. */
  lemma FlagStepIs(s: System, id: nat, f: Flag, up: bool, n: nat)
    ensures var t := FlagStep(s, RequestLoads(id));
            && id in t.snapshots && t.snapshots[id] == s.installed && t.installed == s.installed
            && t.value == s.value && t.watched == s.watched && t.swaps == s.swaps
            && forall other :: other != id ==>
                 (other in t.snapshots <==> other in s.snapshots)
                 && (other in s.snapshots ==> t.snapshots[other] == s.snapshots[other])
    ensures var t := FlagStep(s, LoopStores(f, up));
            && t.installed == s.installed && t.snapshots == s.snapshots && t.watched == s.watched
            && (f !in s.watched ==> t == s)
            && (f in s.watched ==> f in t.value && t.value[f] == up)
            && forall g :: g != f && g in s.value ==> g in t.value && t.value[g] == s.value[g]
    ensures var t := FlagStep(s, Swap(n));
            && |t.installed| == n && t.watched == s.watched && t.snapshots == s.snapshots && t.swaps == s.swaps + 1
            && (forall i :: 0 <= i < n ==>
                  && t.installed[i] in t.value && t.value[t.installed[i]] && t.installed[i] >= s.next
                  && forall j :: 0 <= j < i ==> t.installed[j] != t.installed[i])
            && forall g :: g in s.value && g < s.next ==> g in t.value && t.value[g] == s.value[g]
  {
    var flags := NewFlags(s.next, n);
    forall i | 0 <= i < n
      ensures flags[i] in flags
    {
    }
  }

  /** And at startup every flag has a loop that writes it. */
  lemma StartupIs(n: nat, f: Flag)
    ensures |Startup(n).installed| == n && (f in Startup(n).installed <==> f in Startup(n).watched)
    ensures forall i :: 0 <= i < n ==>
              Startup(n).installed[i] in Startup(n).value && Startup(n).value[Startup(n).installed[i]]
  {
    forall i | 0 <= i < n
      ensures NewFlags(0, n)[i] in NewFlags(0, n)
    {
    }
  }

  /** `flags` belong to the startup state, or nobody writes them and they are up. */
  ghost predicate StartupOrUp(s: System, flags: seq<Flag>, n: nat) {
    && (forall i :: 0 <= i < |flags| ==> flags[i] in s.value)
    && (flags == NewFlags(0, n) || forall i :: 0 <= i < |flags| ==> flags[i] !in s.watched && s.value[flags[i]])
  }

  ghost predicate FlagInv(s: System, n: nat) {
    && n <= s.next
    && (forall f: Flag :: f in s.value <==> f < s.next)
    && (forall f: Flag :: f in s.watched <==> f < n)
    && (forall f :: f in s.value && f !in s.watched ==> s.value[f])
    && (if s.swaps == 0 then s.installed == NewFlags(0, n)
        else forall i :: 0 <= i < |s.installed| ==> n <= s.installed[i] < s.next)
    && (forall i, j :: 0 <= i < j < |s.installed| ==> s.installed[i] != s.installed[j])
    && forall id :: id in s.snapshots ==> StartupOrUp(s, s.snapshots[id], n)
  }

  lemma SwapKeepsInv(s: System, routes: nat, n: nat)
    requires FlagInv(s, n)
    ensures FlagInv(FlagStep(s, Swap(routes)), n)
  {
    var t := FlagStep(s, Swap(routes));
    assert forall f: Flag :: f in s.value ==> f !in NewFlags(s.next, routes) && t.value[f] == s.value[f];
    forall id | id in t.snapshots
      ensures StartupOrUp(t, t.snapshots[id], n)
    {
      assert StartupOrUp(s, s.snapshots[id], n);
    }
  }

  lemma FlagStepKeepsInv(s: System, a: FlagAction, n: nat)
    requires FlagInv(s, n)
    ensures FlagInv(FlagStep(s, a), n)
  {
    if a.Swap? { SwapKeepsInv(s, a.routes, n); }
  }

  lemma {:induction false} FlagRunKeepsInv(n: nat, actions: seq<FlagAction>)
    ensures FlagInv(FlagRun(Startup(n), actions), n)
  {
    if actions != [] {
      FlagRunKeepsInv(n, actions[..|actions| - 1]);
      FlagStepKeepsInv(FlagRun(Startup(n), actions[..|actions| - 1]), actions[|actions| - 1], n);
    }
  }

  /** The flags of the installed state are distinct and, in every run, exactly those of a state that was
      never swapped in are written by a loop; from the first swap on all of them are up and stay out of
      every loop's reach, so health checking is over for requests that load from then on. */
  lemma LoopsWatchUntilSwapped(n: nat, actions: seq<FlagAction>)
    ensures var s := FlagRun(Startup(n), actions);
            && (forall i :: 0 <= i < |s.installed| ==>
                  && s.installed[i] in s.value
                  && (s.installed[i] in s.watched <==> s.swaps == 0)
                  && (s.swaps > 0 ==> s.value[s.installed[i]]))
            && forall i, j :: 0 <= i < j < |s.installed| ==> s.installed[i] != s.installed[j]
  {
    FlagRunKeepsInv(n, actions);
  }

  /** A request that loaded its state either holds the startup flags, whose loops' stores it sees
      at once, or flags that are up now and after any further steps. */
  lemma SnapshotsSeeTheirLoops(n: nat, before: seq<FlagAction>, after: seq<FlagAction>,
                                                  id: nat, held: seq<Flag>)
    requires id in FlagRun(Startup(n), before).snapshots && held == FlagRun(Startup(n), before).snapshots[id]
    ensures var t := FlagRun(Startup(n), before + after);
            if held == NewFlags(0, n) then
              forall i, up :: 0 <= i < n ==>
                held[i] in t.watched && FlagStep(t, LoopStores(held[i], up)).value[held[i]] == up
            else
              forall i :: 0 <= i < |held| ==> held[i] in t.value && t.value[held[i]]
  {
    var s, t := FlagRun(Startup(n), before), FlagRun(Startup(n), before + after);
    FlagRunKeepsInv(n, before);
    FlagRunKeepsInv(n, before + after);
    ValuesOnlyGrow(Startup(n), before, after);
  }

  lemma {:induction false} ValuesOnlyGrow(s: System, before: seq<FlagAction>, after: seq<FlagAction>)
    ensures FlagRun(s, before).value.Keys <= FlagRun(s, before + after).value.Keys
    ensures FlagRun(s, before).watched == FlagRun(s, before + after).watched
  {
    if after == [] {
      assert before + after == before;
    } else {
      ValuesOnlyGrow(s, before, after[..|after| - 1]);
      assert (before + after)[..|before + after| - 1] == before + after[..|after| - 1];
    }
  }
}
