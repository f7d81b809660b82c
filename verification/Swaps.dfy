/** The health flags over a run of the reload and renewal loops: which installs take health checking away. */
module Swaps {
  import Reload
  import opened ReloadRuns
  import opened HealthCheck
  import opened State

  const FAIL_THRESHOLD: nat := 3
  const RECOVER_THRESHOLD: nat := 2

  /** What the loops hold, the flags of the states they install, and the counters of the health loops. */
  datatype Server = Server(reload: Reload.State, flags: System, health: map<Flag, Loop>)

  /** A step of the editor or of one of the two loops, a ping of a health loop, or a request's load. */
  datatype ServerAction = LoopsMove(loops: Reload.Action) | Pinged(flag: Flag, ok: bool) | Loaded(id: nat)

  predicate Installs(happened: seq<Event>) {
    happened == [Reloaded] || happened == [Renewed]
  }

  /** `routesOf` is how many routes each version has. An install swaps in a state built for its version. */
  function Step(w: Server, a: ServerAction, routesOf: nat -> nat): (next: Server)
    requires Reload.Wf(w.reload)
    ensures Reload.Wf(next.reload)
  {
    match a
    case LoopsMove(action) =>
      var reload := Reload.Step(w.reload, action);
      w.(reload := reload, flags := if Installs(Happened(w.reload, action))
                                    then FlagStep(w.flags, Swap(routesOf(reload.installed))) else w.flags)
    case Pinged(flag, ok) =>
      if flag !in w.health then w
      else
        var next := Iterate(w.health[flag], ok, FAIL_THRESHOLD, RECOVER_THRESHOLD, true);
        w.(health := w.health[flag := next], flags := FlagStep(w.flags, LoopStores(flag, next.healthy)))
    case Loaded(id) => w.(flags := FlagStep(w.flags, RequestLoads(id)))
  }

  function Run(w: Server, actions: seq<ServerAction>, routesOf: nat -> nat): (next: Server)
    requires Reload.Wf(w.reload)
    ensures Reload.Wf(next.reload)
  {
    if actions == [] then w
    else Step(Run(w, actions[..|actions| - 1], routesOf), actions[|actions| - 1], routesOf)
  }

  function Start(versions: seq<Reload.Version>, read: nat, statOk: bool, routesOf: nat -> nat): (w: Server)
    requires read < |versions|
    ensures Reload.Wf(w.reload)
  {
    var flags := State.Startup(routesOf(read));
    Server(Reload.Startup(versions, read, statOk), flags, map f | f in flags.watched :: HealthCheck.Start(true))
  }

  /** The loops' part of a run. */
  function LoopsPart(actions: seq<ServerAction>): seq<Reload.Action> {
    if actions == [] then []
    else LoopsPart(actions[..|actions| - 1])
         + match actions[|actions| - 1] case LoopsMove(action) => [action] case _ => []
  }

  /** The pings of the route behind a flag. */
  function PingsOf(actions: seq<ServerAction>, f: Flag): seq<bool> {
    if actions == [] then []
    else PingsOf(actions[..|actions| - 1], f)
         + match actions[|actions| - 1]
           case Pinged(flag, ok) => if flag == f then [ok] else []
           case _ => []
  }

  /** Every flag that is written is what its loop's counters say after its pings so far. */
  ghost predicate HealthFits(w: Server, actions: seq<ServerAction>) {
    && (forall f: Flag :: f in w.health <==> f in w.flags.watched)
    && forall f: Flag :: f in w.health ==>
         && w.health[f] == After(HealthCheck.Start(true), PingsOf(actions, f), FAIL_THRESHOLD, RECOVER_THRESHOLD, true)
         && f in w.flags.value && w.flags.value[f] == w.health[f].healthy
  }

  /** What every run keeps. */
  ghost predicate Inv(w: Server, trace: seq<Event>, n: nat, routesOf: nat -> nat) {
    && FlagInv(w.flags, n)
    && |w.flags.installed| == routesOf(w.reload.installed)
    && (w.flags.swaps == 0 <==> LastOf(trace, Reloaded) < 0 && LastOf(trace, Renewed) < 0)
  }

  lemma LoopsKeepInv(w: Server, action: Reload.Action, trace: seq<Event>, n: nat, routesOf: nat -> nat)
    requires Reload.Wf(w.reload) && Inv(w, trace, n, routesOf)
    ensures Inv(Step(w, LoopsMove(action), routesOf), trace + Happened(w.reload, action), n, routesOf)
  {
    var happened := Happened(w.reload, action);
    if Installs(happened) {
      FlagStepKeepsInv(w.flags, Swap(routesOf(Reload.Step(w.reload, action).installed)), n);
    }
    if happened == [] {
      assert trace + happened == trace;
    } else {
      TraceGrows(trace, happened[0]);
    }
  }

  lemma {:induction false} RunKeepsInv(versions: seq<Reload.Version>, read: nat, statOk: bool, routesOf: nat -> nat,
                                       actions: seq<ServerAction>)
    requires read < |versions|
    ensures var start := Start(versions, read, statOk, routesOf);
            var w := Run(start, actions, routesOf);
            && w.reload == Reload.Run(start.reload, LoopsPart(actions))
            && Inv(w, Trace(start.reload, LoopsPart(actions)), routesOf(read), routesOf)
  {
    var start := Start(versions, read, statOk, routesOf);
    if actions == [] {
      FlagRunKeepsInv(routesOf(read), []);
    } else {
      var front, last := actions[..|actions| - 1], actions[|actions| - 1];
      RunKeepsInv(versions, read, statOk, routesOf, front);
      var w, trace := Run(start, front, routesOf), Trace(start.reload, LoopsPart(front));
      match last
      case LoopsMove(action) =>
        LoopsKeepInv(w, action, trace, routesOf(read), routesOf);
        assert LoopsPart(actions)[..|LoopsPart(actions)| - 1] == LoopsPart(front);
      case _ =>
        FlagsKeepInv(w, last, trace, routesOf(read), routesOf);
        assert LoopsPart(actions) == LoopsPart(front);
    }
  }

  lemma FlagsKeepInv(w: Server, a: ServerAction, trace: seq<Event>, n: nat, routesOf: nat -> nat)
    requires Reload.Wf(w.reload) && Inv(w, trace, n, routesOf) && !a.LoopsMove?
    ensures Inv(Step(w, a, routesOf), trace, n, routesOf) && Step(w, a, routesOf).reload == w.reload
  {
    match a
    case Pinged(flag, ok) =>
      if flag in w.health {
        var next := Iterate(w.health[flag], ok, FAIL_THRESHOLD, RECOVER_THRESHOLD, true);
        FlagStepKeepsInv(w.flags, LoopStores(flag, next.healthy), n);
      }
    case Loaded(id) => FlagStepKeepsInv(w.flags, RequestLoads(id), n);
  }

  lemma PingsGrow(before: seq<ServerAction>, a: ServerAction, f: Flag)
    ensures PingsOf(before + [a], f) ==
            if a.Pinged? && a.flag == f then PingsOf(before, f) + [a.ok] else PingsOf(before, f)
  {
    assert (before + [a])[..|before|] == before;
  }

  /** Steps that are no pings: flags are only added, and none of them changes. */
  lemma OthersKeepHealth(w: Server, a: ServerAction, before: seq<ServerAction>, n: nat, routesOf: nat -> nat)
    requires Reload.Wf(w.reload) && FlagInv(w.flags, n) && HealthFits(w, before) && !a.Pinged?
    ensures HealthFits(Step(w, a, routesOf), before + [a])
  {
    var t := Step(w, a, routesOf);
    assert t.flags.watched == w.flags.watched && t.health == w.health;
    forall f: Flag | f in t.health
      ensures PingsOf(before + [a], f) == PingsOf(before, f)
      ensures f in t.flags.value && t.flags.value[f] == w.flags.value[f]
    {
      PingsGrow(before, a, f);
    }
  }

  lemma PingKeepsHealth(w: Server, flag: Flag, ok: bool, before: seq<ServerAction>, routesOf: nat -> nat)
    requires Reload.Wf(w.reload) && HealthFits(w, before)
    ensures HealthFits(Step(w, Pinged(flag, ok), routesOf), before + [Pinged(flag, ok)])
  {
    hide After, Iterate;
    forall f: Flag
      ensures PingsOf(before + [Pinged(flag, ok)], f) ==
              if flag == f then PingsOf(before, f) + [ok] else PingsOf(before, f)
    {
      PingsGrow(before, Pinged(flag, ok), f);
    }
    PingMoves(PingsOf(before, flag), ok);
  }

  lemma StepKeepsHealth(w: Server, a: ServerAction, before: seq<ServerAction>, n: nat, routesOf: nat -> nat)
    requires Reload.Wf(w.reload) && FlagInv(w.flags, n) && HealthFits(w, before)
    ensures HealthFits(Step(w, a, routesOf), before + [a])
  {
    if a.Pinged? {
      PingKeepsHealth(w, a.flag, a.ok, before, routesOf);
    } else {
      OthersKeepHealth(w, a, before, n, routesOf);
    }
  }

  lemma PingMoves(pings: seq<bool>, ok: bool)
    ensures After(HealthCheck.Start(true), pings + [ok], FAIL_THRESHOLD, RECOVER_THRESHOLD, true) ==
            Iterate(After(HealthCheck.Start(true), pings, FAIL_THRESHOLD, RECOVER_THRESHOLD, true), ok,
                    FAIL_THRESHOLD, RECOVER_THRESHOLD, true)
  {
    assert (pings + [ok])[..|pings|] == pings;
  }

  lemma {:induction false} RunKeepsHealth(versions: seq<Reload.Version>, read: nat, statOk: bool,
                                          routesOf: nat -> nat, actions: seq<ServerAction>)
    requires read < |versions|
    ensures HealthFits(Run(Start(versions, read, statOk, routesOf), actions, routesOf), actions)
  {
    if actions != [] {
      var front := actions[..|actions| - 1];
      RunKeepsHealth(versions, read, statOk, routesOf, front);
      RunKeepsInv(versions, read, statOk, routesOf, front);
      StepKeepsHealth(Run(Start(versions, read, statOk, routesOf), front, routesOf), actions[|actions| - 1], front,
          routesOf(read), routesOf);
      assert front + [actions[|actions| - 1]] == actions;
    }
  }

  /** In every run, for as long as nothing has been installed, the flag of every route of the installed state is
      what the counter-free specification makes of all its pings. */
  lemma FlagsFollowPings(versions: seq<Reload.Version>, read: nat, statOk: bool, routesOf: nat -> nat,
                         actions: seq<ServerAction>, i: nat)
    requires read < |versions|
    requires var start := Start(versions, read, statOk, routesOf);
             var trace := Trace(start.reload, LoopsPart(actions));
             && Reloaded !in trace && Renewed !in trace
             && i < |Run(start, actions, routesOf).flags.installed|
    ensures var flags := Run(Start(versions, read, statOk, routesOf), actions, routesOf).flags;
            var f := flags.installed[i];
            && f in flags.value
            && flags.value[f] == DecidedHealthy(true, PingsOf(actions, f), 3, 2)
  {
    RunKeepsHealth(versions, read, statOk, routesOf, actions);
    WatchedUntilInstall(versions, read, statOk, routesOf, actions);
    var flags := Run(Start(versions, read, statOk, routesOf), actions, routesOf).flags;
    var pings := PingsOf(actions, flags.installed[i]);
    FlagIsDecidedByLatestRun(true, pings, FAIL_THRESHOLD, RECOVER_THRESHOLD);
    WrappingIsHarmless(true, pings, FAIL_THRESHOLD, RECOVER_THRESHOLD);
  }

  /** In every run the installed state has one flag per route of the installed version. As long as neither
      a reload nor a renewal has installed anything, every one of them is written by its health loop;
      from the first install on none is, and all are up. */
  lemma WatchedUntilInstall(versions: seq<Reload.Version>, read: nat, statOk: bool, routesOf: nat -> nat,
                            actions: seq<ServerAction>)
    requires read < |versions|
    ensures var start := Start(versions, read, statOk, routesOf);
            var w, trace := Run(start, actions, routesOf), Trace(start.reload, LoopsPart(actions));
            && |w.flags.installed| == routesOf(w.reload.installed)
            && forall i :: 0 <= i < |w.flags.installed| ==>
                 && w.flags.installed[i] in w.flags.value
                 && (w.flags.installed[i] in w.flags.watched <==> Reloaded !in trace && Renewed !in trace)
                 && (Reloaded in trace || Renewed in trace ==> w.flags.value[w.flags.installed[i]])
  {
    RunKeepsInv(versions, read, statOk, routesOf, actions);
    var trace := Trace(Start(versions, read, statOk, routesOf).reload, LoopsPart(actions));
    LastOfIff(trace, Reloaded);
    LastOfIff(trace, Renewed);
  }

  lemma {:induction false} LastOfIff(trace: seq<Event>, e: Event)
    ensures LastOf(trace, e) >= 0 <==> e in trace
  {
    if trace != [] {
      LastOfIff(trace[..|trace| - 1], e);
      assert trace == trace[..|trace| - 1] + [trace[|trace| - 1]];
    }
  }
}
