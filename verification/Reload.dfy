/** Hot reload against a file that is being edited, and its meeting with the renewal loop. */
module Reload {
  import opened Prelude

  /** One content of the configuration file, with the modification time it was given. */
  datatype Version = Version(mtime: nat, parses: bool, validates: bool)

  predicate Good(v: Version) { v.parses && v.validates }

  datatype Pc = Waiting | Stated(mtime: nat)

  /** `installed` is the version the running state was built from, as an index into `versions`;
      `renewing` is the version the renewal loop has read and is provisioning for, if it is. */
  datatype State = State(versions: seq<Version>, lastMtime: nat, installed: nat, pc: Pc, renewing: Option<nat>)

  datatype Action =
    | Edit(version: Version)
    | Stat(ok: bool)
    | TryReload(readable: bool, builds: bool)
    | RenewalReads(readable: bool)
    | RenewalEnds(provisioned: bool, builds: bool)

  function Last(s: State): nat
    requires s.versions != []
  {
    |s.versions| - 1
  }

  predicate Wf(s: State) {
    && s.versions != [] && s.installed < |s.versions|
    && (s.renewing.Some? ==> s.renewing.value < |s.versions|)
  }

  /** Whether a reload that has seen a newer mtime goes through. */
  predicate Reloads(s: State, readable: bool, builds: bool)
    requires Wf(s)
  {
    s.pc.Stated? && readable && Good(s.versions[Last(s)]) && builds
  }

  /** One step of the editor, the reload loop or the renewal loop. */
  function Step(s: State, a: Action): (t: State)
    requires Wf(s)
    ensures Wf(t)
  {
    var last := Last(s);
    match a
    case Edit(v) => s.(versions := s.versions + [v])
    case Stat(ok) =>
      if s.pc.Waiting? && ok && s.versions[last].mtime > s.lastMtime
      then s.(pc := Stated(s.versions[last].mtime)) else s
    case TryReload(readable, builds) =>
      if Reloads(s, readable, builds)
      then s.(pc := Waiting, installed := last, lastMtime := s.pc.mtime) else s.(pc := Waiting)
    case RenewalReads(readable) =>
      if s.renewing.None? && readable && s.versions[last].parses then s.(renewing := Some(last)) else s
    case RenewalEnds(provisioned, builds) =>
      if s.renewing.Some? && provisioned && builds
      then s.(installed := s.renewing.value, renewing := None) else s.(renewing := None)
  }

  function Run(s: State, actions: seq<Action>): (t: State)
    requires Wf(s)
    ensures Wf(t)
  {
    if actions == [] then s else Step(Run(s, actions[..|actions| - 1]), actions[|actions| - 1])
  }

  lemma {:induction false} RunConcat(s: State, a: seq<Action>, b: seq<Action>)
    requires Wf(s)
    ensures Run(s, a + b) == Run(Run(s, a), b)
  {
    if b == [] {
      assert a + b == a;
    } else {
      RunConcat(s, a, b[..|b| - 1]);
      assert (a + b)[..|a + b| - 1] == a + b[..|b| - 1];
    }
  }

  /** The file had been through `versions` when startup took its first mtime; startup had built
      its state from version `read`. If the stat fails the loop starts from the epoch. */
  function Startup(versions: seq<Version>, read: nat, statOk: bool): State
    requires read < |versions|
  {
    State(versions, if statOk then versions[|versions| - 1].mtime else 0, read, Waiting, None)
  }

  ghost predicate Increasing(versions: seq<Version>) {
    && (forall i :: 0 <= i < |versions| ==> versions[i].mtime > 0)
    && forall i, j :: 0 <= i < j < |versions| ==> versions[i].mtime < versions[j].mtime
  }

  /** One complete tick of the reload loop, with no edit in between and nothing else failing. */
  function GoodTick(s: State): State
    requires Wf(s)
  {
    Run(s, [Stat(true), TryReload(true, true)])
  }

  predicate NoRenewal(actions: seq<Action>) {
    forall a :: a in actions ==> !a.RenewalReads? && !a.RenewalEnds?
  }

  // ----- one tick

  /** From any state at rest with a good last version, a tick leaves that version installed
      exactly when it was installed already or its mtime is past the one remembered. */
  lemma GoodTickInstallsIff(s: State)
    requires Wf(s) && s.pc.Waiting? && Good(s.versions[Last(s)])
    ensures GoodTick(s).installed == Last(s) <==>
            s.installed == Last(s) || s.versions[Last(s)].mtime > s.lastMtime
    ensures GoodTick(s).versions == s.versions
  {
    var a, b := Stat(true), TryReload(true, true);
    assert [a, b][..1] == [a] && [a][..0] == [];
    assert GoodTick(s) == Step(Step(s, a), b) by {
      assert Run(s, [a]) == Step(Run(s, []), a);
    }
  }

  /** However many attempts at a new good version fail, in the stat, the read or the build, nothing
      is installed or remembered by them, and the next tick in which nothing fails installs it. */
  lemma {:induction false} FailedReloadsAreRetried(s: State, actions: seq<Action>)
    requires Wf(s) && Good(s.versions[Last(s)]) && s.versions[Last(s)].mtime > s.lastMtime
    requires forall a :: a in actions ==> a.Stat? || (a.TryReload? && !(a.readable && a.builds))
    ensures var t := Run(s, actions);
            && t == s.(pc := t.pc)
            && (t.pc.Waiting? ==> GoodTick(t).installed == Last(s))
  {
    if actions != [] {
      FailedReloadsAreRetried(s, actions[..|actions| - 1]);
      assert actions[|actions| - 1] in actions;
    }
    if Run(s, actions).pc.Waiting? {
      GoodTickInstallsIff(Run(s, actions));
    }
  }

  /** Once a good last version is no newer than the mtime remembered, nothing but an edit or a
      renewal changes anything. */
  lemma {:induction false} LostStaysLost(s: State, actions: seq<Action>)
    requires Wf(s) && s.pc.Waiting? && s.versions[Last(s)].mtime <= s.lastMtime
    requires forall a :: a in actions ==> a.Stat? || a.TryReload?
    ensures Run(s, actions) == s
  {
    if actions != [] {
      LostStaysLost(s, actions[..|actions| - 1]);
      assert actions[|actions| - 1] in actions;
    }
  }

  // ----- whole runs

  /** Without renewals, installed versions never go backwards and are always ones that validated. */
  lemma {:induction false} ReloadsMoveForward(s: State, actions: seq<Action>)
    requires Wf(s) && s.renewing.None? && NoRenewal(actions) && Good(s.versions[s.installed])
    ensures var t := Run(s, actions);
            && s.installed <= t.installed && Good(t.versions[t.installed])
            && s.versions <= t.versions && t.renewing.None?
  {
    if actions != [] {
      ReloadsMoveForward(s, actions[..|actions| - 1]);
      assert actions[|actions| - 1] in actions;
    }
  }

  // ----- where the guarantees end

  /** The renewal race, from any state at rest: the renewal reads the configuration, an edit `v`
      is reloaded, the renewal ends. The version from before the edit is back, and no tick of the
      reload loop brings the edit back. */
  lemma RenewalUndoesReload(s: State, v: Version, ticks: seq<Action>)
    requires Wf(s) && s.pc.Waiting? && s.renewing.None? && s.versions[Last(s)].parses
    requires Good(v) && v.mtime > s.lastMtime
    requires forall a :: a in ticks ==> a.Stat? || a.TryReload?
    ensures var edited := Step(Step(s, RenewalReads(true)), Edit(v));
            var reloaded := Step(Step(edited, Stat(true)), TryReload(true, true));
            && reloaded.installed == Last(reloaded)
            && Run(Step(reloaded, RenewalEnds(true, true)), ticks).installed == Last(reloaded) - 1
  {
    var edited := Step(Step(s, RenewalReads(true)), Edit(v));
    var reloaded := Step(Step(edited, Stat(true)), TryReload(true, true));
    LostStaysLost(Step(reloaded, RenewalEnds(true, true)), ticks);
  }

  /** A last version that is not good is never installed by the reload loop. */
  lemma {:induction false} BadIsNotReloaded(s: State, actions: seq<Action>)
    requires Wf(s) && !Good(s.versions[Last(s)])
    requires forall a :: a in actions ==> a.Stat? || a.TryReload?
    ensures Run(s, actions).installed == s.installed && Run(s, actions).versions == s.versions
  {
    if actions != [] {
      BadIsNotReloaded(s, actions[..|actions| - 1]);
      assert actions[|actions| - 1] in actions;
    }
  }

  /** The renewal loop does not validate: from any state without a renewal in progress, an edit `w` that
      parses and does not validate is installed by a renewal, and stays installed over all ticks. */
  lemma RenewalInstallsUnvalidated(s: State, w: Version, ticks: seq<Action>)
    requires Wf(s) && s.renewing.None? && w.parses && !w.validates
    requires forall a :: a in ticks ==> a.Stat? || a.TryReload?
    ensures var renewed := Step(Step(Step(s, Edit(w)), RenewalReads(true)), RenewalEnds(true, true));
            var t := Run(renewed, ticks);
            t.versions[t.installed] == w && !Good(t.versions[t.installed])
  {
    BadIsNotReloaded(Step(Step(Step(s, Edit(w)), RenewalReads(true)), RenewalEnds(true, true)), ticks);
  }

  /** The startup race: whatever the file held, if startup built from a version before the last one
      and the first stat then saw the last one, no tick ever installs anything else. */
  lemma StartupLosesAnEdit(versions: seq<Version>, read: nat, ticks: seq<Action>)
    requires read < |versions| - 1
    requires forall a :: a in ticks ==> a.Stat? || a.TryReload?
    ensures Run(Startup(versions, read, true), ticks).installed == read
  {
    LostStaysLost(Startup(versions, read, true), ticks);
  }

  // ----- the loop itself

  /** The file on disk: its last version is what a stat or a read sees. */
  class ConfigFile {
    var versions: seq<Version>

    constructor (versions: seq<Version>)
      ensures this.versions == versions
    {
      this.versions := versions;
    }
  }

  /** The swappable application state, known by the version it was built from. */
  class AppCell {
    var installed: nat

    constructor (installed: nat)
      ensures this.installed == installed
    {
      this.installed := installed;
    }
  }

  /** What happens around one pass of the loop: edits before the stat, whether the stat works,
      edits before the read, and whether reading and building work. */
  datatype Tick = Tick(earlier: seq<Version>, statOk: bool, between: seq<Version>, readable: bool, builds: bool)

  function Edits(versions: seq<Version>): seq<Action> {
    seq(|versions|, i requires 0 <= i < |versions| => Edit(versions[i]))
  }

  function TickActions(t: Tick): seq<Action> {
    Edits(t.earlier) + [Stat(t.statOk)] + Edits(t.between) + [TryReload(t.readable, t.builds)]
  }

  function AllActions(ticks: seq<Tick>): seq<Action> {
    if ticks == [] then [] else AllActions(ticks[..|ticks| - 1]) + TickActions(ticks[|ticks| - 1])
  }

  lemma {:induction false} RunEdits(s: State, versions: seq<Version>)
    requires Wf(s)
    ensures Run(s, Edits(versions)) == s.(versions := s.versions + versions)
  {
    if versions == [] {
      assert s.versions + versions == s.versions;
    } else {
      var front := versions[..|versions| - 1];
      RunEdits(s, front);
      assert Edits(versions)[..|versions| - 1] == Edits(front);
      assert s.versions + versions == (s.versions + front) + [versions[|versions| - 1]];
    }
  }

  /** A tick, edits included, in closed form. */
  function AfterTick(s: State, t: Tick): (next: State)
    requires Wf(s)
    ensures Wf(next)
  {
    var s1 := Step(s.(versions := s.versions + t.earlier), Stat(t.statOk));
    Step(s1.(versions := s1.versions + t.between), TryReload(t.readable, t.builds))
  }

  lemma RunTick(s: State, t: Tick)
    requires Wf(s)
    ensures Run(s, TickActions(t)) == AfterTick(s, t)
  {
    var a, b, c := Edits(t.earlier), Edits(t.between), TryReload(t.readable, t.builds);
    RunEdits(s, t.earlier);
    var s0 := Run(s, a);
    RunConcat(s, a, [Stat(t.statOk)]);
    RunOne(s0, Stat(t.statOk));
    var s1 := Run(s, a + [Stat(t.statOk)]);
    RunConcat(s, a + [Stat(t.statOk)], b);
    RunEdits(s1, t.between);
    RunConcat(s, a + [Stat(t.statOk)] + b, [c]);
    RunOne(Run(s, a + [Stat(t.statOk)] + b), c);
  }

  lemma RunOne(s: State, a: Action)
    requires Wf(s)
    ensures Run(s, [a]) == Step(s, a)
  {
  }

  ghost predicate InState(file: ConfigFile, app: AppCell, lastMtime: nat, s: State)
    reads file, app
  {
    s.pc.Waiting? && file.versions == s.versions && app.installed == s.installed && lastMtime == s.lastMtime
  }

  /** One pass of the loop body, from the stat on. It installs what the file ends with at the read, and
      remembers the mtime it had at the stat, exactly when stat, read and build work, the mtime at the stat
      is past the one remembered, and what is read parses and validates. */
  method OnePass(file: ConfigFile, app: AppCell, remembered: nat, tick: Tick, ghost s: State)
    returns (lastMtime: nat)
    requires Wf(s) && InState(file, app, remembered, s)
    modifies file, app
    ensures InState(file, app, lastMtime, AfterTick(s, tick))
    ensures file.versions == old(file.versions) + tick.earlier + tick.between
    ensures var seen := (old(file.versions) + tick.earlier)[|old(file.versions) + tick.earlier| - 1];
            var read := file.versions[|file.versions| - 1];
            if tick.statOk && seen.mtime > remembered && tick.readable && read.parses && read.validates && tick.builds
            then app.installed == |file.versions| - 1 && lastMtime == seen.mtime
            else app.installed == old(app.installed) && lastMtime == remembered
  {
    lastMtime := remembered;
    file.versions := file.versions + tick.earlier;
    var mtime := file.versions[|file.versions| - 1].mtime;
    file.versions := file.versions + tick.between;
    if !tick.statOk || mtime <= lastMtime {
      return;
    }
    var current := |file.versions| - 1;
    if tick.readable && Good(file.versions[current]) && tick.builds {
      app.installed := current;
      lastMtime := mtime;
    }
  }

  /** Everything written to the file over the ticks. */
  function AllEdits(ticks: seq<Tick>): seq<Version> {
    if ticks == [] then []
    else AllEdits(ticks[..|ticks| - 1]) + ticks[|ticks| - 1].earlier + ticks[|ticks| - 1].between
  }

  lemma TicksGrow(s: State, ticks: seq<Tick>, i: nat)
    requires Wf(s) && i < |ticks|
    ensures Run(s, AllActions(ticks[..i + 1])) == AfterTick(Run(s, AllActions(ticks[..i])), ticks[i])
    ensures AllEdits(ticks[..i + 1]) == AllEdits(ticks[..i]) + ticks[i].earlier + ticks[i].between
  {
    assert ticks[..i + 1][..i] == ticks[..i];
    RunConcat(s, AllActions(ticks[..i]), TickActions(ticks[i]));
    RunTick(Run(s, AllActions(ticks[..i])), ticks[i]);
  }

  lemma NoTicks(s: State, ticks: seq<Tick>)
    requires Wf(s)
    ensures Run(s, AllActions(ticks[..0])) == s && AllEdits(ticks[..0]) == []
  {
  }

  /** What a tick leaves if it sees a version newer than `initial` and all before it and fails nowhere. */
  ghost predicate InstalledByTick(versions: seq<Version>, tick: Tick, initial: nat, installed: nat, lastMtime: nat)
    requires |versions| > |tick.between|
  {
    var at := |versions| - 1 - |tick.between|;
    tick.earlier != [] && tick.statOk && tick.readable && tick.builds && Good(versions[|versions| - 1])
    && versions[at].mtime > initial && (forall k :: 0 <= k < at ==> versions[k].mtime < versions[at].mtime) ==>
      installed == |versions| - 1 && lastMtime == versions[at].mtime
  }

  /** The remembered mtime is the first one or some version's. */
  ghost predicate Known(versions: seq<Version>, initial: nat, lastMtime: nat) {
    lastMtime == initial || exists k :: 0 <= k < |versions| && versions[k].mtime == lastMtime
  }

  lemma PassInstalls(before: seq<Version>, tick: Tick, initial: nat, remembered: nat, installed: nat, lastMtime: nat,
                     was: nat)
    requires before != [] && Known(before, initial, remembered)
    requires var seen, read := (before + tick.earlier), (before + tick.earlier + tick.between);
             if tick.statOk && seen[|seen| - 1].mtime > remembered && tick.readable && Good(read[|read| - 1])
                && tick.builds
             then installed == |read| - 1 && lastMtime == seen[|seen| - 1].mtime
             else installed == was && lastMtime == remembered
    ensures var read := before + tick.earlier + tick.between;
            InstalledByTick(read, tick, initial, installed, lastMtime) && Known(read, initial, lastMtime)
  {
    var seen, read := before + tick.earlier, before + tick.earlier + tick.between;
    var at := |read| - 1 - |tick.between|;
    assert read[at] == seen[|seen| - 1];
    assert forall k :: 0 <= k < |before| ==> read[k] == before[k];
  }

  /** `reload_loop`, over any number of ticks: the file, the installed version and the remembered
      mtime are those of the corresponding run of the step system. In particular, after any ticks whose
      last sees a version newer than all before it and fails nowhere, the file's last version is installed;
      and ticks that all fail somewhere change nothing. */
  method ReloadLoop(file: ConfigFile, app: AppCell, initialMtime: nat, ticks: seq<Tick>, ghost s: State)
    returns (lastMtime: nat)
    requires Wf(s) && InState(file, app, initialMtime, s)
    modifies file, app
    ensures InState(file, app, lastMtime, Run(s, AllActions(ticks)))
    ensures file.versions == old(file.versions) + AllEdits(ticks)
    ensures ticks != [] ==>
              var last := ticks[|ticks| - 1];
              var at := |file.versions| - 1 - |last.between|;
              last.earlier != [] && last.statOk && last.readable && last.builds
              && file.versions[|file.versions| - 1].parses && file.versions[|file.versions| - 1].validates
              && file.versions[at].mtime > initialMtime
              && (forall k :: 0 <= k < at ==> file.versions[k].mtime < file.versions[at].mtime) ==>
                app.installed == |file.versions| - 1 && lastMtime == file.versions[at].mtime
    ensures (forall k :: 0 <= k < |ticks| ==> !(ticks[k].statOk && ticks[k].readable && ticks[k].builds)) ==>
              app.installed == old(app.installed) && lastMtime == initialMtime
  {
    hide Run, AllActions, AllEdits, AfterTick, Known, InstalledByTick;
    lastMtime := initialMtime;
    ghost var now, first := s, file.versions;
    NoTicks(s, ticks);
    KnownAtFirst(first, initialMtime);
    assert first + [] == first;
    for i := 0 to |ticks|
      invariant Wf(now) && now == Run(s, AllActions(ticks[..i])) && InState(file, app, lastMtime, now)
      invariant file.versions == first + AllEdits(ticks[..i])
      invariant Known(file.versions, initialMtime, lastMtime)
      invariant i > 0 ==> |file.versions| > |ticks[i - 1].between|
                          && InstalledByTick(file.versions, ticks[i - 1], initialMtime, app.installed, lastMtime)
      invariant (forall k :: 0 <= k < i ==> !(ticks[k].statOk && ticks[k].readable && ticks[k].builds)) ==>
                  app.installed == old(app.installed) && lastMtime == initialMtime
    {
      ghost var before, remembered, was := file.versions, lastMtime, app.installed;
      lastMtime := OnePass(file, app, lastMtime, ticks[i], now);
      PassInstalls(before, ticks[i], initialMtime, remembered, app.installed, lastMtime, was);
      TicksGrow(s, ticks, i);
      now := AfterTick(now, ticks[i]);
    }
    assert ticks[..|ticks|] == ticks;
    if ticks != [] {
      InstalledMeans(file.versions, ticks[|ticks| - 1], initialMtime, app.installed, lastMtime);
    }
  }

  lemma KnownAtFirst(versions: seq<Version>, initial: nat)
    ensures Known(versions, initial, initial)
  {
  }

  lemma InstalledMeans(versions: seq<Version>, tick: Tick, initial: nat, installed: nat, lastMtime: nat)
    requires |versions| > |tick.between| && InstalledByTick(versions, tick, initial, installed, lastMtime)
    ensures var at := |versions| - 1 - |tick.between|;
            tick.earlier != [] && tick.statOk && tick.readable && tick.builds
            && versions[|versions| - 1].parses && versions[|versions| - 1].validates
            && versions[at].mtime > initial
            && (forall k :: 0 <= k < at ==> versions[k].mtime < versions[at].mtime) ==>
              installed == |versions| - 1 && lastMtime == versions[at].mtime
  {
  }
}
