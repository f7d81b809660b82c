/** The renewal loop over daily ticks, among the edits and reloads that go on around it: what it leaves on
    disk and installed, by a specification that follows the days, and what an expired certificate means. */
module RenewalDays {
  import opened Prelude
  import opened AcmeProtocol
  import opened Acme
  import opened AcmeRenewal
  import opened Renewal
  import opened Stamps
  import Reload

  // ----- one day, as specified

  /** What one tick meets: the steps of the editor and the reload loop `before` it, whether the configuration
      can be read and has a TLS section, server and disk, the steps of editor and reload loop in the
      `meanwhile` of a provisioning, and whether the new state builds. */
  datatype Day = Day(before: seq<Reload.Action>, readable: bool, hasTls: bool, server: Server, disk: Disk,
                     meanwhile: seq<Reload.Action>, builds: bool)

  /** What there is between ticks: the files, the time `at` which the pair last put in place was stamped,
      whether a lockfile is there, and the loops with what they have installed. */
  datatype Standing = Standing(cert: Option<string>, key: Option<string>, stamp: Option<string>, at: nat,
                               locked: bool, loops: Reload.State)

  /** The loops when the tick comes. */
  function Morning(s: Standing, day: Day): (loops: Reload.State)
    requires Reload.Wf(s.loops)
    ensures Reload.Wf(loops)
  {
    Reload.Run(s.loops, day.before)
  }

  predicate ReadsTls(s: Standing, day: Day)
    requires Reload.Wf(s.loops)
  {
    var loops := Morning(s, day);
    day.readable && loops.versions[Reload.Last(loops)].parses && day.hasTls
  }

  predicate DueAt(s: Standing, parsed: string -> Option<nat>, now: nat) {
    NeedsRenewal(s.cert.Some?, Parsed(s.stamp, parsed), now)
  }

  predicate Tries(s: Standing, day: Day, parsed: string -> Option<nat>, now: nat)
    requires Reload.Wf(s.loops)
  {
    ReadsTls(s, day) && DueAt(s, parsed, now)
  }

  /** How many renames the day comes to: two put a new pair in place. */
  ghost function Renames(s: Standing, day: Day, parsed: string -> Option<nat>, now: nat): (n: nat)
    requires Reload.Wf(s.loops)
    ensures n <= 2
  {
    if Tries(s, day, parsed, now) && !s.locked && day.disk.lock && ServerCooperates(day.server)
    then RenamesOf(day.disk) else 0
  }

  ghost predicate Succeeds(s: Standing, day: Day, parsed: string -> Option<nat>, now: nat)
    requires Reload.Wf(s.loops)
  {
    Renames(s, day, parsed, now) == 2 && day.disk.stampResult.Whole?
  }

  /** The steps of the loops in a tick: the renewal reads, others move while it provisions, it ends. */
  function TickSteps(readable: bool, tried: bool, meanwhile: seq<Reload.Action>, ok: bool, builds: bool)
    : seq<Reload.Action>
  {
    [Reload.RenewalReads(readable)] + (if tried then meanwhile else []) + [Reload.RenewalEnds(ok, builds)]
  }

  /** All steps of the loops in a day. */
  ghost function DaySteps(s: Standing, day: Day, parsed: string -> Option<nat>, now: nat): seq<Reload.Action>
    requires Reload.Wf(s.loops)
  {
    day.before + TickSteps(day.readable, Tries(s, day, parsed, now), day.meanwhile,
                           Succeeds(s, day, parsed, now), day.builds)
  }

  ghost function Next(s: Standing, day: Day, parsed: string -> Option<nat>, now: nat): (t: Standing)
    requires Reload.Wf(s.loops)
    ensures Reload.Wf(t.loops)
  {
    var renamed := Renames(s, day, parsed, now);
    Standing(if renamed == 0 then s.cert else Some(day.server.pair.cert),
             if renamed < 2 then s.key else Some(day.server.pair.key),
             if renamed < 2 then s.stamp else StampAfter(s.stamp, day.disk),
             if renamed < 2 then s.at else Reads(Some(day.disk.stamp), parsed),
             s.locked || (Tries(s, day, parsed, now) && day.disk.lock && !day.disk.removes(0)),
             Reload.Run(s.loops, DaySteps(s, day, parsed, now)))
  }

  /** What there is before tick `k`. */
  ghost function StandingAt(start: nat, first: Standing, days: seq<Day>, parsed: string -> Option<nat>, k: nat)
    : (s: Standing)
    requires Reload.Wf(first.loops) && k <= |days|
    ensures Reload.Wf(s.loops)
  {
    if k == 0 then first
    else Next(StandingAt(start, first, days, parsed, k - 1), days[k - 1], parsed, TickTime(start, k - 1))
  }

  /** When a day tries, in plain terms: a TLS configuration is read and the certificate is missing or sixty days
      past its timestamp. */
  lemma TriesIff(s: Standing, day: Day, parsed: string -> Option<nat>, now: nat)
    requires Reload.Wf(s.loops)
    ensures DueAt(s, parsed, now) <==>
            s.cert.None? || now > (Reads(s.stamp, parsed) + 5_184_000) % 0x1_0000_0000_0000_0000
    ensures var versions := Reload.Run(s.loops, day.before).versions;
            ReadsTls(s, day) <==> day.readable && versions[|versions| - 1].parses && day.hasTls
    ensures Tries(s, day, parsed, now) <==> ReadsTls(s, day) && DueAt(s, parsed, now)
  {
    hide Reload.Run;
  }

  /** When it succeeds, and what it leaves of pair, timestamp and lockfile. */
  lemma DayLeaves(s: Standing, day: Day, parsed: string -> Option<nat>, now: nat)
    requires Reload.Wf(s.loops)
    ensures Succeeds(s, day, parsed, now) <==>
            && Tries(s, day, parsed, now) && !s.locked && day.disk.lock && ServerCooperates(day.server)
            && day.disk.cert.Whole? && day.disk.key.Whole? && day.disk.renameCert && day.disk.renameKey
            && day.disk.stampResult.Whole?
    ensures var first := && Tries(s, day, parsed, now) && !s.locked && day.disk.lock && ServerCooperates(day.server)
                         && day.disk.cert.Whole? && day.disk.key.Whole? && day.disk.renameCert;
            var both := first && day.disk.renameKey;
            var t := Next(s, day, parsed, now);
            && t.cert == (if first then Some(day.server.pair.cert) else s.cert)
            && t.key == (if both then Some(day.server.pair.key) else s.key)
            && t.at == (if both then Reads(Some(day.disk.stamp), parsed) else s.at)
            && (!both || day.disk.stampResult.NotOpened? ==> t.stamp == s.stamp)
            && (both && day.disk.stampResult.Whole? ==> t.stamp == Some(day.disk.stamp))
            && (t.locked <==> s.locked || (Tries(s, day, parsed, now) && day.disk.lock && !day.disk.removes(0)))
  {
    hide Tries, ServerCooperates, Reload.Run, Reads;
  }

  /** And what it leaves installed: the version the tick read if it succeeds and the state builds, and otherwise
      what the others made of it. */
  lemma DayInstalls(s: Standing, day: Day, parsed: string -> Option<nat>, now: nat)
    requires Reload.Wf(s.loops) && s.loops.renewing.None?
    requires Reload.NoRenewal(day.before) && Reload.NoRenewal(day.meanwhile)
    ensures var morning, t := Reload.Run(s.loops, day.before), Next(s, day, parsed, now);
            t.loops == if Succeeds(s, day, parsed, now) && day.builds
                       then Reload.Run(morning, day.meanwhile).(installed := |morning.versions| - 1)
                       else if Tries(s, day, parsed, now) then Reload.Run(morning, day.meanwhile)
                       else morning
  {
    hide ServerCooperates, DueAt, RenamesOf, Reload.Step;
    var morning := Morning(s, day);
    var tries, succeeds := Tries(s, day, parsed, now), Succeeds(s, day, parsed, now);
    OthersKeepRenewing(s.loops, day.before);
    Reload.RunConcat(s.loops, day.before, TickSteps(day.readable, tries, day.meanwhile, succeeds, day.builds));
    TickInstalls(morning, day.readable, tries, day.meanwhile, succeeds, day.builds);
  }

  /** The same for a tick: the renewal reads a version, others move, and it ends. */
  lemma TickInstalls(loops: Reload.State, readable: bool, tried: bool, meanwhile: seq<Reload.Action>, ok: bool,
                     builds: bool)
    requires Reload.Wf(loops) && loops.renewing.None? && Reload.NoRenewal(meanwhile)
    requires tried ==> readable && loops.versions[|loops.versions| - 1].parses
    requires ok ==> tried
    ensures Reload.Run(loops, TickSteps(readable, tried, meanwhile, ok, builds)) ==
            if ok && builds then Reload.Run(loops, meanwhile).(installed := |loops.versions| - 1)
            else if tried then Reload.Run(loops, meanwhile)
            else loops
  {
    hide Reload.Run;
    RunTickSteps(loops, readable, tried, meanwhile, ok, builds);
    OthersKeepRenewing(loops, meanwhile);
    if tried {
      OthersIgnoreRenewing(loops, |loops.versions| - 1, meanwhile);
    } else {
      NothingMoves(Reload.Step(loops, Reload.RenewalReads(readable)));
    }
  }

  lemma NothingMoves(loops: Reload.State)
    requires Reload.Wf(loops)
    ensures Reload.Run(loops, []) == loops
  {
  }

  /** All steps of the loops in the first `k` days. */
  ghost function StepsUntil(start: nat, first: Standing, days: seq<Day>, parsed: string -> Option<nat>, k: nat)
    : seq<Reload.Action>
    requires Reload.Wf(first.loops) && k <= |days|
  {
    if k == 0 then []
    else StepsUntil(start, first, days, parsed, k - 1)
         + DaySteps(StandingAt(start, first, days, parsed, k - 1), days[k - 1], parsed, TickTime(start, k - 1))
  }

  /** What is installed comes about in a run of the loops: every result about such runs applies. */
  lemma {:induction false} LoopsRun(start: nat, first: Standing, days: seq<Day>, parsed: string -> Option<nat>, k: nat)
    requires Reload.Wf(first.loops) && k <= |days|
    ensures StandingAt(start, first, days, parsed, k).loops ==
            Reload.Run(first.loops, StepsUntil(start, first, days, parsed, k))
  {
    if k > 0 {
      LoopsRun(start, first, days, parsed, k - 1);
      Reload.RunConcat(first.loops, StepsUntil(start, first, days, parsed, k - 1),
          DaySteps(StandingAt(start, first, days, parsed, k - 1), days[k - 1], parsed, TickTime(start, k - 1)));
    }
  }

  // ----- one day, in code

  /** Disk and state are as the specification says. */
  ghost predicate Fits(dir: Dir, installed: nat, s: Standing) {
    && At(dir, Cert) == s.cert && At(dir, Key) == s.key && At(dir, IssuedAt) == s.stamp
    && (Lock in dir <==> s.locked)
    && installed == s.loops.installed
  }

  lemma {:induction false} OthersKeepRenewing(loops: Reload.State, steps: seq<Reload.Action>)
    requires Reload.Wf(loops) && Reload.NoRenewal(steps)
    ensures Reload.Run(loops, steps).renewing == loops.renewing
  {
    if steps != [] {
      OthersKeepRenewing(loops, steps[..|steps| - 1]);
      assert steps[|steps| - 1] in steps;
    }
  }

  lemma OtherIgnoresRenewing(loops: Reload.State, version: nat, a: Reload.Action)
    requires Reload.Wf(loops) && version < |loops.versions| && !a.RenewalReads? && !a.RenewalEnds?
    ensures version < |Reload.Step(loops, a).versions|
    ensures Reload.Step(loops.(renewing := Some(version)), a) == Reload.Step(loops, a).(renewing := Some(version))
  {
  }

  /** Nor does what they do depend on whether a renewal is going on. */
  lemma {:induction false} OthersIgnoreRenewing(loops: Reload.State, version: nat, steps: seq<Reload.Action>)
    requires Reload.Wf(loops) && version < |loops.versions| && Reload.NoRenewal(steps)
    ensures version < |Reload.Run(loops, steps).versions|
    ensures Reload.Run(loops.(renewing := Some(version)), steps) ==
            Reload.Run(loops, steps).(renewing := Some(version))
  {
    hide Reload.Step;
    if steps != [] {
      var before, a := steps[..|steps| - 1], steps[|steps| - 1];
      assert a in steps && Reload.NoRenewal(before);
      OthersIgnoreRenewing(loops, version, before);
      OtherIgnoresRenewing(Reload.Run(loops, before), version, a);
    }
  }

  lemma RunTickSteps(loops: Reload.State, readable: bool, tried: bool, meanwhile: seq<Reload.Action>, ok: bool,
                     builds: bool)
    requires Reload.Wf(loops)
    ensures Reload.Run(loops, TickSteps(readable, tried, meanwhile, ok, builds)) ==
            Reload.Step(Reload.Run(Reload.Step(loops, Reload.RenewalReads(readable)), if tried then meanwhile else []),
                        Reload.RenewalEnds(ok, builds))
  {
    var a, b, c := [Reload.RenewalReads(readable)], if tried then meanwhile else [], [Reload.RenewalEnds(ok, builds)];
    Reload.RunConcat(loops, a + b, c);
    Reload.RunConcat(loops, a, b);
    Reload.RunOne(loops, a[0]);
    Reload.RunOne(Reload.Run(loops, a + b), c[0]);
  }

  lemma OkIff(before: Dir, server: Server, disk: Disk)
    ensures RenamesDone(before, server, disk) <= 2
    ensures Lock !in before && disk.lock && ServerCooperates(server)
            && disk.cert.Whole? && disk.key.Whole? && disk.renameCert && disk.renameKey && disk.stampResult.Whole? <==>
            RenamesDone(before, server, disk) == 2 && disk.stampResult.Whole?
  {
  }

  /** A provisioning, while others edit and reload, and the swap after it; `version` is the one that was read. */
  method Renew(cache: CacheDir, store: ChallengeStore, app: Reload.AppCell, day: Day, version: nat,
               loops: Reload.State, ghost s: State)
    returns (ok: bool, after: Reload.State, ghost t: State)
    requires SleepsHold(day.server) && s.pc.Idle? && Matches(cache, store, s) && Inv(s)
    requires Reload.Wf(loops) && loops.renewing == Some(version) && Reload.NoRenewal(day.meanwhile)
    modifies cache, store, app
    ensures Matches(cache, store, t) && t.pc.Idle? && Inv(t) && store.entries == map[]
    ensures ok <==> RenamesDone(old(cache.files), day.server, day.disk) == 2 && day.disk.stampResult.Whole?
    ensures app.installed == if ok && day.builds then version else Reload.Run(loops, day.meanwhile).installed
    ensures LeftBy(RenamesDone(old(cache.files), day.server, day.disk), day.server.pair, day.disk,
                   old(cache.files), cache.files)
    ensures Lock in cache.files <==> Lock in old(cache.files) || (day.disk.lock && !day.disk.removes(0))
    ensures Reload.Wf(after) && after.renewing.None? && app.installed == after.installed
    ensures after == Reload.Step(Reload.Run(loops, day.meanwhile), Reload.RenewalEnds(ok, day.builds))
  {
    hide Inv, LeftBy, RenamesDone, ServerCooperates, DiskWorks, Run;
    OkIff(cache.files, day.server, day.disk);
    ghost var actions;
    ok, t, actions := ProvisionWithStore(cache, store, day.server, day.disk, s);
    OthersKeepRenewing(loops, day.meanwhile);
    after := Reload.Run(loops, day.meanwhile);
    app.installed := after.installed;
    if ok && day.builds {
      app.installed := version;
    }
    after := Reload.Step(after, Reload.RenewalEnds(ok, day.builds));
  }

  /** One tick of `renewal_loop` with a challenge store, while others may edit and reload. It tries when it
      reads a TLS configuration and the certificate is due; files and loops are then as the renames it comes
      to and the steps of the two loops leave them. */
  method RenewalTick(cache: CacheDir, store: ChallengeStore, app: Reload.AppCell, day: Day, now: nat,
                     parsed: string -> Option<nat>, loops: Reload.State, ghost s: State)
    returns (tried: bool, ok: bool, after: Reload.State, ghost renamed: nat, ghost t: State)
    requires SleepsHold(day.server) && s.pc.Idle? && Matches(cache, store, s) && Inv(s)
    requires Reload.Wf(loops) && loops.renewing.None? && app.installed == loops.installed
    requires Reload.NoRenewal(day.meanwhile)
    modifies cache, store, app
    ensures Matches(cache, store, t) && t.pc.Idle? && Inv(t) && store.entries == map[]
    ensures tried <==> && day.readable && loops.versions[|loops.versions| - 1].parses && day.hasTls
                       && (Cert !in old(cache.files)
                           || now > (Reads(At(old(cache.files), IssuedAt), parsed) + 5_184_000)
                                    % 0x1_0000_0000_0000_0000)
    ensures ok <==> && tried && Lock !in old(cache.files) && day.disk.lock && ServerCooperates(day.server)
                    && day.disk.cert.Whole? && day.disk.key.Whole? && day.disk.renameCert && day.disk.renameKey
                    && day.disk.stampResult.Whole?
    ensures app.installed == if ok && day.builds then |loops.versions| - 1
                             else if tried then Reload.Run(loops, day.meanwhile).installed
                             else loops.installed
    ensures renamed == (if tried then RenamesDone(old(cache.files), day.server, day.disk) else 0)
    ensures ok <==> renamed == 2 && day.disk.stampResult.Whole?
    ensures LeftBy(renamed, day.server.pair, day.disk, old(cache.files), cache.files)
    ensures Lock in cache.files <==> Lock in old(cache.files) || (tried && day.disk.lock && !day.disk.removes(0))
    ensures Reload.Wf(after) && after.renewing.None? && app.installed == after.installed
    ensures after == Reload.Run(loops, TickSteps(day.readable, tried, day.meanwhile, ok, day.builds))
  {
    hide Inv, LeftBy, RenamesDone;
    StoreIsEmpty(s);
    NothingIsLeft(cache.files, day.server.pair, day.disk);
    t, renamed, tried, ok := s, 0, false, false;
    var version := Reload.Last(loops);
    after := Reload.Step(loops, Reload.RenewalReads(day.readable));
    if day.readable && loops.versions[version].parses && day.hasTls {
      tried := cache.CertNeedsRenewal(now, parsed);
    }
    if tried {
      renamed := RenamesDone(cache.files, day.server, day.disk);
      OkIff(cache.files, day.server, day.disk);
      OthersIgnoreRenewing(loops, version, day.meanwhile);
      ok, after, t := Renew(cache, store, app, day, version, after, s);
    } else {
      after := Reload.Step(after, Reload.RenewalEnds(false, day.builds));
    }
    RunTickSteps(loops, day.readable, tried, day.meanwhile, ok, day.builds);
  }

  lemma StoreIsEmpty(s: State)
    requires Inv(s) && s.pc.Idle?
    ensures s.store == map[]
  {
  }

  /** The tick's contract is the day's specification. */
  lemma DayFits(s: Standing, day: Day, parsed: string -> Option<nat>, now: nat, tried: bool, ok: bool, renamed: nat,
                before: Dir, dir: Dir, morning: Reload.State, after: Reload.State)
    requires Reload.Wf(s.loops) && morning == Morning(s, day) && Fits(before, s.loops.installed, s)
    requires tried <==> day.readable && morning.versions[Reload.Last(morning)].parses && day.hasTls
                        && IsDue(before, parsed, now)
    requires renamed == if tried then RenamesDone(before, day.server, day.disk) else 0
    requires ok <==> renamed == 2 && day.disk.stampResult.Whole?
    requires LeftBy(renamed, day.server.pair, day.disk, before, dir)
    requires Lock in dir <==> Lock in before || (tried && day.disk.lock && !day.disk.removes(0))
    requires after == Reload.Run(morning, TickSteps(day.readable, tried, day.meanwhile, ok, day.builds))
    ensures tried <==> Tries(s, day, parsed, now)
    ensures renamed == Renames(s, day, parsed, now) && (ok <==> Succeeds(s, day, parsed, now))
    ensures Fits(dir, after.installed, Next(s, day, parsed, now)) && after == Next(s, day, parsed, now).loops
  {
    Reload.RunConcat(s.loops, day.before, TickSteps(day.readable, tried, day.meanwhile, ok, day.builds));
  }

  /** One day: others move, and then the tick comes. */
  method OneDay(cache: CacheDir, store: ChallengeStore, app: Reload.AppCell, day: Day, now: nat,
                parsed: string -> Option<nat>, loops: Reload.State, ghost standing: Standing, ghost s: State)
    returns (tried: bool, ok: bool, after: Reload.State, ghost t: State)
    requires SleepsHold(day.server) && s.pc.Idle? && Matches(cache, store, s) && Inv(s)
    requires Reload.Wf(loops) && loops.renewing.None? && loops == standing.loops
    requires Fits(cache.files, app.installed, standing)
    requires Reload.NoRenewal(day.before) && Reload.NoRenewal(day.meanwhile)
    modifies cache, store, app
    ensures Matches(cache, store, t) && t.pc.Idle? && Inv(t) && store.entries == map[]
    ensures tried <==> Tries(standing, day, parsed, now)
    ensures ok <==> Succeeds(standing, day, parsed, now)
    ensures Fits(cache.files, app.installed, Next(standing, day, parsed, now))
    ensures after == Next(standing, day, parsed, now).loops && after.renewing.None?
  {
    hide Inv, LeftBy, RenamesDone, ServerCooperates;
    OthersKeepRenewing(loops, day.before);
    var morning := Reload.Run(loops, day.before);
    app.installed := morning.installed;
    ghost var renamed;
    tried, ok, after, renamed, t := RenewalTick(cache, store, app, day, now, parsed, morning, s);
    DayFits(standing, day, parsed, now, tried, ok, renamed, old(cache.files), cache.files, morning, after);
  }

  // ----- the loop

  predicate OnlyOthersMove(days: seq<Day>) {
    forall k :: 0 <= k < |days| ==> Reload.NoRenewal(days[k].before) && Reload.NoRenewal(days[k].meanwhile)
  }

  /** Tick `k` tries, and succeeds, as said. */
  ghost predicate TickIs(start: nat, first: Standing, days: seq<Day>, parsed: string -> Option<nat>, k: nat,
                         try: bool, ok: bool)
    requires Reload.Wf(first.loops) && k < |days|
  {
    var standing := StandingAt(start, first, days, parsed, k);
    && (try <==> Tries(standing, days[k], parsed, start + k * 86_400))
    && (ok <==> Succeeds(standing, days[k], parsed, start + k * 86_400))
  }

  /** The days follow one another from `first`, a day apart. */
  lemma StandingMoves(start: nat, first: Standing, days: seq<Day>, parsed: string -> Option<nat>, k: nat)
    requires Reload.Wf(first.loops) && k < |days|
    ensures StandingAt(start, first, days, parsed, 0) == first
    ensures StandingAt(start, first, days, parsed, k + 1) ==
            Next(StandingAt(start, first, days, parsed, k), days[k], parsed, start + k * 86_400)
  {
  }

  lemma NoDays(start: nat, first: Standing, days: seq<Day>, parsed: string -> Option<nat>)
    requires Reload.Wf(first.loops)
    ensures StandingAt(start, first, days, parsed, 0) == first
  {
  }

  lemma ThisTickIs(start: nat, first: Standing, days: seq<Day>, parsed: string -> Option<nat>, k: nat,
                   try: bool, ok: bool)
    requires Reload.Wf(first.loops) && k < |days|
    requires try <==> Tries(StandingAt(start, first, days, parsed, k), days[k], parsed, TickTime(start, k))
    requires ok <==> Succeeds(StandingAt(start, first, days, parsed, k), days[k], parsed, TickTime(start, k))
    ensures TickIs(start, first, days, parsed, k, try, ok)
  {
  }

  /** `renewal_loop` over daily ticks from `start`, whatever the server and the disk do each day and whatever
      is edited and reloaded around it: each tick tries, and succeeds, exactly when the specification says so,
      and files and installed version are the specified ones. `first` is what there is at the beginning. */
  method RenewalLoop(cache: CacheDir, store: ChallengeStore, app: Reload.AppCell, start: nat,
                     parsed: string -> Option<nat>, days: seq<Day>, loops: Reload.State, ghost first: Standing,
                     ghost s: State)
    returns (tried: seq<bool>, oks: seq<bool>, after: Reload.State, ghost t: State)
    requires forall k :: 0 <= k < |days| ==> SleepsHold(days[k].server)
    requires s.pc.Idle? && Matches(cache, store, s) && Inv(s)
    requires Reload.Wf(loops) && loops.renewing.None? && loops == first.loops
    requires Fits(cache.files, app.installed, first) && OnlyOthersMove(days)
    modifies cache, store, app
    ensures Matches(cache, store, t) && t.pc.Idle? && Inv(t) && store.entries == map[]
    ensures |tried| == |oks| == |days|
    ensures forall k :: 0 <= k < |days| ==> TickIs(start, first, days, parsed, k, tried[k], oks[k])
    ensures Fits(cache.files, app.installed, StandingAt(start, first, days, parsed, |days|))
    ensures after == StandingAt(start, first, days, parsed, |days|).loops
  {
    hide Inv, Fits, TickIs, Next, StandingAt;
    tried, oks, after, t := [], [], loops, s;
    StoreIsEmpty(s);
    NoDays(start, first, days, parsed);
    for i := 0 to |days|
      invariant Matches(cache, store, t) && t.pc.Idle? && Inv(t) && store.entries == map[]
      invariant Reload.Wf(after) && after.renewing.None? && after == StandingAt(start, first, days, parsed, i).loops
      invariant Fits(cache.files, app.installed, StandingAt(start, first, days, parsed, i))
      invariant |tried| == |oks| == i
      invariant forall k :: 0 <= k < i ==> TickIs(start, first, days, parsed, k, tried[k], oks[k])
    {
      ghost var standing := StandingAt(start, first, days, parsed, i);
      var try, ok;
      try, ok, after, t := OneDay(cache, store, app, days[i], TickTime(start, i), parsed, after, standing, t);
      StandingMoves(start, first, days, parsed, i);
      ThisTickIs(start, first, days, parsed, i, try, ok);
      tried, oks := tried + [try], oks + [ok];
    }
  }

  // ----- what an expired certificate means

  /** Nothing is in the way of a renewal. */
  ghost predicate Ready(s: Standing, day: Day)
    requires Reload.Wf(s.loops)
  {
    && ReadsTls(s, day) && !s.locked && day.disk.lock && ServerCooperates(day.server) && RenamesOf(day.disk) == 2
  }

  /** A new pair is put in place exactly at the ticks that find the certificate due and nothing in the way: a TLS
      configuration is read, no lockfile is there, one can be written, the server cooperates, the disk works. */
  lemma RenewsIff(s: Standing, day: Day, parsed: string -> Option<nat>, now: nat)
    requires Reload.Wf(s.loops)
    ensures Renames(s, day, parsed, now) == 2 <==> DueAt(s, parsed, now) && Ready(s, day)
    ensures Ready(s, day) <==>
            && ReadsTls(s, day) && !s.locked && day.disk.lock && ServerCooperates(day.server)
            && day.disk.cert.Whole? && day.disk.key.Whole? && day.disk.renameCert && day.disk.renameKey
  {
    hide ReadsTls, ServerCooperates, DueAt;
  }

  /** What the timestamp file reads after its write, if that touches it. */
  function RecordedBy(disk: Disk, parsed: string -> Option<nat>): Option<nat> {
    match disk.stampResult
    case Whole => Some(Reads(Some(disk.stamp), parsed))
    case NotOpened => None
    case Torn(length) => Some(Reads(Some(Prefix(disk.stamp, length)), parsed))
  }

  /** The day as an attempt: whether it put a new pair in place, at the time of its stamp. */
  ghost function AttemptOf(s: Standing, day: Day, parsed: string -> Option<nat>, now: nat): Attempt
    requires Reload.Wf(s.loops)
  {
    if Renames(s, day, parsed, now) == 2
    then Issued(Reads(Some(day.disk.stamp), parsed), RecordedBy(day.disk, parsed)) else Attempt.Failed
  }

  ghost function Attempts(start: nat, first: Standing, days: seq<Day>, parsed: string -> Option<nat>): nat -> Attempt
    requires Reload.Wf(first.loops)
  {
    (k: nat) =>
      if k < |days| then AttemptOf(StandingAt(start, first, days, parsed, k), days[k], parsed, TickTime(start, k))
      else Attempt.Failed
  }

  function IssueOf(s: Standing, parsed: string -> Option<nat>): Issue {
    Issue(s.at, Reads(s.stamp, parsed))
  }

  lemma DayIssues(s: Standing, day: Day, parsed: string -> Option<nat>, start: nat, k: nat)
    requires Reload.Wf(s.loops) && s.cert.Some?
    ensures var now := TickTime(start, k);
            && Next(s, day, parsed, now).cert.Some?
            && IssueOf(Next(s, day, parsed, now), parsed) ==
               if Due(start, k, IssueOf(s, parsed))
               then After(IssueOf(s, parsed), AttemptOf(s, day, parsed, now)) else IssueOf(s, parsed)
  {
    assert Due(start, k, IssueOf(s, parsed)) <==> DueAt(s, parsed, TickTime(start, k));
  }

  /** What is on disk is what the timing results follow. */
  lemma {:induction false} IssueFollows(start: nat, first: Standing, days: seq<Day>, parsed: string -> Option<nat>,
                                        k: nat)
    requires Reload.Wf(first.loops) && first.cert.Some? && k <= |days|
    ensures var s := StandingAt(start, first, days, parsed, k);
            && s.cert.Some?
            && IssueOf(s, parsed) ==
               IssuedBefore(start, IssueOf(first, parsed), Attempts(start, first, days, parsed), k)
  {
    hide Next, AttemptOf, Due;
    if k > 0 {
      IssueFollows(start, first, days, parsed, k - 1);
      DayIssues(StandingAt(start, first, days, parsed, k - 1), days[k - 1], parsed, start, k - 1);
    }
  }

  /** Clocks make sense: what is recorded at first is no later than the time of issue, and each tick's stamp is
      a time in digits no earlier than the tick. */
  ghost predicate ClocksHold(start: nat, first: Issue, days: seq<Day>, parsed: string -> Option<nat>) {
    && ReadsDecimal(parsed) && first.recorded <= first.at < U64 / 2 && TickTime(start, |days|) < U64 / 2
    && forall k :: 0 <= k < |days| ==>
         exists at: nat :: TickTime(start, k) <= at < U64 / 2 && days[k].disk.stamp == Digits(at)
  }

  lemma AttemptsArePlausible(start: nat, first: Standing, days: seq<Day>, parsed: string -> Option<nat>)
    requires Reload.Wf(first.loops) && ClocksHold(start, IssueOf(first, parsed), days, parsed)
    ensures Plausible(start, IssueOf(first, parsed), Attempts(start, first, days, parsed), |days|)
  {
    var attempts := Attempts(start, first, days, parsed);
    forall k | 0 <= k < |days| && attempts(k).Issued?
      ensures TickTime(start, k) <= attempts(k).at < U64 / 2
      ensures attempts(k).recorded.Some? ==> attempts(k).recorded.value <= attempts(k).at
    {
      var at: nat :| TickTime(start, k) <= at < U64 / 2 && days[k].disk.stamp == Digits(at);
      RecordedIsNotLater(days[k].disk, at, parsed);
    }
  }

  lemma RecordedIsNotLater(disk: Disk, at: nat, parsed: string -> Option<nat>)
    requires ReadsDecimal(parsed) && at < U64 && disk.stamp == Digits(at)
    ensures Reads(Some(disk.stamp), parsed) == at
    ensures RecordedBy(disk, parsed).Some? ==> RecordedBy(disk, parsed).value <= at
  {
    DigitsReadEarlier(at, parsed);
    if disk.stampResult.Torn? {
      assert Reads(Some(Prefix(disk.stamp, disk.stampResult.length)), parsed) <= Reads(Some(disk.stamp), parsed);
    }
  }

  /** The pair last put in place is older than ninety days before tick `n`, and the loop has been running since
      before its sixtieth. */
  predicate Expired(start: nat, s: Standing, n: nat) {
    start <= s.at + 60 * 86_400 && start + n * 86_400 > s.at + 90 * 86_400
  }

  /** Tick `j` found the certificate due, with the same pair in place as after all the days, and something in
      the way of a renewal. */
  ghost predicate Blocked(start: nat, first: Standing, days: seq<Day>, parsed: string -> Option<nat>, j: nat)
    requires Reload.Wf(first.loops) && j < |days|
  {
    var s, last := StandingAt(start, first, days, parsed, j), StandingAt(start, first, days, parsed, |days|);
    IssueOf(s, parsed) == IssueOf(last, parsed) && DueAt(s, parsed, TickTime(start, j)) && !Ready(s, days[j])
  }

  lemma FailedIsBlocked(s: Standing, day: Day, parsed: string -> Option<nat>, start: nat, k: nat)
    requires Reload.Wf(s.loops) && s.cert.Some?
    requires Due(start, k, IssueOf(s, parsed)) && AttemptOf(s, day, parsed, TickTime(start, k)).Failed?
    ensures DueAt(s, parsed, TickTime(start, k)) && !Ready(s, day)
  {
    RenewsIff(s, day, parsed, TickTime(start, k));
  }

  lemma LateTickIsBlocked(start: nat, first: Standing, days: seq<Day>, parsed: string -> Option<nat>, j: nat)
    requires Reload.Wf(first.loops) && first.cert.Some? && ClocksHold(start, IssueOf(first, parsed), days, parsed)
    requires j < |days| && TickTime(start, j) > StandingAt(start, first, days, parsed, |days|).at + RENEW_AFTER
    ensures Blocked(start, first, days, parsed, j)
  {
    hide StandingAt, AttemptOf, Ready, DueAt, Due, ClocksHold;
    AttemptsArePlausible(start, first, days, parsed);
    IssueFollows(start, first, days, parsed, |days|);
    IssueFollows(start, first, days, parsed, j);
    DueTicksFailed(start, IssueOf(first, parsed), Attempts(start, first, days, parsed), |days|, j);
    FailedIsBlocked(StandingAt(start, first, days, parsed, j), days[j], parsed, start, j);
  }

  /** If the certificate is older than ninety days after all the days, then on each of the thirty days from
      its sixtieth on a tick found it due, with the same pair in place, and something was in the way. */
  lemma ExpiryTakesThirtyBlockedTicks(start: nat, first: Standing, days: seq<Day>, parsed: string -> Option<nat>)
    requires Reload.Wf(first.loops) && first.cert.Some? && ClocksHold(start, IssueOf(first, parsed), days, parsed)
    requires Expired(start, StandingAt(start, first, days, parsed, |days|), |days|)
    ensures var from := FirstAfter(start, StandingAt(start, first, days, parsed, |days|).at + 60 * 86_400);
            from + 30 <= |days| && forall j :: from <= j < from + 30 ==> Blocked(start, first, days, parsed, j)
  {
    hide StandingAt, Blocked, ClocksHold;
    var due := StandingAt(start, first, days, parsed, |days|).at + RENEW_AFTER;
    var from := FirstAfter(start, due);
    ThirtyTicks(start, due, from + 29);
    TicksAscend(start, |days|, from + 29);
    forall j | from <= j < from + 30
      ensures Blocked(start, first, days, parsed, j)
    {
      ThirtyTicks(start, due, j);
      LateTickIsBlocked(start, first, days, parsed, j);
    }
  }

  /** A lockfile once left behind stops every later renewal, so that the pair in place grows old. */
  lemma {:induction false} LeftLockEndsRenewal(start: nat, first: Standing, days: seq<Day>,
                                               parsed: string -> Option<nat>, j: nat, k: nat)
    requires Reload.Wf(first.loops) && j <= k <= |days| && StandingAt(start, first, days, parsed, j).locked
    ensures var s, t := StandingAt(start, first, days, parsed, j), StandingAt(start, first, days, parsed, k);
            t.locked && t.cert == s.cert && t.key == s.key && t.stamp == s.stamp && t.at == s.at
  {
    if j < k {
      LeftLockEndsRenewal(start, first, days, parsed, j, k - 1);
    }
  }
}
