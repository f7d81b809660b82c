/** Whole runs of editor, reload loop and renewal loop: which version each of them holds, and when an
    update is lost, by the order in which things happened. */
module ReloadRuns {
  import opened Prelude
  import opened Reload

  // ----- what happened in a run

  datatype Event = Edited | Looked | Reloaded | RenewalRead | Renewed

  /** What an action that has an effect amounts to. */
  function Happened(s: State, a: Action): seq<Event>
    requires Wf(s)
  {
    match a
    case Edit(_) => [Edited]
    case Stat(_) => if Step(s, a) != s then [Looked] else []
    case TryReload(readable, builds) => if Reloads(s, readable, builds) then [Reloaded] else []
    case RenewalReads(_) => if Step(s, a) != s then [RenewalRead] else []
    case RenewalEnds(provisioned, builds) => if s.renewing.Some? && provisioned && builds then [Renewed] else []
  }

  function Trace(s: State, actions: seq<Action>): seq<Event>
    requires Wf(s)
  {
    if actions == [] then []
    else Trace(s, actions[..|actions| - 1]) + Happened(Run(s, actions[..|actions| - 1]), actions[|actions| - 1])
  }

  /** The position of the last `e` in the trace, or -1. */
  function LastOf(trace: seq<Event>, e: Event): (k: int)
    ensures -1 <= k < |trace|
    ensures k >= 0 ==> trace[k] == e
  {
    if trace == [] then -1
    else if trace[|trace| - 1] == e then |trace| - 1
    else LastOf(trace[..|trace| - 1], e)
  }

  /** The position of the last `e` before the last `end`, or -1. */
  function LastBefore(trace: seq<Event>, e: Event, end: Event): (k: int)
    ensures -1 <= k < |trace|
  {
    var n := LastOf(trace, end);
    if n < 0 then -1 else LastOf(trace[..n], e)
  }

  lemma TraceGrows(trace: seq<Event>, e: Event)
    ensures forall x :: LastOf(trace + [e], x) == if x == e then |trace| else LastOf(trace, x)
    ensures forall x, end ::
              LastBefore(trace + [e], x, end) == if end == e then LastOf(trace, x) else LastBefore(trace, x, end)
  {
    var longer := trace + [e];
    assert longer[..|trace|] == trace;
    forall x, end
      ensures LastBefore(longer, x, end) == if end == e then LastOf(trace, x) else LastBefore(trace, x, end)
    {
      if end != e && LastOf(trace, end) >= 0 {
        assert longer[..LastOf(trace, end)] == trace[..LastOf(trace, end)];
      }
    }
  }

  // ----- which version is where, by the order of events

  /** How many edits a trace holds. */
  function EditsIn(trace: seq<Event>): nat {
    if trace == [] then 0
    else EditsIn(trace[..|trace| - 1]) + if trace[|trace| - 1] == Edited then 1 else 0
  }

  /** The index of the version the file ended with at position `k` of the trace, if it had been
      through `n` versions when the trace began. */
  function FileAt(n: nat, trace: seq<Event>, k: int): nat
    requires n > 0 && k <= |trace|
  {
    n - 1 + if k < 0 then 0 else EditsIn(trace[..k])
  }

  /** An edit from `j` on and before `k` is what makes the file differ. */
  lemma {:induction false} FileMoves(n: nat, trace: seq<Event>, j: int, k: int)
    requires n > 0 && -1 <= j <= k && 0 <= k <= |trace|
    ensures FileAt(n, trace, j) <= FileAt(n, trace, k)
    ensures j >= 0 ==> (FileAt(n, trace, j) < FileAt(n, trace, k) <==> j <= LastOf(trace[..k], Edited))
    ensures FileAt(n, trace, k) > n - 1 <==> LastOf(trace[..k], Edited) >= 0
    decreases k
  {
    if k > 0 {
      assert trace[..k][..k - 1] == trace[..k - 1];
      if j < k {
        FileMoves(n, trace, j, k - 1);
      } else {
        FileMoves(n, trace, j - 1, k - 1);
      }
    }
  }

  /** The version installed, by who installed it last: none since startup, the reload loop, which
      installs what the file ends with, or the renewal loop, which installs what it had read. */
  function InstalledBy(n: nat, read: nat, trace: seq<Event>): nat
    requires n > 0
  {
    var reloaded, renewed := LastOf(trace, Reloaded), LastOf(trace, Renewed);
    if reloaded < 0 && renewed < 0 then read
    else if renewed < reloaded then FileAt(n, trace, reloaded)
    else FileAt(n, trace, LastBefore(trace, RenewalRead, Renewed))
  }

  /** A renewal in progress holds the version the file had when it began. */
  ghost predicate RenewalFits(s: State, trace: seq<Event>, n: nat)
    requires n > 0
  {
    s.renewing.Some? ==>
      && LastOf(trace, Renewed) < LastOf(trace, RenewalRead)
      && s.renewing.value == FileAt(n, trace, LastOf(trace, RenewalRead)) < |s.versions|
      && s.versions[s.renewing.value].parses
  }

  /** A reload about to be tried has the mtime of the version the file had at its stat. */
  ghost predicate LookFits(s: State, trace: seq<Event>, n: nat)
    requires n > 0
  {
    s.pc.Stated? ==>
      && LastOf(trace, Looked) >= 0 && FileAt(n, trace, LastOf(trace, Looked)) < |s.versions|
      && s.pc.mtime == s.versions[FileAt(n, trace, LastOf(trace, Looked))].mtime
  }

  /** The mtime remembered is that of the version the file had at the stat of the last reload. */
  ghost predicate MemoryFits(s: State, trace: seq<Event>, n: nat, atStart: nat)
    requires n > 0
  {
    if LastOf(trace, Reloaded) < 0 then s.lastMtime == atStart
    else
      var seen := FileAt(n, trace, LastBefore(trace, Looked, Reloaded));
      && LastBefore(trace, Looked, Reloaded) >= 0
      && seen < |s.versions| && s.lastMtime == s.versions[seen].mtime
  }

  /** What is installed is known from the order of events, and validated if the reload loop did it. */
  ghost predicate InstallFits(s: State, trace: seq<Event>, n: nat, read: nat)
    requires n > 0
  {
    var reloaded := LastOf(trace, Reloaded);
    && s.installed == InstalledBy(n, read, trace) < |s.versions|
    && (LastOf(trace, Renewed) >= 0 ==> LastBefore(trace, RenewalRead, Renewed) >= 0)
    && (LastOf(trace, Renewed) > reloaded ==> s.versions[s.installed].parses)
    && (0 <= reloaded && LastOf(trace, Renewed) < reloaded ==> Good(s.versions[s.installed]))
  }

  /** What every run keeps: each version the loops hold is known from the order of events. */
  ghost predicate Inv(s: State, trace: seq<Event>, versions: seq<Version>, read: nat, statOk: bool)
    requires read < |versions|
  {
    && Wf(s) && versions <= s.versions && Last(s) == FileAt(|versions|, trace, |trace|)
    && RenewalFits(s, trace, |versions|) && LookFits(s, trace, |versions|)
    && MemoryFits(s, trace, |versions|, Startup(versions, read, statOk).lastMtime)
    && InstallFits(s, trace, |versions|, read)
  }

  /** One event more moves the file's end when it is an edit, and no position before it. */
  lemma FileAtGrows(n: nat, trace: seq<Event>, e: Event)
    requires n > 0
    ensures forall k :: k <= |trace| ==> FileAt(n, trace + [e], k) == FileAt(n, trace, k)
    ensures FileAt(n, trace + [e], |trace| + 1) == FileAt(n, trace, |trace|) + if e == Edited then 1 else 0
  {
    forall k | 0 <= k <= |trace|
      ensures (trace + [e])[..k] == trace[..k]
    {
    }
    assert (trace + [e])[..|trace| + 1] == trace + [e];
    assert trace[..|trace|] == trace;
  }

  lemma EditKeepsInv(s: State, v: Version, trace: seq<Event>, versions: seq<Version>, read: nat, statOk: bool)
    requires read < |versions| && Inv(s, trace, versions, read, statOk)
    ensures Inv(Step(s, Edit(v)), trace + [Edited], versions, read, statOk)
  {
    TraceGrows(trace, Edited);
    FileAtGrows(|versions|, trace, Edited);
  }

  lemma LookKeepsInv(s: State, a: Action, trace: seq<Event>, versions: seq<Version>, read: nat, statOk: bool)
    requires read < |versions| && Inv(s, trace, versions, read, statOk) && Happened(s, a) == [Looked]
    ensures Inv(Step(s, a), trace + [Looked], versions, read, statOk)
  {
    TraceGrows(trace, Looked);
    FileAtGrows(|versions|, trace, Looked);
  }

  lemma ReloadKeepsInv(s: State, a: Action, trace: seq<Event>, versions: seq<Version>, read: nat, statOk: bool)
    requires read < |versions| && Inv(s, trace, versions, read, statOk) && Happened(s, a) == [Reloaded]
    ensures Inv(Step(s, a), trace + [Reloaded], versions, read, statOk)
  {
    TraceGrows(trace, Reloaded);
    FileAtGrows(|versions|, trace, Reloaded);
  }

  lemma ReadKeepsInv(s: State, a: Action, trace: seq<Event>, versions: seq<Version>, read: nat, statOk: bool)
    requires read < |versions| && Inv(s, trace, versions, read, statOk) && Happened(s, a) == [RenewalRead]
    ensures Inv(Step(s, a), trace + [RenewalRead], versions, read, statOk)
  {
    TraceGrows(trace, RenewalRead);
    FileAtGrows(|versions|, trace, RenewalRead);
  }

  lemma RenewalKeepsInv(s: State, a: Action, trace: seq<Event>, versions: seq<Version>, read: nat, statOk: bool)
    requires read < |versions| && Inv(s, trace, versions, read, statOk) && Happened(s, a) == [Renewed]
    ensures Inv(Step(s, a), trace + [Renewed], versions, read, statOk)
  {
    TraceGrows(trace, Renewed);
    FileAtGrows(|versions|, trace, Renewed);
  }

  lemma StepKeepsInv(s: State, a: Action, trace: seq<Event>, versions: seq<Version>, read: nat, statOk: bool)
    requires read < |versions| && Inv(s, trace, versions, read, statOk)
    ensures Inv(Step(s, a), trace + Happened(s, a), versions, read, statOk)
  {
    if Happened(s, a) == [] {
      assert trace + [] == trace;
    } else {
      match a
      case Edit(v) => EditKeepsInv(s, v, trace, versions, read, statOk);
      case Stat(_) => LookKeepsInv(s, a, trace, versions, read, statOk);
      case TryReload(_, _) => ReloadKeepsInv(s, a, trace, versions, read, statOk);
      case RenewalReads(_) => ReadKeepsInv(s, a, trace, versions, read, statOk);
      case RenewalEnds(_, _) => RenewalKeepsInv(s, a, trace, versions, read, statOk);
    }
  }

  lemma {:induction false} RunKeepsInv(versions: seq<Version>, read: nat, statOk: bool, actions: seq<Action>)
    requires read < |versions|
    ensures var start := Startup(versions, read, statOk);
            Inv(Run(start, actions), Trace(start, actions), versions, read, statOk)
  {
    var start := Startup(versions, read, statOk);
    if actions != [] {
      var front := actions[..|actions| - 1];
      RunKeepsInv(versions, read, statOk, front);
      StepKeepsInv(Run(start, front), actions[|actions| - 1], Trace(start, front), versions, read, statOk);
    }
  }

  // ----- when an update is lost

  /** Startup built from a version the file had left before the first stat, and nothing has been
      edited or installed since. */
  predicate StartupGap(trace: seq<Event>, versions: seq<Version>, read: nat, statOk: bool) {
    && statOk && read < |versions| - 1
    && LastOf(trace, Edited) < 0 && LastOf(trace, Reloaded) < 0 && LastOf(trace, Renewed) < 0
  }

  /** The last install is a renewal's, and between its reading of the configuration and its end came,
      in this order, the last edit of all, a stat that saw it, and the reload. */
  predicate Overtaken(trace: seq<Event>) {
    && LastOf(trace, Reloaded) < LastOf(trace, Renewed)
    && LastBefore(trace, RenewalRead, Renewed) < LastOf(trace, Edited) < LastBefore(trace, Looked, Reloaded)
  }

  /** The remembered mtime is the file's last one exactly when no edit came after the stat of the
      last reload, or after startup's own if there was no reload. */
  lemma RememberedIsLastIff(s: State, trace: seq<Event>, versions: seq<Version>, read: nat, statOk: bool)
    requires read < |versions| && Inv(s, trace, versions, read, statOk) && Increasing(s.versions)
    ensures s.versions[Last(s)].mtime <= s.lastMtime <==>
            if LastOf(trace, Reloaded) < 0 then statOk && LastOf(trace, Edited) < 0
            else LastOf(trace, Edited) < LastBefore(trace, Looked, Reloaded)
  {
    assert trace[..|trace|] == trace;
    FileMoves(|versions|, trace, LastBefore(trace, Looked, Reloaded), |trace|);
    assert versions[|versions| - 1] == s.versions[|versions| - 1];
  }

  /** What is installed is the file's last version exactly when no edit came after the last
      installer's reading. */
  lemma InstalledIsLastIff(s: State, trace: seq<Event>, versions: seq<Version>, read: nat, statOk: bool)
    requires read < |versions| && Inv(s, trace, versions, read, statOk)
    ensures var edited, reloaded, renewed := LastOf(trace, Edited), LastOf(trace, Reloaded), LastOf(trace, Renewed);
            s.installed == Last(s) <==>
            if reloaded < 0 && renewed < 0 then read == |versions| - 1 && edited < 0
            else if renewed < reloaded then edited < reloaded
            else edited < LastBefore(trace, RenewalRead, Renewed)
  {
    assert trace[..|trace|] == trace;
    FileMoves(|versions|, trace, LastOf(trace, Reloaded), |trace|);
    FileMoves(|versions|, trace, LastBefore(trace, RenewalRead, Renewed), |trace|);
  }

  /** The two orders of events, from what every run keeps. */
  lemma LostIff(s: State, trace: seq<Event>, versions: seq<Version>, read: nat, statOk: bool)
    requires read < |versions| && Inv(s, trace, versions, read, statOk) && Increasing(s.versions)
    ensures s.installed != Last(s) && s.versions[Last(s)].mtime <= s.lastMtime <==>
            StartupGap(trace, versions, read, statOk) || Overtaken(trace)
  {
    RememberedIsLastIff(s, trace, versions, read, statOk);
    InstalledIsLastIff(s, trace, versions, read, statOk);
    var edited, readAt := LastOf(trace, Edited), LastBefore(trace, RenewalRead, Renewed);
    if LastOf(trace, Renewed) >= 0 {
      LastBeforeIsOne(trace, RenewalRead, Renewed);
      assert edited != readAt;
    }
    LastBeforeIsOne(trace, Looked, Reloaded);
  }

  lemma LastBeforeIsOne(trace: seq<Event>, e: Event, end: Event)
    ensures var k := LastBefore(trace, e, end);
            k >= 0 ==> k < LastOf(trace, end) && trace[k] == e
  {
  }

  /** Exactly when an update is lost. Whatever the editor, the reload loop and the renewal loop
      have done, if the file now rests at a good version then one complete tick leaves that version
      installed, except in two orders of events: nothing but startup has happened and startup had
      missed an edit, or a renewal in progress was overtaken by the last edit and its reload. */
  lemma UpdateIsLostIff(versions: seq<Version>, read: nat, statOk: bool, actions: seq<Action>)
    requires read < |versions| && Increasing(Run(Startup(versions, read, statOk), actions).versions)
    requires var s := Run(Startup(versions, read, statOk), actions);
             s.pc.Waiting? && Good(s.versions[Last(s)])
    ensures var start := Startup(versions, read, statOk);
            var s, trace := Run(start, actions), Trace(start, actions);
            GoodTick(s).installed != Last(s) <==> StartupGap(trace, versions, read, statOk) || Overtaken(trace)
  {
    var start := Startup(versions, read, statOk);
    RunKeepsInv(versions, read, statOk, actions);
    LostIff(Run(start, actions), Trace(start, actions), versions, read, statOk);
    GoodTickInstallsIff(Run(start, actions));
  }

  lemma {:induction false} NoRenewalInTrace(s: State, actions: seq<Action>)
    requires Wf(s) && NoRenewal(actions)
    ensures LastOf(Trace(s, actions), Renewed) < 0
  {
    if actions != [] {
      NoRenewalInTrace(s, actions[..|actions| - 1]);
      var trace := Trace(s, actions[..|actions| - 1]);
      var a := actions[|actions| - 1];
      assert a in actions;
      var more := Happened(Run(s, actions[..|actions| - 1]), a);
      if more == [] {
        assert trace + more == trace;
      } else {
        TraceGrows(trace, more[0]);
      }
    }
  }

  lemma RememberedIsNotAhead(s: State, trace: seq<Event>, versions: seq<Version>, read: nat, statOk: bool)
    requires read < |versions| && Inv(s, trace, versions, read, statOk) && Increasing(s.versions)
    requires LastOf(trace, Renewed) < 0 && read == |versions| - 1
    ensures s.lastMtime <= s.versions[s.installed].mtime
  {
    var reloaded := LastOf(trace, Reloaded);
    if reloaded >= 0 {
      LastBeforeIsOne(trace, Looked, Reloaded);
      FileMoves(|versions|, trace, LastBefore(trace, Looked, Reloaded), reloaded);
    } else {
      assert versions[read] == s.versions[read];
    }
  }

  /** So with a startup that read the version it took the mtime of, and no renewal, no update is
      ever lost, wherever the edits fell between the stats and the reads; and the remembered mtime
      never exceeds that of the version installed. */
  lemma NoUpdateIsLost(versions: seq<Version>, statOk: bool, actions: seq<Action>)
    requires versions != [] && NoRenewal(actions)
    requires Increasing(Run(Startup(versions, |versions| - 1, statOk), actions).versions)
    ensures var s := Run(Startup(versions, |versions| - 1, statOk), actions);
            && s.lastMtime <= s.versions[s.installed].mtime
            && (s.pc.Waiting? && Good(s.versions[Last(s)]) ==> GoodTick(s).installed == Last(s))
  {
    var start, read := Startup(versions, |versions| - 1, statOk), |versions| - 1;
    var s, trace := Run(start, actions), Trace(start, actions);
    NoRenewalInTrace(start, actions);
    RunKeepsInv(versions, read, statOk, actions);
    RememberedIsNotAhead(s, trace, versions, read, statOk);
    if s.pc.Waiting? && Good(s.versions[Last(s)]) {
      LostIff(s, trace, versions, read, statOk);
      GoodTickInstallsIff(s);
    }
  }

  // ----- when installed versions go back or were never validated

  // The results about whole runs follow from what every run keeps: automatic induction over the actions is off.

  /** Since the renewal in progress read the configuration there was an edit and then a reload. */
  predicate Undoes(trace: seq<Event>) {
    LastOf(trace, RenewalRead) < LastBefore(trace, Edited, Reloaded)
  }

  lemma RenewingIsBehindIff(s: State, trace: seq<Event>, versions: seq<Version>, read: nat, statOk: bool)
    requires read < |versions| && Inv(s, trace, versions, read, statOk) && s.renewing.Some?
    ensures s.renewing.value < s.installed <==> Undoes(trace)
  {
    var n, began, reloaded := |versions|, LastOf(trace, RenewalRead), LastOf(trace, Reloaded);
    LastBeforeIsOne(trace, Edited, Reloaded);
    LastBeforeIsOne(trace, RenewalRead, Renewed);
    if began <= reloaded {
      FileMoves(n, trace, began, reloaded);
      assert began != LastBefore(trace, Edited, Reloaded);
    } else {
      FileMoves(n, trace, reloaded, began);
      FileMoves(n, trace, LastBefore(trace, RenewalRead, Renewed), began);
    }
  }

  /** In any run, a step moves the installed version backwards exactly when it is the successful end
      of a renewal since whose reading there was an edit and then a reload. */
  lemma {:induction false} InstalledGoesBackIff(versions: seq<Version>, read: nat, statOk: bool,
                                                actions: seq<Action>, a: Action)
    requires read < |versions|
    ensures var start := Startup(versions, read, statOk);
            var s, trace := Run(start, actions), Trace(start, actions);
            Step(s, a).installed < s.installed <==> Happened(s, a) == [Renewed] && Undoes(trace)
  {
    var start := Startup(versions, read, statOk);
    var s, trace := Run(start, actions), Trace(start, actions);
    RunKeepsInv(versions, read, statOk, actions);
    if s.renewing.Some? {
      RenewingIsBehindIff(s, trace, versions, read, statOk);
    }
  }

  /** Where the last renewal that ended well had read the configuration, as a version. */
  function RenewedFrom(n: nat, trace: seq<Event>): nat
    requires n > 0
  {
    FileAt(n, trace, LastBefore(trace, RenewalRead, Renewed))
  }

  lemma GoodIff(s: State, trace: seq<Event>, versions: seq<Version>, read: nat, statOk: bool)
    requires read < |versions| && Inv(s, trace, versions, read, statOk) && Good(versions[read])
    ensures RenewedFrom(|versions|, trace) < |s.versions|
    ensures Good(s.versions[s.installed]) <==>
            !(LastOf(trace, Reloaded) < LastOf(trace, Renewed)
              && !s.versions[RenewedFrom(|versions|, trace)].validates)
  {
    assert versions[read] == s.versions[read];
    assert trace[..|trace|] == trace;
    FileMoves(|versions|, trace, LastBefore(trace, RenewalRead, Renewed), |trace|);
  }

  /** In any run from a startup that read a good version, what is installed validates, unless the last
      install is that of a renewal that had read a version that does not. */
  lemma {:induction false} InstalledIsGoodIff(versions: seq<Version>, read: nat, statOk: bool, actions: seq<Action>)
    requires read < |versions| && Good(versions[read])
    ensures var start := Startup(versions, read, statOk);
            var s, trace := Run(start, actions), Trace(start, actions);
            && RenewedFrom(|versions|, trace) < |s.versions|
            && (Good(s.versions[s.installed]) <==>
                !(LastOf(trace, Reloaded) < LastOf(trace, Renewed)
                  && !s.versions[RenewedFrom(|versions|, trace)].validates))
  {
    var start := Startup(versions, read, statOk);
    RunKeepsInv(versions, read, statOk, actions);
    GoodIff(Run(start, actions), Trace(start, actions), versions, read, statOk);
  }
}
