/** The upstream health loop: two consecutive-run counters and one shared flag. */
module HealthCheck {

  /** The counters are 32-bit and wrap in a release build. */
  const U32: nat := 0x1_0000_0000

  /** The flag shared between a health loop and the requests that read it. */
  class AtomicBool {
    var value: bool

    constructor (value: bool)
      ensures this.value == value
    {
      this.value := value;
    }
  }

  datatype Loop = Loop(failures: nat, successes: nat, healthy: bool)

  function Bump(n: nat, wrap: bool): nat {
    if wrap then (n + 1) % U32 else n + 1
  }

  /** One pass of the loop body on one ping result. */
  function Iterate(s: Loop, ok: bool, fail: nat, recover: nat, wrap: bool): Loop {
    if ok then
      var n := Bump(s.successes, wrap);
      Loop(0, n, s.healthy || n >= recover)
    else
      var n := Bump(s.failures, wrap);
      Loop(n, 0, s.healthy && n < fail)
  }

  /** The loop's state after a whole history of pings. */
  function After(start: Loop, pings: seq<bool>, fail: nat, recover: nat, wrap: bool): Loop {
    if pings == [] then start
    else
      var last := |pings| - 1;
      Iterate(After(start, pings[..last], fail, recover, wrap), pings[last], fail, recover, wrap)
  }

  function Start(healthy: bool): Loop { Loop(0, 0, healthy) }

  // ----- counter-free specification

  /** A run of `len` results equal to `v` ends just before position `n`. */
  predicate RunEnds(pings: seq<bool>, n: nat, len: nat, v: bool)
    requires n <= |pings|
  {
    1 <= n && len <= n && pings[n - 1] == v && forall i :: n - len <= i < n ==> pings[i] == v
  }

  /** The flag as a function of the history alone: the latest long-enough run decides, and
      the initial value stands if there has been none. */
  ghost predicate DecidedHealthy(initial: bool, pings: seq<bool>, fail: nat, recover: nat) {
    || (exists n :: 0 <= n <= |pings| && RunEnds(pings, n, recover, true)
                    && forall m :: n < m <= |pings| ==> !RunEnds(pings, m, fail, false))
    || (initial && forall m :: 0 <= m <= |pings| ==> !RunEnds(pings, m, fail, false))
  }

  /** Length of the run of `v` that the history ends with. */
  function TrailingRun(pings: seq<bool>, v: bool): nat {
    if pings == [] || pings[|pings| - 1] != v then 0 else 1 + TrailingRun(pings[..|pings| - 1], v)
  }

  lemma {:induction false} TrailingRunIsLongest(pings: seq<bool>, v: bool, len: nat)
    ensures TrailingRun(pings, v) <= |pings|
    ensures len <= |pings| ==>
              (len <= TrailingRun(pings, v) <==> forall i :: |pings| - len <= i < |pings| ==> pings[i] == v)
  {
    if pings != [] && pings[|pings| - 1] == v {
      var front := pings[..|pings| - 1];
      TrailingRunIsLongest(front, v, 0);
      if len > 0 {
        TrailingRunIsLongest(front, v, len - 1);
        assert len <= |pings| ==> forall i :: |front| - (len - 1) <= i < |front| ==> front[i] == pings[i];
      }
    }
  }

  // ----- properties of every run

  /** At most one counter is non-zero, and each is exactly the trailing run of its kind. */
  lemma {:induction false} CountersAreTrailingRuns(initial: bool, pings: seq<bool>, fail: nat, recover: nat)
    ensures var s := After(Start(initial), pings, fail, recover, false);
            && s.failures == TrailingRun(pings, false)
            && s.successes == TrailingRun(pings, true)
            && (s.failures == 0 || s.successes == 0)
  {
    if pings != [] {
      CountersAreTrailingRuns(initial, pings[..|pings| - 1], fail, recover);
    }
  }

  /** While the flag is up an unfinished failure run is short of the threshold, and dually;
      so a counter can only wrap after its comparison has stopped mattering. */
  lemma PendingRunIsShort(initial: bool, pings: seq<bool>, fail: nat, recover: nat)
    ensures var s := After(Start(initial), pings, fail, recover, false);
            && (s.healthy ==> s.failures == 0 || s.failures < fail)
            && (!s.healthy ==> s.successes == 0 || s.successes < recover)
  {
  }

  lemma WrappedSuccessor(n: nat)
    ensures Bump(n % U32, true) == (n + 1) % U32
    ensures n < U32 - 1 ==> Bump(n % U32, true) == n + 1
  {
  }

  /** For every history and all 32-bit thresholds, wrapping counters give the flag that
      unbounded counters give. */
  lemma {:induction false} WrappingIsHarmless(initial: bool, pings: seq<bool>, fail: nat, recover: nat)
    requires fail < U32 && recover < U32
    ensures var wrapped := After(Start(initial), pings, fail, recover, true);
            var ideal := After(Start(initial), pings, fail, recover, false);
            && wrapped.healthy == ideal.healthy
            && wrapped.failures == ideal.failures % U32
            && wrapped.successes == ideal.successes % U32
  {
    if pings != [] {
      var front := pings[..|pings| - 1];
      var ideal := After(Start(initial), front, fail, recover, false);
      WrappingIsHarmless(initial, front, fail, recover);
      PendingRunIsShort(initial, front, fail, recover);
      WrappedSuccessor(ideal.failures);
      WrappedSuccessor(ideal.successes);
    }
  }

  lemma RunEndsPrefix(pings: seq<bool>, n: nat, len: nat, v: bool)
    requires n < |pings|
    ensures RunEnds(pings, n, len, v) == RunEnds(pings[..|pings| - 1], n, len, v)
  {
  }

  /** How the specification changes when one more ping arrives. */
  lemma DecidedStep(initial: bool, pings: seq<bool>, fail: nat, recover: nat)
    requires pings != []
    ensures DecidedHealthy(initial, pings, fail, recover) ==
            if pings[|pings| - 1] then
              RunEnds(pings, |pings|, recover, true) || DecidedHealthy(initial, pings[..|pings| - 1], fail, recover)
            else
              !RunEnds(pings, |pings|, fail, false) && DecidedHealthy(initial, pings[..|pings| - 1], fail, recover)
  {
    var front := pings[..|pings| - 1];
    forall n: nat, len: nat, v | n <= |front|
      ensures RunEnds(pings, n, len, v) == RunEnds(front, n, len, v)
    {
      RunEndsPrefix(pings, n, len, v);
    }
    if exists n :: 0 <= n <= |front| && RunEnds(front, n, recover, true)
                   && forall m :: n < m <= |front| ==> !RunEnds(front, m, fail, false) {
      var n :| 0 <= n <= |front| && RunEnds(front, n, recover, true)
               && forall m :: n < m <= |front| ==> !RunEnds(front, m, fail, false);
      assert RunEnds(pings, n, recover, true);
    }
  }

  /** The flag the counters maintain is the one the counter-free specification prescribes. */
  lemma {:induction false} FlagIsDecidedByLatestRun(initial: bool, pings: seq<bool>, fail: nat, recover: nat)
    ensures After(Start(initial), pings, fail, recover, false).healthy == DecidedHealthy(initial, pings, fail, recover)
  {
    if pings != [] {
      var last := |pings| - 1;
      FlagIsDecidedByLatestRun(initial, pings[..last], fail, recover);
      DecidedStep(initial, pings, fail, recover);
      CountersAreTrailingRuns(initial, pings, fail, recover);
      TrailingRunIsLongest(pings, false, fail);
      TrailingRunIsLongest(pings, true, recover);
    }
  }

  /** Enough consecutive results of one kind force the flag, whatever came before. */
  lemma LongRunForcesFlag(initial: bool, before: seq<bool>, run: seq<bool>, fail: nat, recover: nat, v: bool)
    requires |run| >= 1 && |run| >= (if v then recover else fail)
    requires forall i :: 0 <= i < |run| ==> run[i] == v
    ensures After(Start(initial), before + run, fail, recover, false).healthy == v
  {
    var pings := before + run;
    FlagIsDecidedByLatestRun(initial, pings, fail, recover);
    assert RunEnds(pings, |pings|, if v then recover else fail, v);
  }

  // ----- flapping

  /** How often the flag went from up to down (`down`) or from down to up during the history. */
  function Flips(initial: bool, pings: seq<bool>, fail: nat, recover: nat, down: bool): nat {
    if pings == [] then 0
    else
      var last := |pings| - 1;
      var was := After(Start(initial), pings[..last], fail, recover, false).healthy;
      var now := After(Start(initial), pings, fail, recover, false).healthy;
      Flips(initial, pings[..last], fail, recover, down) + if was == down && now == !down then 1 else 0
  }

  /** What a history has cost so far: each flip costs the run that triggered it, and the run
      in progress is already on account. */
  function Cost(pings: seq<bool>, fail: nat, recover: nat): nat {
    var s := After(Start(true), pings, fail, recover, false);
    Flips(true, pings, fail, recover, true) * fail + Flips(true, pings, fail, recover, false) * recover
    + if s.healthy then s.failures else s.successes
  }

  lemma CostStep(pings: seq<bool>, fail: nat, recover: nat)
    requires fail >= 1 && recover >= 1 && pings != []
    ensures Cost(pings, fail, recover) <= Cost(pings[..|pings| - 1], fail, recover) + 1
  {
  }

  /** Every flip has been paid for by a run of pings, and the flips alternate. */
  lemma {:induction false} FlappingIsBounded(pings: seq<bool>, fail: nat, recover: nat)
    requires fail >= 1 && recover >= 1
    ensures var downs := Flips(true, pings, fail, recover, true);
            var ups := Flips(true, pings, fail, recover, false);
            && downs * fail + ups * recover <= Cost(pings, fail, recover) <= |pings|
            && downs - ups == if After(Start(true), pings, fail, recover, false).healthy then 0 else 1
  {
    if pings != [] {
      FlappingIsBounded(pings[..|pings| - 1], fail, recover);
      CostStep(pings, fail, recover);
    }
  }

  /** With the thresholds the server uses, five pings buy at most one full down/up cycle. */
  lemma CyclesPerFivePings(pings: seq<bool>)
    ensures 5 * Flips(true, pings, 3, 2, false) <= |pings|
  {
    FlappingIsBounded(pings, 3, 2);
  }

  // ----- the loop itself

  /** The loop body run over the results of successive pings. `trace` is the flag after each. */
  method UpstreamHealthLoop(flag: AtomicBool, pings: seq<bool>, failThreshold: nat, recoverThreshold: nat)
    returns (trace: seq<bool>)
    requires failThreshold < U32 && recoverThreshold < U32
    modifies flag
    ensures |trace| == |pings|
    ensures forall k :: 0 <= k < |pings| ==>
              trace[k] == DecidedHealthy(old(flag.value), pings[..k + 1], failThreshold, recoverThreshold)
    ensures flag.value == DecidedHealthy(old(flag.value), pings, failThreshold, recoverThreshold)
  {
    var consecutiveFailures: nat, consecutiveSuccesses: nat := 0, 0;
    ghost var start := Start(flag.value);
    trace := [];
    for i := 0 to |pings|
      invariant |trace| == i
      invariant Loop(consecutiveFailures, consecutiveSuccesses, flag.value)
             == After(start, pings[..i], failThreshold, recoverThreshold, true)
      invariant forall k :: 0 <= k < i ==>
                  trace[k] == After(start, pings[..k + 1], failThreshold, recoverThreshold, true).healthy
    {
      if pings[i] {
        consecutiveFailures := 0;
        consecutiveSuccesses := (consecutiveSuccesses + 1) % U32;
        if !flag.value && consecutiveSuccesses >= recoverThreshold {
          flag.value := true;
        }
      } else {
        consecutiveSuccesses := 0;
        consecutiveFailures := (consecutiveFailures + 1) % U32;
        if flag.value && consecutiveFailures >= failThreshold {
          flag.value := false;
        }
      }
      assert pings[..i + 1][..i] == pings[..i];
      trace := trace + [flag.value];
    }
    assert pings[..|pings|] == pings;
    forall k | 0 <= k <= |pings|
      ensures After(start, pings[..k], failThreshold, recoverThreshold, true).healthy
           == DecidedHealthy(start.healthy, pings[..k], failThreshold, recoverThreshold)
    {
      WrappingIsHarmless(start.healthy, pings[..k], failThreshold, recoverThreshold);
      FlagIsDecidedByLatestRun(start.healthy, pings[..k], failThreshold, recoverThreshold);
    }
  }
}
