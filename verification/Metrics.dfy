/** Request accounting: atomic counters updated one by one by many requests at once. */
module Metrics {
  import opened Prelude

  const U64: nat := 0x1_0000_0000_0000_0000

  datatype ProxyError =
    | Io | Hyper | InvalidConfig | NoRoute | UpstreamConnect | TimedOut | PluginFailed | TlsFailed | AcmeFailed
    | UpstreamUnhealthy

  function ErrorStatus(e: ProxyError): nat {
    match e
    case NoRoute => 404
    case UpstreamConnect => 502
    case TimedOut => 504
    case UpstreamUnhealthy => 503
    case _ => 500
  }

  /** How a request ended: with a response, blocked by a plugin, or with an error. */
  datatype Ending = Answered(status: nat) | BlockedByPlugin | Errored(error: ProxyError)

  datatype Bucket = TwoXx | FourXx | FiveXx | Blocked | Uncounted

  function StatusOf(e: Ending): nat {
    match e
    case Answered(status) => status
    case BlockedByPlugin => 403
    case Errored(error) => ErrorStatus(error)
  }

  /** The counter `record` bumps last, if any. */
  function BucketOf(status: nat, blocked: bool): Bucket {
    if blocked then Blocked
    else if 200 <= status <= 299 then TwoXx
    else if 400 <= status <= 499 then FourXx
    else if 500 <= status <= 599 then FiveXx
    else Uncounted
  }

  function BucketOfEnding(e: Ending): Bucket {
    BucketOf(StatusOf(e), e.BlockedByPlugin?)
  }

  /** Errors land in 4xx or 5xx, in 4xx only when no route matched; a block lands in neither. */
  lemma ErrorsAreCountedAsErrors(e: Ending)
    ensures e.Errored? ==> BucketOfEnding(e) == if e.error.NoRoute? then FourXx else FiveXx
    ensures BucketOfEnding(e) == Blocked <==> e.BlockedByPlugin?
  {
  }

  // ----- the counters as the code updates them

  class Metrics {
    var requestsTotal: nat
    var requests2xx: nat
    var requests4xx: nat
    var requests5xx: nat
    var requestsBlocked: nat
    var responseTimeMsTotal: nat

    constructor ()
      ensures Read() == ZERO
    {
      requestsTotal, requests2xx, requests4xx, requests5xx, requestsBlocked, responseTimeMsTotal := 0, 0, 0, 0, 0, 0;
    }

    function Read(): Counters
      reads this
    {
      Counters(requestsTotal, responseTimeMsTotal, requests2xx, requests4xx, requests5xx, requestsBlocked)
    }

    /** `record`, with nothing interleaved: the three steps of one recording. */
    method Record(status: nat, elapsedMs: nat, blocked: bool)
      modifies this
      ensures Read() == AddBucket(AddElapsed(AddTotal(old(Read())), elapsedMs), BucketOf(status, blocked))
      ensures requestsTotal == (old(requestsTotal) + 1) % 0x1_0000_0000_0000_0000
      ensures responseTimeMsTotal == (old(responseTimeMsTotal) + elapsedMs) % 0x1_0000_0000_0000_0000
      ensures requestsBlocked ==
              if blocked then (old(requestsBlocked) + 1) % 0x1_0000_0000_0000_0000 else old(requestsBlocked)
      ensures requests2xx == if !blocked && 200 <= status <= 299 then (old(requests2xx) + 1) % 0x1_0000_0000_0000_0000
                             else old(requests2xx)
      ensures requests4xx == if !blocked && 400 <= status <= 499 then (old(requests4xx) + 1) % 0x1_0000_0000_0000_0000
                             else old(requests4xx)
      ensures requests5xx == if !blocked && 500 <= status <= 599 then (old(requests5xx) + 1) % 0x1_0000_0000_0000_0000
                             else old(requests5xx)
    {
      requestsTotal := (requestsTotal + 1) % U64;
      responseTimeMsTotal := (responseTimeMsTotal + elapsedMs) % U64;
      if blocked {
        requestsBlocked := (requestsBlocked + 1) % U64;
        return;
      }
      if 200 <= status <= 299 {
        requests2xx := (requests2xx + 1) % U64;
      } else if 400 <= status <= 499 {
        requests4xx := (requests4xx + 1) % U64;
      } else if 500 <= status <= 599 {
        requests5xx := (requests5xx + 1) % U64;
      }
    }

    /** The mean that `render` prints. */
    method RenderMean() returns (mean: nat)
      ensures mean == MeanOf(requestsTotal, responseTimeMsTotal)
      ensures mean == if requestsTotal > 0 then responseTimeMsTotal / requestsTotal else 0
    {
      mean := if requestsTotal > 0 then responseTimeMsTotal / requestsTotal else 0;
    }
  }

  datatype Counters = Counters(total: nat, elapsed: nat, twoXx: nat, fourXx: nat, fiveXx: nat, blocked: nat)

  const ZERO: Counters := Counters(0, 0, 0, 0, 0, 0)

  function MeanOf(total: nat, elapsed: nat): nat {
    if total > 0 then elapsed / total else 0
  }

  function AddTotal(c: Counters): Counters {
    c.(total := (c.total + 1) % U64)
  }

  function AddElapsed(c: Counters, ms: nat): Counters {
    c.(elapsed := (c.elapsed + ms) % U64)
  }

  function AddBucket(c: Counters, b: Bucket): Counters {
    match b
    case TwoXx => c.(twoXx := (c.twoXx + 1) % U64)
    case FourXx => c.(fourXx := (c.fourXx + 1) % U64)
    case FiveXx => c.(fiveXx := (c.fiveXx + 1) % U64)
    case Blocked => c.(blocked := (c.blocked + 1) % U64)
    case Uncounted => c
  }

  function InBucket(c: Counters, b: Bucket): nat {
    match b
    case TwoXx => c.twoXx
    case FourXx => c.fourXx
    case FiveXx => c.fiveXx
    case Blocked => c.blocked
    case Uncounted => 0
  }

  // ----- every interleaving

  /** A recording in progress: `done` of its three steps have been taken. */
  datatype Recording = Recording(ending: Ending, elapsed: nat, done: nat)

  /** `scrapes` counts the /metrics requests handled, which record nothing. */
  datatype State = State(counters: Counters, recordings: seq<Recording>, scrapes: nat)

  const INIT: State := State(ZERO, [], 0)

  datatype Action = Handled(path: string, ending: Ending, elapsed: nat) | Advance(recording: nat)

  function Step(s: State, a: Action): State {
    match a
    case Handled(path, ending, elapsed) =>
      if path == "/metrics" then s.(scrapes := s.scrapes + 1)
      else s.(recordings := s.recordings + [Recording(ending, elapsed, 0)])
    case Advance(i) =>
      if i >= |s.recordings| then s
      else
        var r := s.recordings[i];
        var next := s.(recordings := s.recordings[i := r.(done := r.done + 1)]);
        if r.done == 0 then next.(counters := AddTotal(s.counters))
        else if r.done == 1 then next.(counters := AddElapsed(s.counters, r.elapsed))
        else if r.done == 2 then next.(counters := AddBucket(s.counters, BucketOfEnding(r.ending)))
        else s
  }

  function Run(actions: seq<Action>): State {
    if actions == [] then INIT else Step(Run(actions[..|actions| - 1]), actions[|actions| - 1])
  }

  function Handlings(actions: seq<Action>): nat {
    if actions == [] then 0
    else Handlings(actions[..|actions| - 1]) + if actions[|actions| - 1].Handled? then 1 else 0
  }

  predicate Begun(r: Recording) { r.done >= 1 }

  predicate Midway(r: Recording) { r.done == 1 || r.done == 2 }

  ghost function DoneIn(b: Bucket): Recording -> bool {
    (r: Recording) => r.done == 3 && BucketOfEnding(r.ending) == b
  }

  /** Milliseconds added so far. */
  ghost function Added(rs: seq<Recording>): nat {
    if rs == [] then 0 else Added(rs[..|rs| - 1]) + if rs[|rs| - 1].done >= 2 then rs[|rs| - 1].elapsed else 0
  }

  lemma {:induction false} AddedUpdate(rs: seq<Recording>, i: nat, r: Recording)
    requires i < |rs| && r.elapsed == rs[i].elapsed && r.done == rs[i].done + 1
    ensures Added(rs[i := r]) == Added(rs) + if rs[i].done == 1 then r.elapsed else 0
  {
    var last := |rs| - 1;
    if i == last {
      assert rs[i := r][..last] == rs[..last];
    } else {
      assert rs[i := r][..last] == rs[..last][i := r];
      AddedUpdate(rs[..last], i, r);
    }
  }

  /** Each counter is what the recordings have added to it, up to wrap-around. */
  ghost predicate Inv(s: State) {
    && (forall i :: 0 <= i < |s.recordings| ==> s.recordings[i].done <= 3)
    && s.counters.total == Count(s.recordings, Begun) % U64
    && s.counters.elapsed == Added(s.recordings) % U64
    && forall b :: b != Uncounted ==> InBucket(s.counters, b) == Count(s.recordings, DoneIn(b)) % U64
  }

  lemma WrapAdd(a: nat, b: nat)
    ensures (a % U64 + b) % U64 == (a + b) % U64
  {
  }

  lemma HandledKeepsInv(s: State, path: string, ending: Ending, elapsed: nat)
    requires Inv(s)
    ensures Inv(Step(s, Handled(path, ending, elapsed)))
  {
  }

  lemma AdvanceKeepsSums(s: State, i: nat)
    requires Inv(s) && i < |s.recordings| && s.recordings[i].done < 3
    ensures var t := Step(s, Advance(i));
            && t.counters.total == Count(t.recordings, Begun) % U64
            && t.counters.elapsed == Added(t.recordings) % U64
  {
    var r := s.recordings[i];
    CountUpdate(s.recordings, i, r.(done := r.done + 1), Begun);
    AddedUpdate(s.recordings, i, r.(done := r.done + 1));
    WrapAdd(Count(s.recordings, Begun), 1);
    WrapAdd(Added(s.recordings), r.elapsed);
  }

  lemma AdvanceKeepsBucket(s: State, i: nat, b: Bucket)
    requires Inv(s) && i < |s.recordings| && s.recordings[i].done < 3 && b != Uncounted
    ensures var t := Step(s, Advance(i));
            InBucket(t.counters, b) == Count(t.recordings, DoneIn(b)) % U64
  {
    var r := s.recordings[i];
    CountUpdate(s.recordings, i, r.(done := r.done + 1), DoneIn(b));
    WrapAdd(Count(s.recordings, DoneIn(b)), 1);
  }

  lemma AdvanceKeepsInv(s: State, i: nat)
    requires Inv(s) && i < |s.recordings| && s.recordings[i].done < 3
    ensures Inv(Step(s, Advance(i)))
  {
    AdvanceKeepsSums(s, i);
    forall b | b != Uncounted
      ensures InBucket(Step(s, Advance(i)).counters, b) == Count(Step(s, Advance(i)).recordings, DoneIn(b)) % U64
    {
      AdvanceKeepsBucket(s, i, b);
    }
  }

  lemma {:induction false} RunKeepsInv(actions: seq<Action>)
    ensures Inv(Run(actions))
    ensures |Run(actions).recordings| + Run(actions).scrapes == Handlings(actions)
  {
    if actions != [] {
      var s, last := Run(actions[..|actions| - 1]), actions[|actions| - 1];
      RunKeepsInv(actions[..|actions| - 1]);
      match last
      case Handled(path, ending, elapsed) => HandledKeepsInv(s, path, ending, elapsed);
      case Advance(i) => if i < |s.recordings| && s.recordings[i].done < 3 { AdvanceKeepsInv(s, i); }
    }
  }

  /** Begun recordings are midway or done, and those done are in exactly one bucket. */
  lemma {:induction false} BegunSplits(rs: seq<Recording>)
    requires forall i :: 0 <= i < |rs| ==> rs[i].done <= 3
    ensures Count(rs, Begun) ==
            Count(rs, Midway) + Count(rs, DoneIn(TwoXx)) + Count(rs, DoneIn(FourXx)) + Count(rs, DoneIn(FiveXx))
            + Count(rs, DoneIn(Blocked)) + Count(rs, DoneIn(Uncounted))
  {
    if rs != [] {
      BegunSplits(rs[..|rs| - 1]);
    }
  }

  lemma {:induction false} CountAtMost<T>(s: seq<T>, p: T -> bool)
    ensures Count(s, p) <= |s|
    ensures (forall x :: x in s ==> p(x)) ==> Count(s, p) == |s|
    ensures (forall x :: x in s ==> !p(x)) ==> Count(s, p) == 0
  {
    if s != [] {
      CountAtMost(s[..|s| - 1], p);
      assert forall x :: x in s[..|s| - 1] ==> x in s;
      assert s[|s| - 1] in s;
    }
  }

  lemma SmallMod(n: nat)
    requires n < U64
    ensures n % U64 == n
  {
  }

  /** With fewer than 2^64 requests no counter has wrapped. */
  lemma CountersAreCounts(actions: seq<Action>)
    requires Handlings(actions) < U64
    ensures var s := Run(actions);
            && s.counters.total == Count(s.recordings, Begun)
            && forall b :: b != Uncounted ==> InBucket(s.counters, b) == Count(s.recordings, DoneIn(b))
  {
    var s := Run(actions);
    RunKeepsInv(actions);
    CountAtMost(s.recordings, Begun);
    SmallMod(Count(s.recordings, Begun));
    forall b | b != Uncounted
      ensures InBucket(s.counters, b) == Count(s.recordings, DoneIn(b))
    {
      CountAtMost(s.recordings, DoneIn(b));
      SmallMod(Count(s.recordings, DoneIn(b)));
    }
  }

  lemma RunDone(actions: seq<Action>)
    ensures forall i :: 0 <= i < |Run(actions).recordings| ==> Run(actions).recordings[i].done <= 3
    ensures |Run(actions).recordings| + Run(actions).scrapes == Handlings(actions)
    ensures Run(actions).counters.elapsed == Added(Run(actions).recordings) % U64
  {
    RunKeepsInv(actions);
  }

  /** In every reachable state of every interleaving with fewer than 2^64 requests: the total is
      the buckets, plus the recordings midway, plus those finished with an uncounted status. */
  lemma CountersAreConserved(actions: seq<Action>)
    requires Handlings(actions) < U64
    ensures var s := Run(actions);
            s.counters.total ==
            s.counters.twoXx + s.counters.fourXx + s.counters.fiveXx + s.counters.blocked
            + Count(s.recordings, Midway) + Count(s.recordings, DoneIn(Uncounted))
  {
    var s := Run(actions);
    RunDone(actions);
    CountersAreCounts(actions);
    BegunSplits(s.recordings);
    assert InBucket(s.counters, TwoXx) == s.counters.twoXx && InBucket(s.counters, FourXx) == s.counters.fourXx;
    assert InBucket(s.counters, FiveXx) == s.counters.fiveXx && InBucket(s.counters, Blocked) == s.counters.blocked;
  }

  ghost predicate AtRest(s: State) {
    forall r :: r in s.recordings ==> r.done == 3
  }

  predicate EndedInError(r: Recording) { r.ending.Errored? }

  /** Answered with a status of the hundred that starts at `from`. */
  ghost function AnsweredIn(from: nat): Recording -> bool {
    (r: Recording) => r.ending.Answered? && from <= r.ending.status <= from + 99
  }

  predicate EndedWithoutRoute(r: Recording) { r.ending == Errored(NoRoute) }

  predicate EndedBlocked(r: Recording) { r.ending.BlockedByPlugin? }

  /** At rest the total is the number of requests handled other than /metrics; 2xx holds exactly the answers
      with such a status, 4xx those and the requests no route matched, 5xx those and all other errors; and the
      blocked count is exactly the requests a plugin blocked. */
  lemma AtRestCountersAreExact(actions: seq<Action>)
    requires Handlings(actions) < U64 && AtRest(Run(actions))
    ensures var s := Run(actions);
            && s.counters.total == Handlings(actions) - s.scrapes
            && s.counters.twoXx == Count(s.recordings, AnsweredIn(200))
            && s.counters.fourXx == Count(s.recordings, AnsweredIn(400)) + Count(s.recordings, EndedWithoutRoute)
            && s.counters.fiveXx == Count(s.recordings, AnsweredIn(500)) + Count(s.recordings, EndedInError)
                                    - Count(s.recordings, EndedWithoutRoute)
            && s.counters.blocked == Count(s.recordings, EndedBlocked)
  {
    var s := Run(actions);
    RunDone(actions);
    CountersAreCounts(actions);
    CountAtMost(s.recordings, Begun);
    ErrorsAmong(s.recordings);
    assert InBucket(s.counters, FourXx) == s.counters.fourXx && InBucket(s.counters, FiveXx) == s.counters.fiveXx;
    assert InBucket(s.counters, TwoXx) == s.counters.twoXx && InBucket(s.counters, Blocked) == s.counters.blocked;
  }

  lemma {:induction false} ErrorsAmong(rs: seq<Recording>)
    requires forall r :: r in rs ==> r.done == 3
    ensures Count(rs, DoneIn(TwoXx)) == Count(rs, AnsweredIn(200))
    ensures Count(rs, DoneIn(FourXx)) == Count(rs, AnsweredIn(400)) + Count(rs, EndedWithoutRoute)
    ensures Count(rs, DoneIn(FiveXx)) ==
            Count(rs, AnsweredIn(500)) + Count(rs, EndedInError) - Count(rs, EndedWithoutRoute)
    ensures Count(rs, EndedBlocked) == Count(rs, DoneIn(Blocked))
  {
    if rs != [] {
      assert rs[|rs| - 1] in rs;
      ErrorsAmong(rs[..|rs| - 1]);
      ErrorsAreCountedAsErrors(rs[|rs| - 1].ending);
    }
  }
}
