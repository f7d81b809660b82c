/** The mean response time that `render` prints: what it is when recordings fall between the two loads
    it is made from, and when it is a mean at all. */
module RenderedMean {
  import opened Prelude
  import opened Metrics

  /** The recording has added its time to the sum. */
  predicate Summed(r: Recording) { r.done >= 2 }

  lemma {:induction false} AddedIsBounded(rs: seq<Recording>, lo: nat, hi: nat)
    requires forall r :: r in rs ==> lo <= r.elapsed <= hi
    ensures lo * Count(rs, Summed) <= Added(rs) <= hi * Count(rs, Summed)
  {
    if rs != [] {
      assert rs[|rs| - 1] in rs;
      AddedIsBounded(rs[..|rs| - 1], lo, hi);
      TimesSuccessor(lo, Count(rs[..|rs| - 1], Summed));
      TimesSuccessor(hi, Count(rs[..|rs| - 1], Summed));
    }
  }

  lemma QuotientIff(q: nat, n: nat, sum: nat)
    requires n > 0
    ensures q <= sum / n <==> q * n <= sum
  {
    var d := sum / n;
    assert d * n <= sum < d * n + n;
    TimesIsMonotone(q, d, n);
    TimesIsMonotone(d + 1, q, n);
    TimesSuccessor(n, d);
  }

  lemma QuotientIsBetween(lo: nat, hi: nat, n: nat, sum: nat)
    requires n > 0 && lo * n <= sum <= hi * n
    ensures lo <= sum / n <= hi
  {
    QuotientIff(lo, n, sum);
    QuotientIff(hi + 1, n, sum);
    TimesSuccessor(n, hi);
  }

  lemma QuotientEqualsIff(q: nat, n: nat, sum: nat)
    requires n > 0
    ensures sum / n == q <==> q * n <= sum < q * n + n
  {
    QuotientIff(q, n, sum);
    QuotientIff(q + 1, n, sum);
    TimesSuccessor(n, q);
  }

  /** How many recordings the total counts that `render` loads after `before`, and how many the sum
      holds that it loads after `between` more steps. */
  ghost function CountedFirst(before: seq<Action>): nat {
    Count(Run(before).recordings, Begun)
  }

  ghost function SummedLater(before: seq<Action>, between: seq<Action>): nat {
    Count(Run(before + between).recordings, Summed)
  }

  /** What `render` prints when `between` happens after its load of the total, before that of the sum. */
  function TornMean(before: seq<Action>, between: seq<Action>): nat {
    MeanOf(Run(before).counters.total, Run(before + between).counters.elapsed)
  }

  lemma {:induction false} HandlingsConcat(a: seq<Action>, b: seq<Action>)
    ensures Handlings(a) <= Handlings(a + b)
  {
    if b == [] {
      assert a + b == a;
    } else {
      assert (a + b)[..|a + b| - 1] == a + b[..|b| - 1];
      HandlingsConcat(a, b[..|b| - 1]);
    }
  }

  /** No counter involved has wrapped. */
  ghost predicate NothingWrapped(before: seq<Action>, between: seq<Action>) {
    Handlings(before + between) < U64 && Added(Run(before + between).recordings) < U64
  }

  lemma TornMeanIs(before: seq<Action>, between: seq<Action>)
    requires NothingWrapped(before, between)
    ensures TornMean(before, between) == MeanOf(CountedFirst(before), Added(Run(before + between).recordings))
  {
    HandlingsConcat(before, between);
    CountersAreCounts(before);
    RunDone(before + between);
    SmallMod(Added(Run(before + between).recordings));
  }

  /** Wherever the two loads of `render` fall in a run: when the sum holds as many recordings as the
      total had counted, the mean lies between the least and the greatest elapsed time. */
  lemma TornMeanIsBetween(before: seq<Action>, between: seq<Action>, lo: nat, hi: nat)
    requires NothingWrapped(before, between) && CountedFirst(before) > 0
    requires CountedFirst(before) == SummedLater(before, between)
    requires forall r :: r in Run(before + between).recordings ==> lo <= r.elapsed <= hi
    ensures lo <= TornMean(before, between) <= hi
  {
    var n, sum := CountedFirst(before), Added(Run(before + between).recordings);
    TornMeanIs(before, between);
    AddedIsBounded(Run(before + between).recordings, lo, hi);
    QuotientIsBetween(lo, hi, n, sum);
  }

  /** When all times are equal, the mean is their value exactly when the sum's surplus of recordings
      adds up to less than one recording's share: never when recordings are missing from the sum. */
  lemma TornMeanOfEqualTimesIff(before: seq<Action>, between: seq<Action>, ms: nat)
    requires NothingWrapped(before, between) && CountedFirst(before) > 0
    requires forall r :: r in Run(before + between).recordings ==> r.elapsed == ms
    ensures var n, m := CountedFirst(before), SummedLater(before, between);
            TornMean(before, between) == ms <==> ms * n <= ms * m < ms * n + n
  {
    var n, m := CountedFirst(before), SummedLater(before, between);
    TornMeanIs(before, between);
    AddedIsBounded(Run(before + between).recordings, ms, ms);
    QuotientEqualsIff(ms, n, ms * m);
  }

  // ----- the same run with other times

  function Retimed(a: Action, ms: nat): Action {
    if a.Handled? then a.(elapsed := ms) else a
  }

  function AllRetimed(actions: seq<Action>, ms: nat): seq<Action> {
    seq(|actions|, i requires 0 <= i < |actions| => Retimed(actions[i], ms))
  }

  /** The same recordings, as far along, with every time replaced. */
  ghost predicate SameButFor(s: State, t: State, ms: nat) {
    && |t.recordings| == |s.recordings| && t.scrapes == s.scrapes
    && forall i :: 0 <= i < |s.recordings| ==> t.recordings[i] == s.recordings[i].(elapsed := ms)
  }

  lemma {:induction false} RunRetimed(actions: seq<Action>, ms: nat)
    ensures SameButFor(Run(actions), Run(AllRetimed(actions, ms)), ms)
  {
    if actions != [] {
      var front := actions[..|actions| - 1];
      RunRetimed(front, ms);
      assert AllRetimed(actions, ms)[..|actions| - 1] == AllRetimed(front, ms);
    }
  }

  lemma {:induction false} CountRetimed(rs: seq<Recording>, ts: seq<Recording>, ms: nat, p: Recording -> bool)
    requires |ts| == |rs| && forall i :: 0 <= i < |rs| ==> ts[i] == rs[i].(elapsed := ms)
    requires forall r :: p(r) == p(r.(elapsed := ms))
    ensures Count(ts, p) == Count(rs, p)
  {
    if rs != [] {
      CountRetimed(rs[..|rs| - 1], ts[..|ts| - 1], ms, p);
    }
  }

  lemma RetimedCounts(before: seq<Action>, between: seq<Action>, ms: nat)
    ensures CountedFirst(AllRetimed(before, ms)) == CountedFirst(before)
    ensures SummedLater(AllRetimed(before, ms), AllRetimed(between, ms)) == SummedLater(before, between)
    ensures forall r :: r in Run(AllRetimed(before, ms) + AllRetimed(between, ms)).recordings ==> r.elapsed == ms
    ensures Handlings(AllRetimed(before, ms) + AllRetimed(between, ms)) == Handlings(before + between)
  {
    assert AllRetimed(before, ms) + AllRetimed(between, ms) == AllRetimed(before + between, ms);
    RunRetimed(before, ms);
    RunRetimed(before + between, ms);
    CountRetimed(Run(before).recordings, Run(AllRetimed(before, ms)).recordings, ms, Begun);
    CountRetimed(Run(before + between).recordings, Run(AllRetimed(before + between, ms)).recordings, ms, Summed);
    RunDone(before + between);
    RunDone(AllRetimed(before + between, ms));
  }

  /** The least number of whole parts of size `d` that reach `n`. */
  function CeilDiv(n: nat, d: nat): nat
    requires d > 0
  {
    (n + d - 1) / d
  }

  lemma CeilDivIff(n: nat, d: nat, q: nat)
    requires d > 0
    ensures q >= CeilDiv(n, d) <==> q * d >= n
  {
    QuotientIff(q + 1, d, n + d - 1);
    TimesSuccessor(d, q);
  }

  /** `m` times `ms` shared among `n` comes to `ms` each, rounded down. */
  predicate SharesEvenly(n: nat, m: nat, ms: nat) {
    ms * n <= ms * m < ms * n + n
  }

  lemma SurplusIff(n: nat, m: nat, ms: nat)
    requires m > n > 0
    ensures SharesEvenly(n, m, ms) <==> ms < CeilDiv(n, m - n)
  {
    CeilDivIff(n, m - n, ms);
    assert ms * m == ms * (m - n) + ms * n;
  }

  /** An interleaving is safe for all equal times: whatever they are, if their sum does not wrap, it is
      the mean. */
  ghost predicate EqualTimesAverage(before: seq<Action>, between: seq<Action>) {
    forall ms: nat :: ms * SummedLater(before, between) < U64 ==>
                        TornMean(AllRetimed(before, ms), AllRetimed(between, ms)) == ms
  }

  lemma RetimedMeanIff(before: seq<Action>, between: seq<Action>, ms: nat)
    requires Handlings(before + between) < U64 && CountedFirst(before) > 0
    requires ms * SummedLater(before, between) < U64
    ensures TornMean(AllRetimed(before, ms), AllRetimed(between, ms)) == ms <==>
            SharesEvenly(CountedFirst(before), SummedLater(before, between), ms)
  {
    var a, b := AllRetimed(before, ms), AllRetimed(between, ms);
    RetimedCounts(before, between, ms);
    AddedIsBounded(Run(a + b).recordings, ms, ms);
    TornMeanOfEqualTimesIff(a, b, ms);
  }

  lemma MissingLowersTheMean(before: seq<Action>, between: seq<Action>)
    requires Handlings(before + between) < U64 && SummedLater(before, between) < CountedFirst(before)
    ensures !EqualTimesAverage(before, between)
  {
    CountAtMost(Run(before + between).recordings, Summed);
    RunDone(before + between);
    var m := SummedLater(before, between);
    assert 1 * m == m;
    RetimedMeanIff(before, between, 1);
  }

  lemma SurplusMeanIff(before: seq<Action>, between: seq<Action>, n: nat, m: nat, ms: nat)
    requires Handlings(before + between) < U64 && n == CountedFirst(before) && m == SummedLater(before, between)
    requires m > n > 0 && ms * m < U64
    ensures TornMean(AllRetimed(before, ms), AllRetimed(between, ms)) == ms <==> ms < CeilDiv(n, m - n)
  {
    RetimedMeanIff(before, between, ms);
    SurplusIff(n, m, ms);
  }

  lemma SurplusRaisesTheMeanIff(before: seq<Action>, between: seq<Action>, n: nat, m: nat, least: nat)
    requires Handlings(before + between) < U64 && n == CountedFirst(before) && m == SummedLater(before, between)
    requires m > n > 0 && least == CeilDiv(n, m - n)
    ensures EqualTimesAverage(before, between) <==> least * m >= U64
  {
    if least * m < U64 {
      SurplusMeanIff(before, between, n, m, least);
      assert TornMean(AllRetimed(before, least), AllRetimed(between, least)) != least;
    } else {
      forall ms: nat | ms * m < U64
        ensures TornMean(AllRetimed(before, ms), AllRetimed(between, ms)) == ms
      {
        TimesIsMonotone(least, ms, m);
        SurplusMeanIff(before, between, n, m, ms);
      }
    }
  }

  /** Exactly which interleavings of the two loads with recordings are safe: those where the sum
      holds as many recordings as the total had counted, and those where it holds more but a sum large
      enough to show it would already wrap. In all others some times give a mean out of their range. */
  lemma EqualTimesAverageIff(before: seq<Action>, between: seq<Action>)
    requires Handlings(before + between) < U64 && CountedFirst(before) > 0
    ensures var n, m := CountedFirst(before), SummedLater(before, between);
            EqualTimesAverage(before, between) <==> m == n || (m > n && CeilDiv(n, m - n) * m >= U64)
  {
    var n, m := CountedFirst(before), SummedLater(before, between);
    if m < n {
      MissingLowersTheMean(before, between);
    } else if m > n {
      SurplusRaisesTheMeanIff(before, between, n, m, CeilDiv(n, m - n));
    } else {
      forall ms: nat | ms * m < U64
        ensures TornMean(AllRetimed(before, ms), AllRetimed(between, ms)) == ms
      {
        RetimedMeanIff(before, between, ms);
      }
    }
  }

  /** At rest the rendered mean lies between the least and the greatest elapsed time. */
  lemma MeanIsBetween(actions: seq<Action>, lo: nat, hi: nat)
    requires Handlings(actions) < U64 && AtRest(Run(actions)) && Added(Run(actions).recordings) < U64
    requires Run(actions).recordings != []
    requires forall r :: r in Run(actions).recordings ==> lo <= r.elapsed <= hi
    ensures var c := Run(actions).counters;
            lo <= MeanOf(c.total, c.elapsed) <= hi
  {
    assert actions + [] == actions;
    CountAtMost(Run(actions).recordings, Begun);
    CountAtMost(Run(actions).recordings, Summed);
    TornMeanIsBetween(actions, [], lo, hi);
  }

  /** Such a run: a recording slips in between the two loads, and the mean of equal times `ms` comes
      out as twice `ms`. */
  lemma TornRenderDoublesTheMean(ms: nat)
    requires 0 < ms && 2 * ms < U64
    ensures var first := Step(INIT, Handled("/", Answered(200), ms));
            var read := Step(Step(Step(first, Advance(0)), Advance(0)), Advance(0));
            var second := Step(read, Handled("/", Answered(200), ms));
            var slipped := Step(Step(second, Advance(1)), Advance(1));
            MeanOf(read.counters.total, slipped.counters.elapsed) == 2 * ms
  {
  }
}
