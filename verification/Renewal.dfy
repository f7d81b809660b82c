/** When certificates are renewed, and how long the ACME server is polled. */
module Renewal {
  import opened Prelude

  const DAY: nat := 86_400
  const RENEW_AFTER: nat := 5_184_000
  const U64: nat := 0x1_0000_0000_0000_0000

  /** `cert_needs_renewal`, from whether cert.pem exists and what the `issued_at` file parses to.
      The sum is a 64-bit one. */
  function NeedsRenewal(certExists: bool, issuedAt: Option<nat>, now: nat): bool {
    !certExists || now > ((if issuedAt.Some? then issuedAt.value else 0) + RENEW_AFTER) % U64
  }

  /** For any timestamp a clock will show in this era: a certificate is left alone for exactly sixty
      days, and renewed at once when the certificate is missing or the timestamp is unreadable. */
  lemma NeedsRenewalIff(certExists: bool, issuedAt: Option<nat>, now: nat)
    requires now < U64 - 5_184_000
    requires issuedAt.Some? ==> issuedAt.value < U64 - 5_184_000
    ensures NeedsRenewal(certExists, issuedAt, now) <==>
            || !certExists
            || (issuedAt.None? && now > 60 * 86_400)
            || (issuedAt.Some? && now - issuedAt.value > 60 * 86_400)
  {
  }

  // ----- daily ticks

  /** A certificate on disk: when it was issued, and what the timestamp file beside it reads. */
  datatype Issue = Issue(at: nat, recorded: nat)

  /** What a tick that tries to renew comes to: nothing, or a new certificate stamped at `at`. The
      timestamp file then reads `recorded`, or what it read before if it was not written to. */
  datatype Attempt = Failed | Issued(at: nat, recorded: Option<nat>)

  function TickTime(start: nat, k: nat): nat { start + k * DAY }

  function Due(start: nat, k: nat, issue: Issue): bool {
    NeedsRenewal(true, Some(issue.recorded), TickTime(start, k))
  }

  function After(issue: Issue, attempt: Attempt): Issue {
    match attempt
    case Failed => issue
    case Issued(at, recorded) => Issue(at, if recorded.Some? then recorded.value else issue.recorded)
  }

  /** The certificate on disk before tick `k`; `first` is the one before tick 0. */
  function IssuedBefore(start: nat, first: Issue, attempts: nat -> Attempt, k: nat): Issue {
    if k == 0 then first
    else
      var issue := IssuedBefore(start, first, attempts, k - 1);
      if Due(start, k - 1, issue) then After(issue, attempts(k - 1)) else issue
  }

  /** A certificate obtained at a tick is stamped no earlier than the tick, and what is recorded is no
      later than that. All times are far from the end of the 64-bit range. */
  ghost predicate Plausible(start: nat, first: Issue, attempts: nat -> Attempt, n: nat) {
    && first.recorded <= first.at < U64 / 2
    && TickTime(start, n) < U64 / 2
    && forall k :: 0 <= k < n && attempts(k).Issued? ==>
         && TickTime(start, k) <= attempts(k).at < U64 / 2
         && (attempts(k).recorded.Some? ==> attempts(k).recorded.value <= attempts(k).at)
  }

  lemma DueIff(start: nat, k: nat, issue: Issue)
    requires issue.recorded < U64 / 2 && TickTime(start, k) < U64 / 2
    ensures Due(start, k, issue) <==> TickTime(start, k) > issue.recorded + RENEW_AFTER
  {
  }

  lemma TicksAscend(start: nat, j: nat, k: nat)
    ensures j <= k ==> TickTime(start, j) <= TickTime(start, k)
  {
  }

  lemma {:induction false} IssueIsPlausible(start: nat, first: Issue, attempts: nat -> Attempt, n: nat)
    requires Plausible(start, first, attempts, n)
    ensures var issue := IssuedBefore(start, first, attempts, n);
            issue.recorded <= issue.at < U64 / 2
  {
    if n > 0 {
      TicksAscend(start, n - 1, n);
      IssueIsPlausible(start, first, attempts, n - 1);
      DueIff(start, n - 1, IssuedBefore(start, first, attempts, n - 1));
    }
  }

  /** A certificate that is on disk at tick `n` was on disk at every earlier tick more than sixty days
      after its issue, and every one of those ticks found it due, tried and failed. */
  lemma {:induction false} DueTicksFailed(start: nat, first: Issue, attempts: nat -> Attempt, n: nat, j: nat)
    requires Plausible(start, first, attempts, n) && j < n
    ensures var issue := IssuedBefore(start, first, attempts, n);
            start + j * 86_400 > issue.at + 60 * 86_400 ==>
              && IssuedBefore(start, first, attempts, j) == issue
              && Due(start, j, issue) && attempts(j).Failed?
  {
    var m := n - 1;
    TicksAscend(start, j, n);
    TicksAscend(start, m, n);
    TicksAscend(start, j, m);
    IssueIsPlausible(start, first, attempts, m);
    DueIff(start, m, IssuedBefore(start, first, attempts, m));
    if j < m {
      DueTicksFailed(start, first, attempts, m, j);
    }
  }

  /** The first tick after `t`. */
  function FirstAfter(start: nat, t: nat): nat
    requires start <= t
  {
    (t - start) / DAY + 1
  }

  /** Exactly thirty daily ticks fall in a thirty-day window that is open below and closed above. */
  lemma ThirtyTicks(start: nat, t: nat, j: nat)
    requires start <= t
    ensures t < start + j * 86_400 <= t + 30 * 86_400 <==>
            FirstAfter(start, t) <= j < FirstAfter(start, t) + 30
  {
  }

  /** With the loop running since before the certificate fell due: if the certificate on disk at
      tick `n` is older than ninety days, then thirty attempts, one on each of the thirty ticks
      between its sixtieth and its ninetieth day, all failed. */
  lemma ExpiryTakesThirtyFailures(start: nat, first: Issue, attempts: nat -> Attempt, n: nat)
    requires Plausible(start, first, attempts, n)
    requires var issue := IssuedBefore(start, first, attempts, n);
             start <= issue.at + 60 * 86_400 && start + n * 86_400 > issue.at + 90 * 86_400
    ensures var issue := IssuedBefore(start, first, attempts, n);
            var from := FirstAfter(start, issue.at + 60 * 86_400);
            && from + 30 <= n
            && forall j :: from <= j < from + 30 ==> Due(start, j, issue) && attempts(j).Failed?
  {
    var issue := IssuedBefore(start, first, attempts, n);
    var from := FirstAfter(start, issue.at + RENEW_AFTER);
    ThirtyTicks(start, issue.at + RENEW_AFTER, from + 29);
    TicksAscend(start, n, from + 29);
    forall j | from <= j < from + 30
      ensures Due(start, j, issue) && attempts(j).Failed?
    {
      ThirtyTicks(start, issue.at + RENEW_AFTER, j);
      DueTicksFailed(start, first, attempts, n, j);
    }
  }

  lemma {:induction false} FailuresKeepTheOld(start: nat, first: Issue, attempts: nat -> Attempt, from: nat, n: nat)
    requires from <= n && forall j :: from <= j < n ==> attempts(j).Failed?
    ensures IssuedBefore(start, first, attempts, n) == IssuedBefore(start, first, attempts, from)
  {
    if from < n {
      FailuresKeepTheOld(start, first, attempts, from, n - 1);
    }
  }

  /** And thirty failures are enough. */
  lemma ThirtyFailuresExpire(start: nat, first: Issue, attempts: nat -> Attempt, from: nat)
    requires var issue := IssuedBefore(start, first, attempts, from);
             start <= issue.at + 60 * 86_400 && from == FirstAfter(start, issue.at + 60 * 86_400)
    requires forall j :: from <= j < from + 30 ==> attempts(j).Failed?
    ensures start + (from + 30) * 86_400 > IssuedBefore(start, first, attempts, from + 30).at + 90 * 86_400
  {
    var issue := IssuedBefore(start, first, attempts, from);
    FailuresKeepTheOld(start, first, attempts, from, from + 30);
    ThirtyTicks(start, issue.at + RENEW_AFTER, from + 30);
    ThirtyTicks(start, issue.at + RENEW_AFTER, from);
    TicksAscend(start, from, from + 30);
  }

  // ----- polling under a deadline

  datatype Reply = Yes | NotYet | No

  /** One pass of a polling loop: how long the sleep and the query took, and the reply. */
  datatype Round = Round(slept: nat, queried: nat, reply: Reply)

  /** Milliseconds gone after `k` rounds. */
  function Elapsed(rounds: nat -> Round, k: nat): nat {
    if k == 0 then 0 else Elapsed(rounds, k - 1) + rounds(k - 1).slept + rounds(k - 1).queried
  }

  /** Round `k` is the first that is answered, or that ends with the deadline passed. */
  ghost predicate StopsAt(rounds: nat -> Round, limit: nat, k: nat) {
    && (forall j :: 0 <= j < k ==> rounds(j).reply == NotYet) && Elapsed(rounds, k) <= limit
    && (rounds(k).reply != NotYet || Elapsed(rounds, k + 1) > limit)
  }

  /** A `Yes` comes in time, with no `No` before it. */
  ghost predicate SaysYes(rounds: nat -> Round, limit: nat) {
    exists k: nat :: StopsAt(rounds, limit, k) && rounds(k).reply == Yes
  }

  lemma {:induction false} ElapsedGrows(rounds: nat -> Round, j: nat, k: nat)
    requires j <= k
    ensures Elapsed(rounds, j) <= Elapsed(rounds, k)
  {
    if j < k {
      ElapsedGrows(rounds, j, k - 1);
    }
  }

  lemma StopsOnce(rounds: nat -> Round, limit: nat, j: nat, k: nat)
    requires StopsAt(rounds, limit, j) && StopsAt(rounds, limit, k)
    ensures j == k
  {
    if j < k {
      ElapsedGrows(rounds, j + 1, k);
    } else if k < j {
      ElapsedGrows(rounds, k + 1, j);
    }
  }

  lemma SaysYesIff(rounds: nat -> Round, limit: nat, k: nat)
    requires StopsAt(rounds, limit, k)
    ensures SaysYes(rounds, limit) <==> rounds(k).reply == Yes
  {
    if SaysYes(rounds, limit) {
      var j: nat :| StopsAt(rounds, limit, j) && rounds(j).reply == Yes;
      StopsOnce(rounds, limit, j, k);
    }
  }

  /** A `Yes` in time is one whose round began within the limit, after rounds that said `NotYet`. */
  lemma YesInTime(rounds: nat -> Round, limit: nat)
    ensures SaysYes(rounds, limit) <==>
            exists k: nat :: && rounds(k).reply == Yes && Elapsed(rounds, k) <= limit
                             && forall j :: 0 <= j < k ==> rounds(j).reply == NotYet
  {
  }

  /** The time gone is that of the sleeps and queries so far. */
  lemma ElapsedIs(rounds: nat -> Round, k: nat)
    ensures Elapsed(rounds, 0) == 0
    ensures Elapsed(rounds, k + 1) - Elapsed(rounds, k) == rounds(k).slept + rounds(k).queried
  {
  }

  /** The bounds on the number of polls are reached: with sleeps of exactly the nominal length, instant
      queries and no answer, polling stops at round `limit / nominal` and at no other. */
  lemma BoundIsReached(rounds: nat -> Round, nominal: nat, limit: nat, k: nat)
    requires nominal > 0 && forall j :: 0 <= j <= limit / nominal ==> rounds(j) == Round(nominal, 0, NotYet)
    ensures StopsAt(rounds, limit, k) <==> k == limit / nominal
  {
    var last := limit / nominal;
    assert last * nominal <= limit < last * nominal + nominal;
    ExactSleeps(rounds, nominal, last);
    ExactSleeps(rounds, nominal, last + 1);
    TimesSuccessor(nominal, last);
    assert StopsAt(rounds, limit, last);
    if StopsAt(rounds, limit, k) {
      StopsOnce(rounds, limit, k, last);
    }
  }

  /** With exact sleeps and instant queries the clock shows the nominal sleeps. */
  lemma {:induction false} ExactSleeps(rounds: nat -> Round, nominal: nat, k: nat)
    requires forall j :: 0 <= j < k ==> rounds(j) == Round(nominal, 0, NotYet)
    ensures Elapsed(rounds, k) == k * nominal
  {
    if k > 0 {
      ExactSleeps(rounds, nominal, k - 1);
    }
  }

  lemma {:induction false} SleepsAddUp(rounds: nat -> Round, nominal: nat, k: nat)
    requires forall j :: 0 <= j < k ==> rounds(j).slept >= nominal
    ensures nominal * k <= Elapsed(rounds, k)
  {
    if k > 0 {
      SleepsAddUp(rounds, nominal, k - 1);
      TimesSuccessor(nominal, k - 1);
    }
  }

  /** What stopping at round `k` says: how many rounds fit, and whether a `Yes` came in time. */
  lemma StoppedAt(rounds: nat -> Round, nominal: nat, limit: nat, k: nat)
    requires forall j :: 0 <= j < k ==> rounds(j).slept >= nominal
    requires StopsAt(rounds, limit, k)
    ensures nominal * k <= limit
    ensures SaysYes(rounds, limit) <==> rounds(k).reply == Yes
  {
    SleepsAddUp(rounds, nominal, k);
    SaysYesIff(rounds, limit, k);
  }

  /** Sleep, query, and stop on an answer or once the deadline has passed. */
  method PollUntil(rounds: nat -> Round, nominal: nat, limit: nat) returns (ok: bool, polls: nat)
    requires nominal > 0 && forall j :: 0 <= j ==> rounds(j).slept >= nominal
    ensures 1 <= polls && nominal * (polls - 1) <= limit
    ensures StopsAt(rounds, limit, polls - 1)
    ensures ok <==> rounds(polls - 1).reply == Yes
    ensures ok <==> SaysYes(rounds, limit)
  {
    polls := 0;
    var now := 0;
    while true
      invariant now == Elapsed(rounds, polls) <= limit
      invariant forall j :: 0 <= j < polls ==> rounds(j).reply == NotYet
      decreases limit - now
    {
      var round := rounds(polls);
      assert round.slept >= nominal;
      now := now + round.slept + round.queried;
      polls := polls + 1;
      if round.reply != NotYet || now > limit {
        StoppedAt(rounds, nominal, limit, polls - 1);
      }
      match round.reply
      case Yes => return true, polls;
      case No => return false, polls;
      case NotYet =>
        if now > limit {
          return false, polls;
        }
    }
  }

  /** Waiting for the order, three seconds at a time for two minutes: at most 41 refreshes. */
  method PollOrder(rounds: nat -> Round) returns (ok: bool, refreshes: nat)
    requires forall j :: 0 <= j ==> rounds(j).slept >= 3_000
    ensures 1 <= refreshes <= 41 && StopsAt(rounds, 120_000, refreshes - 1)
    ensures ok <==> rounds(refreshes - 1).reply == Yes
    ensures ok <==> SaysYes(rounds, 120_000)
  {
    ok, refreshes := PollUntil(rounds, 3_000, 120_000);
  }

  /** Waiting for the certificate, two seconds at a time for one minute: at most 31 fetches. */
  method PollCertificate(rounds: nat -> Round) returns (ok: bool, fetches: nat)
    requires forall j :: 0 <= j ==> rounds(j).slept >= 2_000
    ensures 1 <= fetches <= 31 && StopsAt(rounds, 60_000, fetches - 1)
    ensures ok <==> rounds(fetches - 1).reply == Yes
    ensures ok <==> SaysYes(rounds, 60_000)
  {
    ok, fetches := PollUntil(rounds, 2_000, 60_000);
  }

  /** So 41 refreshes and 31 fetches do happen, when the server never answers. */
  lemma PollsAreReached(orderRounds: nat -> Round, certificateRounds: nat -> Round, k: nat)
    requires forall j :: 0 <= j <= 40 ==> orderRounds(j) == Round(3_000, 0, NotYet)
    requires forall j :: 0 <= j <= 30 ==> certificateRounds(j) == Round(2_000, 0, NotYet)
    ensures StopsAt(orderRounds, 120_000, k) <==> k + 1 == 41
    ensures StopsAt(certificateRounds, 60_000, k) <==> k + 1 == 31
  {
    BoundIsReached(orderRounds, 3_000, 120_000, k);
    BoundIsReached(certificateRounds, 2_000, 60_000, k);
  }
}
