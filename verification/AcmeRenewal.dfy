/** When a directory is due for renewal, and due again after a renewal that failed. */
module AcmeRenewal {
  import opened Prelude
  import opened AcmeProtocol
  import opened Acme
  import opened Renewal
  import opened Stamps

  /** `cert_needs_renewal` of a directory. */
  predicate IsDue(dir: Dir, parsed: string -> Option<nat>, now: nat) {
    NeedsRenewal(Cert in dir, Parsed(At(dir, IssuedAt), parsed), now)
  }

  /** A renewal that was due and did not get to writing the timestamp, however it stopped, leaves a
      directory that is due again, except when the certificate had been missing beside a recent
      timestamp and a new one is there now. */
  lemma UnfinishedIsStillDueIff(dir: Dir, actions: seq<Action>, parsed: string -> Option<nat>, now: nat)
    requires var s := Run(Init(dir), actions);
             s.stamped.None? && NeedsRenewal(s.was.0.Some?, Parsed(s.stampWas, parsed), now)
    ensures var s := Run(Init(dir), actions);
            IsDue(s.dir, parsed, now) <==>
            !(s.renamed >= 1 && s.was.0.None? && !NeedsRenewal(true, Parsed(s.stampWas, parsed), now))
  {
    TimestampComesLast(dir, actions);
    PairIsNeverTorn(dir, actions);
  }

  // ----- such an exception

  /** A whole order, up to its certificate, for any list of authorizations that offer HTTP-01. */
  lemma OrderGoesThrough(s: State, auths: seq<Authorization>, tp: string) returns (actions: seq<Action>)
    requires s.pc.Idle? && Lock !in s.dir && AllOfferHttp01(auths)
    ensures Run(s, actions) ==
            Begin(s).(dir := s.dir[Lock := ""], store := Filled(s.store, auths, tp, |auths|), pc := Fetching(auths, tp))
  {
    hide Run;
    var n := |auths|;
    var t, more;
    t, actions := OrderBegins(s, auths, tp);
    t, more := OrderIsServed(t, auths, tp);
    RunConcat(s, actions, more);
    actions := actions + more;
    RunAccepted(t, auths, tp, n);
    RunAnnounce(t, Accepted(n), t.(pc := Announcing(auths, tp, n)), auths, tp, n, true);
    more := Accepted(n) + [AnnounceOne(true)];
    RunConcat(s, actions, more);
    actions := actions + more;
    t, more := OrderStep(Run(t, more), true);
    RunConcat(s, actions, more);
    actions := actions + more;
  }

  lemma OrderBegins(s: State, auths: seq<Authorization>, tp: string) returns (t: State, actions: seq<Action>)
    requires s.pc.Idle? && Lock !in s.dir
    ensures Run(s, actions) == t == Begin(s).(dir := s.dir[Lock := ""], pc := Filling(auths, tp, 0))
  {
    RunOneMore(s, [], s, Tick);
    actions := [] + [Tick];
    RunOneMore(s, actions, Begin(s), LockWritten(true));
    actions := actions + [LockWritten(true)];
    RunOneMore(s, actions, Begin(s).(dir := s.dir[Lock := ""], pc := Ordering), Ordered(auths, tp));
    actions := actions + [Ordered(auths, tp)];
    t := Begin(s).(dir := s.dir[Lock := ""], pc := Filling(auths, tp, 0));
  }

  lemma OrderIsServed(s: State, auths: seq<Authorization>, tp: string) returns (t: State, actions: seq<Action>)
    requires s.pc == Filling(auths, tp, 0) && AllOfferHttp01(auths)
    ensures Run(s, actions) == t ==
            s.(store := Filled(s.store, auths, tp, |auths|), pc := Announcing(auths, tp, 0))
  {
    var n := |auths|;
    assert auths[..n] == auths;
    RunFills(s, auths, tp, n);
    RunFill(s, Fills(n), Run(s, Fills(n)), auths, tp, n);
    t, actions := Run(s, Fills(n) + [FillOne]), Fills(n) + [FillOne];
  }

  /** From there, both temporary files. */
  lemma TempsAreWritten(s: State, pair: Pair) returns (actions: seq<Action>)
    requires s.pc.Fetching?
    ensures Run(s, actions) ==
            s.(dir := s.dir[CertTmp := pair.cert][KeyTmp := pair.key], made := Some(pair), pc := RenamingCert(pair))
  {
    hide Run;
    var t, more;
    t, actions := CertificateStep(s, true, pair);
    t, more := WriteAction(t, Whole, "");
    RunConcat(s, actions, more);
    actions := actions + more;
    t, more := WriteAction(t, Whole, "");
    RunConcat(s, actions, more);
    actions := actions + more;
  }

  /** And then a second rename that fails. */
  lemma SecondRenameFails(s: State, pair: Pair) returns (actions: seq<Action>)
    requires s.pc == RenamingCert(pair) && CertTmp in s.dir
    ensures Run(s, actions) ==
            s.(dir := Renamed(s.dir, CertTmp, Cert), renamed := 1, stoppedBetween := true, pc := Cleaning(false, 0))
  {
    hide Run;
    var t, more;
    t, actions := RenameAction(s, true);
    t, more := RenameAction(t, false);
    RunConcat(s, actions, more);
    actions := actions + more;
  }

  /** One removal after an error, that works. */
  lemma RemovalWorks(s: State, i: nat) returns (t: State, actions: seq<Action>)
    requires s.pc == Cleaning(false, i) && i < 3
    ensures Run(s, actions) == t
    ensures t == s.(dir := s.dir - {ToRemove(false)[i]},
                    pc := if i < 2 then Cleaning(false, i + 1) else Clearing(false))
  {
    RemoveStep(s, [], s, true);
    t, actions := AfterRemove(s, true), [] + [Remove(true)];
  }

  lemma StoreIsCleared(s: State) returns (t: State, actions: seq<Action>)
    requires s.pc == Clearing(false)
    ensures Run(s, actions) == t == s.(store := map[], pc := Idle, last := Finished(false))
  {
    RunOneMore(s, [], s, ClearStore);
    t, actions := Step(s, ClearStore), [] + [ClearStore];
  }

  /** And then the removals and the clearing of the store. */
  lemma ErrorIsCleanedUp(s: State) returns (actions: seq<Action>)
    requires s.pc == Cleaning(false, 0)
    ensures Run(s, actions) ==
            s.(dir := s.dir - {Lock} - {CertTmp} - {KeyTmp}, store := map[], pc := Idle, last := Finished(false))
  {
    hide Run;
    var t, more;
    t, actions := RemovalWorks(s, 0);
    t, more := RemovalWorks(t, 1);
    RunConcat(s, actions, more);
    actions := actions + more;
    t, more := RemovalWorks(t, 2);
    RunConcat(s, actions, more);
    actions := actions + more;
    t, more := StoreIsCleared(t);
    RunConcat(s, actions, more);
    actions := actions + more;
  }

  /** The files after all that. */
  function Mixed(dir: Dir, pair: Pair): Dir {
    Renamed(dir[Lock := ""][CertTmp := pair.cert][KeyTmp := pair.key], CertTmp, Cert) - {Lock} - {CertTmp} - {KeyTmp}
  }

  lemma MixedIsReached(s: State, auths: seq<Authorization>, tp: string, pair: Pair) returns (actions: seq<Action>)
    requires s.pc.Idle? && Lock !in s.dir && AllOfferHttp01(auths)
    ensures Run(s, actions) ==
            Begin(s).(dir := Mixed(s.dir, pair), store := map[], made := Some(pair), renamed := 1,
                      stoppedBetween := true, pc := Idle, last := Finished(false))
  {
    hide Run;
    var more;
    actions := OrderGoesThrough(s, auths, tp);
    more := TempsAreWritten(Run(s, actions), pair);
    RunConcat(s, actions, more);
    actions := actions + more;
    more := SecondRenameFails(Run(s, actions), pair);
    RunConcat(s, actions, more);
    actions := actions + more;
    more := ErrorIsCleanedUp(Run(s, actions));
    RunConcat(s, actions, more);
    actions := actions + more;
  }

  /** The exception does happen, from every directory without a certificate and with a recent timestamp,
      and for every order: a provisioning whose second rename fails tidies up, returns its error, and
      leaves a certificate that is not due, before the old key or none. */
  lemma MissingCertificateIsNotDueAgain(dir: Dir, auths: seq<Authorization>, tp: string, pair: Pair,
                                        parsed: string -> Option<nat>, now: nat)
    returns (actions: seq<Action>)
    requires Lock !in dir && Cert !in dir && !NeedsRenewal(true, Parsed(At(dir, IssuedAt), parsed), now)
    requires AllOfferHttp01(auths)
    ensures var s := Run(Init(dir), actions);
            && IsDue(dir, parsed, now) && !IsDue(s.dir, parsed, now)
            && s.renamed == 1 && s.pc.Idle? && s.last == Finished(false)
            && OnDisk(s) == (Some(pair.cert), At(dir, Key)) && Tidy(s.dir)
  {
    actions := MixedIsReached(Init(dir), auths, tp, pair);
    assert At(Mixed(dir, pair), IssuedAt) == At(dir, IssuedAt);
  }

  // ----- what a tick leaves for later ones

  /** What a success leaves is due again exactly when sixty days have passed since the time it stamped. */
  lemma RenewedIsDueIff(pair: Pair, disk: Disk, before: Dir, after: Dir, parsed: string -> Option<nat>,
                        at: nat, later: nat)
    requires LeftBy(2, pair, disk, before, after) && disk.stampResult.Whole? && parsed(disk.stamp) == Some(at)
    requires at < U64 - RENEW_AFTER && later < U64 - RENEW_AFTER
    ensures IsDue(after, parsed, later) <==> later - at > 60 * 86_400
  {
    NeedsRenewalIff(true, Some(at), later);
  }

  /** Every way a provisioning that was due can fail to write its timestamp `at` whole, and exactly when
      what it leaves is due again: if the timestamp was not written to, always but for a certificate that
      had been missing beside a recent timestamp; if the write was torn, by the digits it lost. */
  lemma FailedIsDueAgainIff(renamed: nat, pair: Pair, disk: Disk, before: Dir, after: Dir,
                            parsed: string -> Option<nat>, at: nat, now: nat)
    requires renamed <= 2 && LeftBy(renamed, pair, disk, before, after) && IsDue(before, parsed, now)
    requires renamed < 2 || !disk.stampResult.Whole?
    requires ReadsDecimal(parsed) && disk.stamp == Digits(at) && at < U64 - RENEW_AFTER
    ensures IsDue(after, parsed, now) <==>
            if renamed == 2 && disk.stampResult.Torn? then
              now > WithoutDigits(at, Lost(at, disk.stampResult.length)) + 60 * 86_400
            else
              !(renamed >= 1 && Cert !in before && !NeedsRenewal(true, Parsed(At(before, IssuedAt), parsed), now))
  {
    if renamed == 2 && disk.stampResult.Torn? {
      TornReads(at, disk.stampResult.length, parsed);
    }
  }

  /** So losing a single digit of any time after the first 67 days of 1970 makes the certificate due at once. */
  lemma TornIsDueAtOnce(pair: Pair, disk: Disk, before: Dir, after: Dir, parsed: string -> Option<nat>,
                        at: nat, now: nat)
    requires LeftBy(2, pair, disk, before, after) && disk.stampResult.Torn?
    requires ReadsDecimal(parsed) && disk.stamp == Digits(at) && disk.stampResult.length < |Digits(at)|
    requires 5_760_000 < at <= now && at < U64 - RENEW_AFTER
    ensures IsDue(after, parsed, now)
  {
    TornReads(at, disk.stampResult.length, parsed);
  }

  /** A torn timestamp only brings the next renewal forward: whenever the certificate would be due by the
      stamp itself, it is due. */
  lemma TornStampIsDueSooner(pair: Pair, disk: Disk, before: Dir, after: Dir, parsed: string -> Option<nat>, later: nat)
    requires LeftBy(2, pair, disk, before, after) && disk.stampResult.Torn?
    requires PrefixesReadEarlier(disk.stamp, parsed)
    requires Reads(Some(disk.stamp), parsed) < U64 - RENEW_AFTER && later < U64 - RENEW_AFTER
    ensures NeedsRenewal(true, Parsed(Some(disk.stamp), parsed), later) ==> IsDue(after, parsed, later)
  {
    var stamp, left := disk.stamp, Prefix(disk.stamp, disk.stampResult.length);
    assert Reads(Some(left), parsed) <= Reads(Some(stamp), parsed);
  }
}
