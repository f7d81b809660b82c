/** The body of `provision_with_store`, running against a cache directory and a challenge store,
    shown to follow the protocol. */
module Acme {
  import opened Prelude
  import opened AcmeProtocol
  import opened Renewal

  /** The cache directory. Every operation may fail as `outcome` says. */
  class CacheDir {
    var files: Dir

    constructor (files: Dir)
      ensures this.files == files
    {
      this.files := files;
    }

    method WriteFile(name: Name, content: string, outcome: WriteResult) returns (ok: bool)
      modifies this
      ensures files == Written(old(files), name, content, outcome) && ok == outcome.Whole?
    {
      match outcome
      case Whole => files := files[name := content]; return true;
      case NotOpened => return false;
      case Torn(length) => files := files[name := Prefix(content, length)]; return false;
    }

    method RenameFile(source: Name, target: Name, outcome: bool) returns (ok: bool)
      modifies this
      ensures ok <==> outcome && source in old(files)
      ensures files == if ok then Renamed(old(files), source, target) else old(files)
    {
      if !outcome || source !in files {
        return false;
      }
      var content := files[source];
      files := (files - {source})[target := content];
      return true;
    }

    method RemoveFile(name: Name, outcome: bool)
      modifies this
      ensures files == if outcome then old(files) - {name} else old(files)
    {
      if outcome {
        files := files - {name};
      }
    }

    /** `cert_needs_renewal`; `parsed` is what the timestamp file's content parses to. */
    method CertNeedsRenewal(now: nat, parsed: string -> Option<nat>) returns (due: bool)
      ensures due == NeedsRenewal(Cert in files, if IssuedAt in files then parsed(files[IssuedAt]) else None, now)
      ensures Cert !in files ==> due
      ensures Cert in files && IssuedAt in files && parsed(files[IssuedAt]).Some? ==>
                (due <==> now > (parsed(files[IssuedAt]).value + 5_184_000) % 0x1_0000_0000_0000_0000)
      ensures Cert in files && (IssuedAt !in files || parsed(files[IssuedAt]).None?) ==> (due <==> now > 5_184_000)
    {
      if Cert !in files {
        return true;
      }
      var issuedAt: nat := 0;
      if IssuedAt in files && parsed(files[IssuedAt]).Some? {
        issuedAt := parsed(files[IssuedAt]).value;
      }
      return now > (issuedAt + RENEW_AFTER) % U64;
    }
  }

  /** The challenge store shared with the redirect server. */
  class ChallengeStore {
    var entries: Store

    constructor ()
      ensures entries == map[]
    {
      entries := map[];
    }
  }

  /** What the ACME server answers: the order's authorizations and account thumbprint, if it gets
      that far, whether each announcement is accepted, the two polls, and the pair obtained. */
  datatype Server = Server(order: Option<(seq<Authorization>, string)>, accepts: nat -> bool,
                           orderRounds: nat -> Round, finalizes: bool, certificateRounds: nat -> Round, pair: Pair)

  /** What the file operations come to. */
  datatype Disk = Disk(lock: bool, cert: WriteResult, key: WriteResult, renameCert: bool, renameKey: bool,
                       stamp: string, stampResult: WriteResult, removes: nat -> bool)

  ghost predicate SleepsHold(server: Server) {
    && (forall j :: 0 <= j ==> server.orderRounds(j).slept >= 3_000)
    && forall j :: 0 <= j ==> server.certificateRounds(j).slept >= 2_000
  }

  predicate AllOfferHttp01(auths: seq<Authorization>) {
    forall i :: 0 <= i < |auths| ==> auths[i].offersHttp01
  }

  predicate AllAccepted(auths: seq<Authorization>, accepts: nat -> bool) {
    forall i :: 0 <= i < |auths| ==> accepts(i)
  }

  /** Everything the server has to do for a provisioning to succeed. */
  ghost predicate ServerCooperates(server: Server) {
    && server.order.Some?
    && AllOfferHttp01(server.order.value.0) && AllAccepted(server.order.value.0, server.accepts)
    && SaysYes(server.orderRounds, 120_000) && server.finalizes && SaysYes(server.certificateRounds, 60_000)
  }

  /** Every write and rename works. */
  predicate DiskWorks(disk: Disk) {
    disk.cert.Whole? && disk.key.Whole? && disk.renameCert && disk.renameKey && disk.stampResult.Whole?
  }

  /** How many renames the disk lets through. */
  function RenamesOf(disk: Disk): nat {
    if !disk.cert.Whole? || !disk.key.Whole? || !disk.renameCert then 0 else if !disk.renameKey then 1 else 2
  }

  /** How many renames a provisioning comes to. */
  ghost function RenamesDone(before: Dir, server: Server, disk: Disk): nat {
    if Lock !in before && disk.lock && ServerCooperates(server) then RenamesOf(disk) else 0
  }

  /** Of the pair, so many files are new and the rest are as they were; the timestamp is as it was. */
  ghost predicate Moved(renamed: nat, pair: Pair, before: Dir, after: Dir) {
    && At(after, Cert) == (if renamed == 0 then At(before, Cert) else Some(pair.cert))
    && At(after, Key) == (if renamed < 2 then At(before, Key) else Some(pair.key))
    && At(after, IssuedAt) == At(before, IssuedAt)
  }

  /** The timestamp file after its write. */
  function StampAfter(before: Option<string>, disk: Disk): Option<string> {
    match disk.stampResult
    case Whole => Some(disk.stamp)
    case NotOpened => before
    case Torn(length) => Some(Prefix(disk.stamp, length))
  }

  /** What a provisioning that comes to so many renames leaves for later ticks to find. The timestamp
      is written only after both. */
  ghost predicate LeftBy(renamed: nat, pair: Pair, disk: Disk, before: Dir, after: Dir) {
    if renamed < 2 then Moved(renamed, pair, before, after)
    else
      && At(after, Cert) == Some(pair.cert) && At(after, Key) == Some(pair.key)
      && At(after, IssuedAt) == StampAfter(At(before, IssuedAt), disk)
  }

  ghost predicate SamePairAndStamp(before: Dir, after: Dir) {
    && At(after, Cert) == At(before, Cert) && At(after, Key) == At(before, Key)
    && At(after, IssuedAt) == At(before, IssuedAt)
  }

  predicate AllWork(removes: nat -> bool, n: nat) {
    forall i :: 0 <= i < n ==> removes(i)
  }

  ghost predicate Matches(cache: CacheDir, store: ChallengeStore, s: State)
    reads cache, store
  {
    cache.files == s.dir && store.entries == s.store
  }

  lemma RunNothing(s: State)
    ensures Run(s, []) == s
  {
  }

  lemma RunOneMore(s: State, before: seq<Action>, t: State, a: Action)
    requires Run(s, before) == t
    ensures Run(s, before + [a]) == Step(t, a)
  {
  }

  lemma {:induction false} RunConcat(s: State, a: seq<Action>, b: seq<Action>)
    ensures Run(s, a + b) == Run(Run(s, a), b)
  {
    if b == [] {
      assert a + b == a;
    } else {
      RunConcat(s, a, b[..|b| - 1]);
      assert (a + b)[..|a + b| - 1] == a + b[..|b| - 1];
    }
  }

  /** The step that ends the wait for the order. */
  lemma OrderStep(s: State, ok: bool) returns (t: State, actions: seq<Action>)
    requires s.pc.Polling?
    ensures Run(s, actions) == t
    ensures t == s.(pc := if ok then Fetching(s.pc.auths, s.pc.thumbprint) else Cleaning(false, 0))
  {
    var a := if ok then Ready else NetworkFails;
    RunOneMore(s, [], s, a);
    t, actions := Step(s, a), [] + [a];
  }

  /** The step that ends the wait for the certificate. */
  lemma CertificateStep(s: State, ok: bool, pair: Pair) returns (t: State, actions: seq<Action>)
    requires s.pc.Fetching?
    ensures Run(s, actions) == t
    ensures t == if ok then s.(pc := WritingCert(pair), made := Some(pair)) else s.(pc := Cleaning(false, 0))
  {
    var a := if ok then Fetched(pair) else NetworkFails;
    RunOneMore(s, [], s, a);
    t, actions := Step(s, a), [] + [a];
  }

  lemma WriteOrRename(s: State, ok: bool, result: WriteResult, stamp: string)
    ensures Writing(s.pc, stamp).Some? ==> Step(s, Write(result, stamp)) == AfterWrite(s, result, stamp)
    ensures s.pc.RenamingCert? || s.pc.RenamingKey? ==> Step(s, Rename(ok)) == AfterRename(s, ok)
  {
  }

  /** One write. */
  lemma WriteAction(s: State, result: WriteResult, stamp: string) returns (t: State, actions: seq<Action>)
    requires Writing(s.pc, stamp).Some?
    ensures Run(s, actions) == t == AfterWrite(s, result, stamp)
  {
    WriteOrRename(s, true, result, stamp);
    RunOneMore(s, [], s, Write(result, stamp));
    t, actions := AfterWrite(s, result, stamp), [] + [Write(result, stamp)];
  }

  /** One rename. */
  lemma RenameAction(s: State, ok: bool) returns (t: State, actions: seq<Action>)
    requires s.pc.RenamingCert? || s.pc.RenamingKey?
    ensures Run(s, actions) == t == AfterRename(s, ok)
  {
    WriteOrRename(s, ok, Whole, "");
    RunOneMore(s, [], s, Rename(ok));
    t, actions := AfterRename(s, ok), [] + [Rename(ok)];
  }

  /** One `FillOne` in closed form. */
  lemma RunFill(s: State, before: seq<Action>, t: State, auths: seq<Authorization>, tp: string, i: nat)
    requires Run(s, before) == t && t.pc == Filling(auths, tp, i)
    ensures Run(s, before + [FillOne]) ==
            if i >= |auths| then t.(pc := Announcing(auths, tp, 0))
            else if !auths[i].offersHttp01 then t.(pc := Cleaning(false, 0))
            else t.(store := t.store[auths[i].token := KeyAuthorization(auths[i].token, tp)],
                    pc := Filling(auths, tp, i + 1))
  {
    RunOneMore(s, before, t, FillOne);
  }

  lemma AnnounceStep(t: State, auths: seq<Authorization>, tp: string, i: nat, ok: bool)
    requires t.pc == Announcing(auths, tp, i)
    ensures Step(t, AnnounceOne(ok)) ==
            t.(pc := if i >= |auths| then Polling(auths, tp)
                     else if ok then Announcing(auths, tp, i + 1)
                     else Cleaning(false, 0))
  {
  }

  /** One `AnnounceOne` in closed form. */
  lemma RunAnnounce(s: State, before: seq<Action>, t: State, auths: seq<Authorization>, tp: string, i: nat, ok: bool)
    requires Run(s, before) == t && t.pc == Announcing(auths, tp, i)
    ensures Run(s, before + [AnnounceOne(ok)]) ==
            t.(pc := if i >= |auths| then Polling(auths, tp)
                     else if ok then Announcing(auths, tp, i + 1)
                     else Cleaning(false, 0))
  {
    AnnounceStep(t, auths, tp, i, ok);
    RunOneMore(s, before, t, AnnounceOne(ok));
  }

  ghost function Accepted(n: nat): seq<Action> {
    if n == 0 then [] else Accepted(n - 1) + [AnnounceOne(true)]
  }

  /** The first `n` announcements, all accepted. */
  lemma {:induction false} RunAccepted(s: State, auths: seq<Authorization>, tp: string, n: nat)
    requires s.pc == Announcing(auths, tp, 0) && n <= |auths|
    ensures Run(s, Accepted(n)) == s.(pc := Announcing(auths, tp, n))
  {
    if n > 0 {
      var t := s.(pc := Announcing(auths, tp, n - 1));
      RunAccepted(s, auths, tp, n - 1);
      RunAnnounce(s, Accepted(n - 1), t, auths, tp, n - 1, true);
      assert Accepted(n) == Accepted(n - 1) + [AnnounceOne(true)];
    }
  }

  ghost function Fills(n: nat): seq<Action> {
    if n == 0 then [] else Fills(n - 1) + [FillOne]
  }

  /** The store with the challenges of the first `n` authorizations added. */
  ghost function Filled(store: Store, auths: seq<Authorization>, tp: string, n: nat): Store
    requires n <= |auths|
  {
    if n == 0 then store
    else Filled(store, auths, tp, n - 1)[auths[n - 1].token := KeyAuthorization(auths[n - 1].token, tp)]
  }

  lemma {:induction false} RunFills(s: State, auths: seq<Authorization>, tp: string, n: nat)
    requires s.pc == Filling(auths, tp, 0) && n <= |auths| && AllOfferHttp01(auths[..n])
    ensures Run(s, Fills(n)) == s.(store := Filled(s.store, auths, tp, n), pc := Filling(auths, tp, n))
  {
    if n > 0 {
      assert auths[..n - 1] == auths[..n][..n - 1] && auths[n - 1] == auths[..n][n - 1];
      RunFills(s, auths, tp, n - 1);
      RunFill(s, Fills(n - 1), Run(s, Fills(n - 1)), auths, tp, n - 1);
    }
  }

  /** Stores the challenge of every authorization, stopping at the first that offers none. */
  method FillStore(store: ChallengeStore, auths: seq<Authorization>, thumbprint: string, ghost s: State)
    returns (ok: bool, ghost t: State, ghost actions: seq<Action>)
    requires s.pc == Filling(auths, thumbprint, 0) && store.entries == s.store
    modifies store
    ensures Run(s, actions) == t && store.entries == t.store && t.dir == s.dir
    ensures t.pc == if ok then Announcing(auths, thumbprint, 0) else Cleaning(false, 0)
    ensures ok <==> AllOfferHttp01(auths)
  {
    for i := 0 to |auths|
      invariant store.entries == Filled(s.store, auths, thumbprint, i)
      invariant AllOfferHttp01(auths[..i])
    {
      if !auths[i].offersHttp01 {
        RunFills(s, auths, thumbprint, i);
        t := s.(store := store.entries, pc := Filling(auths, thumbprint, i));
        RunFill(s, Fills(i), t, auths, thumbprint, i);
        return false, t.(pc := Cleaning(false, 0)), Fills(i) + [FillOne];
      }
      store.entries := store.entries[auths[i].token := KeyAuthorization(auths[i].token, thumbprint)];
      assert auths[..i + 1] == auths[..i] + [auths[i]];
    }
    assert auths[..|auths|] == auths;
    RunFills(s, auths, thumbprint, |auths|);
    t := s.(store := store.entries, pc := Filling(auths, thumbprint, |auths|));
    RunFill(s, Fills(|auths|), t, auths, thumbprint, |auths|);
    return true, t.(pc := Announcing(auths, thumbprint, 0)), Fills(|auths|) + [FillOne];
  }

  /** Announces every challenge, stopping at the first refusal. */
  method Announce(auths: seq<Authorization>, thumbprint: string, accepts: nat -> bool, ghost s: State)
    returns (ok: bool, ghost t: State, ghost actions: seq<Action>)
    requires s.pc == Announcing(auths, thumbprint, 0)
    ensures Run(s, actions) == t && t.store == s.store && t.dir == s.dir
    ensures t.pc == if ok then Polling(auths, thumbprint) else Cleaning(false, 0)
    ensures ok <==> AllAccepted(auths, accepts)
  {
    for i := 0 to |auths|
      invariant forall j :: 0 <= j < i ==> accepts(j)
    {
      if !accepts(i) {
        RunAccepted(s, auths, thumbprint, i);
        RunAnnounce(s, Accepted(i), s.(pc := Announcing(auths, thumbprint, i)), auths, thumbprint, i, false);
        return false, s.(pc := Cleaning(false, 0)), Accepted(i) + [AnnounceOne(false)];
      }
    }
    ghost var n := |auths|;
    RunAccepted(s, auths, thumbprint, n);
    RunAnnounce(s, Accepted(n), s.(pc := Announcing(auths, thumbprint, n)), auths, thumbprint, n, true);
    return true, s.(pc := Polling(auths, thumbprint)), Accepted(n) + [AnnounceOne(true)];
  }

  /** Polls until the order is ready. */
  method AwaitOrder(server: Server, ghost s: State) returns (ok: bool, ghost t: State, ghost actions: seq<Action>)
    requires SleepsHold(server) && s.pc.Polling?
    ensures Run(s, actions) == t && t.store == s.store && t.dir == s.dir
    ensures if ok then t.pc.Fetching? else t.pc == Cleaning(false, 0)
    ensures ok <==> SaysYes(server.orderRounds, 120_000)
  {
    var refreshes;
    ok, refreshes := PollOrder(server.orderRounds);
    t, actions := OrderStep(s, ok);
  }

  /** Finalizes the order and polls until the certificate is there. */
  method AwaitCertificate(server: Server, ghost s: State) returns (ok: bool, ghost t: State, ghost actions: seq<Action>)
    requires SleepsHold(server) && s.pc.Fetching?
    ensures Run(s, actions) == t && t.store == s.store && t.dir == s.dir
    ensures t.pc == if ok then WritingCert(server.pair) else Cleaning(false, 0)
    ensures ok <==> server.finalizes && SaysYes(server.certificateRounds, 60_000)
  {
    ok := server.finalizes;
    if ok {
      var fetches;
      ok, fetches := PollCertificate(server.certificateRounds);
    }
    t, actions := CertificateStep(s, ok, server.pair);
  }

  /** One write of the protocol: to a temporary file, or of the timestamp. */
  method WriteStep(cache: CacheDir, name: Name, content: string, outcome: WriteResult, ghost stamp: string,
                   ghost s: State)
    returns (ok: bool, ghost t: State, ghost actions: seq<Action>)
    requires Writing(s.pc, stamp) == Some((name, content)) && cache.files == s.dir
    modifies cache
    ensures Run(s, actions) == t && cache.files == t.dir && t.store == s.store
    ensures ok ==> t.pc == (match s.pc
                            case WritingCert(p) => WritingKey(p)
                            case WritingKey(p) => RenamingCert(p)
                            case _ => Cleaning(true, 0))
    ensures !ok ==> t.pc == Cleaning(false, 0)
    ensures ok <==> outcome.Whole?
    ensures cache.files == Written(old(cache.files), name, content, outcome)
  {
    t, actions := WriteAction(s, outcome, stamp);
    ok := cache.WriteFile(name, content, outcome);
  }

  /** One rename of the protocol. */
  method RenameStep(cache: CacheDir, source: Name, target: Name, outcome: bool, ghost s: State)
    returns (ok: bool, ghost t: State, ghost actions: seq<Action>)
    requires (s.pc.RenamingCert? && source == CertTmp && target == Cert)
          || (s.pc.RenamingKey? && source == KeyTmp && target == Key)
    requires cache.files == s.dir
    modifies cache
    ensures Run(s, actions) == t && cache.files == t.dir && t.store == s.store
    ensures t.pc == if !ok then Cleaning(false, 0)
                    else if s.pc.RenamingCert? then RenamingKey(s.pc.pair) else Stamping(s.pc.pair)
    ensures ok <==> outcome && source in old(cache.files)
    ensures cache.files == if ok then Renamed(old(cache.files), source, target) else old(cache.files)
  {
    t, actions := RenameAction(s, outcome);
    ok := cache.RenameFile(source, target, outcome);
  }

  /** The two temporary files. */
  method WriteTemps(cache: CacheDir, pair: Pair, disk: Disk, ghost s: State)
    returns (ok: bool, ghost t: State, ghost actions: seq<Action>)
    requires s.pc == WritingCert(pair) && cache.files == s.dir
    modifies cache
    ensures Run(s, actions) == t && cache.files == t.dir && t.store == s.store
    ensures t.pc == if ok then RenamingCert(pair) else Cleaning(false, 0)
    ensures ok <==> disk.cert.Whole? && disk.key.Whole?
    ensures ok ==> At(cache.files, CertTmp) == Some(pair.cert) && At(cache.files, KeyTmp) == Some(pair.key)
    ensures SamePairAndStamp(old(cache.files), cache.files)
  {
    hide Run;
    ghost var more;
    ok, t, actions := WriteStep(cache, CertTmp, pair.cert, disk.cert, disk.stamp, s);
    if !ok {
      return;
    }
    ok, t, more := WriteStep(cache, KeyTmp, pair.key, disk.key, disk.stamp, t);
    RunConcat(s, actions, more);
    actions := actions + more;
  }

  /** The two renames. */
  method MovePair(cache: CacheDir, pair: Pair, disk: Disk, ghost s: State)
    returns (ok: bool, ghost t: State, ghost actions: seq<Action>)
    requires s.pc == RenamingCert(pair) && cache.files == s.dir
    requires At(cache.files, CertTmp) == Some(pair.cert) && At(cache.files, KeyTmp) == Some(pair.key)
    modifies cache
    ensures Run(s, actions) == t && cache.files == t.dir && t.store == s.store
    ensures t.pc == if ok then Stamping(pair) else Cleaning(false, 0)
    ensures ok <==> disk.renameCert && disk.renameKey
    ensures Moved(if !disk.renameCert then 0 else if !disk.renameKey then 1 else 2,
                  pair, old(cache.files), cache.files)
  {
    hide Run;
    ghost var more;
    ok, t, actions := RenameStep(cache, CertTmp, Cert, disk.renameCert, s);
    if !ok {
      return;
    }
    ok, t, more := RenameStep(cache, KeyTmp, Key, disk.renameKey, t);
    RunConcat(s, actions, more);
    actions := actions + more;
  }

  /** The write of the timestamp, once the new pair is in place. */
  lemma StampLeaves(pair: Pair, disk: Disk, before: Dir, moved: Dir)
    requires Moved(2, pair, before, moved)
    ensures LeftBy(2, pair, disk, before, Written(moved, IssuedAt, disk.stamp, disk.stampResult))
  {
  }

  /** Temporary files, renames, timestamp. */
  method WritePair(cache: CacheDir, pair: Pair, disk: Disk, ghost s: State)
    returns (ok: bool, ghost t: State, ghost actions: seq<Action>)
    requires s.pc == WritingCert(pair) && cache.files == s.dir
    modifies cache
    ensures Run(s, actions) == t && cache.files == t.dir && t.store == s.store
    ensures t.pc == Cleaning(ok, 0)
    ensures ok <==> DiskWorks(disk)
    ensures LeftBy(RenamesOf(disk), pair, disk, old(cache.files), cache.files)
  {
    hide Run;
    ghost var more;
    ok, t, actions := WriteTemps(cache, pair, disk, s);
    if !ok {
      return;
    }
    ok, t, more := MovePair(cache, pair, disk, t);
    RunConcat(s, actions, more);
    actions := actions + more;
    if !ok {
      return;
    }
    StampLeaves(pair, disk, old(cache.files), cache.files);
    ok, t, more := WriteStep(cache, IssuedAt, disk.stamp, disk.stampResult, disk.stamp, t);
    RunConcat(s, actions, more);
    actions := actions + more;
  }

  /** One removal in closed form. */
  lemma RemoveStep(s: State, before: seq<Action>, t: State, ok: bool)
    requires Run(s, before) == t && t.pc.Cleaning? && t.pc.next < |ToRemove(t.pc.ok)|
    ensures Run(s, before + [Remove(ok)]) == AfterRemove(t, ok)
    ensures ok ==> AfterRemove(t, ok).stuck == t.stuck
    ensures SamePairAndStamp(t.dir, AfterRemove(t, ok).dir)
  {
    RunOneMore(s, before, t, Remove(ok));
  }

  /** Removes the lockfile and, after an error, the temporary files; failures are ignored. */
  method CleanUp(cache: CacheDir, ok: bool, removes: nat -> bool, ghost s: State)
    returns (ghost t: State, ghost actions: seq<Action>)
    requires s.pc == Cleaning(ok, 0) && cache.files == s.dir
    modifies cache
    ensures Run(s, actions) == t && cache.files == t.dir && t.store == s.store && t.pc == Clearing(ok)
    ensures AllWork(removes, |ToRemove(ok)|) ==> t.stuck == s.stuck
    ensures SamePairAndStamp(old(cache.files), cache.files)
    ensures Lock in cache.files <==> Lock in old(cache.files) && !removes(0)
  {
    hide Run;
    RunNothing(s);
    t, actions := s, [];
    var names := ToRemove(ok);
    for i := 0 to |names|
      invariant Run(s, actions) == t && cache.files == t.dir && t.store == s.store
      invariant t.pc == if i < |names| then Cleaning(ok, i) else Clearing(ok)
      invariant AllWork(removes, i) ==> t.stuck == s.stuck
      invariant SamePairAndStamp(old(cache.files), cache.files)
      invariant Lock in cache.files <==> Lock in old(cache.files) && (i == 0 || !removes(0))
    {
      RemoveStep(s, actions, t, removes(i));
      t, actions := AfterRemove(t, removes(i)), actions + [Remove(removes(i))];
      cache.RemoveFile(names[i], removes(i));
    }
  }

  /** Gets the order, stores its challenges, announces them. */
  method Offer(store: ChallengeStore, server: Server, ghost s: State)
    returns (ok: bool, ghost t: State, ghost actions: seq<Action>)
    requires s.pc.Ordering? && store.entries == s.store
    modifies store
    ensures Run(s, actions) == t && store.entries == t.store && t.dir == s.dir
    ensures if ok then t.pc.Polling? else t.pc == Cleaning(false, 0)
    ensures ok <==> && server.order.Some? && AllOfferHttp01(server.order.value.0)
                    && AllAccepted(server.order.value.0, server.accepts)
  {
    if server.order.None? {
      RunOneMore(s, [], s, NetworkFails);
      return false, Step(s, NetworkFails), [] + [NetworkFails];
    }
    var (auths, thumbprint) := server.order.value;
    ghost var more;
    RunOneMore(s, [], s, Ordered(auths, thumbprint));
    t, actions := Step(s, Ordered(auths, thumbprint)), [] + [Ordered(auths, thumbprint)];
    ok, t, more := FillStore(store, auths, thumbprint, t);
    RunConcat(s, actions, more);
    actions := actions + more;
    if !ok {
      return;
    }
    ok, t, more := Announce(auths, thumbprint, server.accepts, t);
    RunConcat(s, actions, more);
    actions := actions + more;
  }

  /** `provision_inner_with_store`, from the order to the timestamp. */
  method Obtain(cache: CacheDir, store: ChallengeStore, server: Server, disk: Disk, ghost s: State)
    returns (ok: bool, ghost t: State, ghost actions: seq<Action>)
    requires SleepsHold(server) && s.pc.Ordering? && Matches(cache, store, s)
    modifies cache, store
    ensures Run(s, actions) == t && Matches(cache, store, t) && t.pc == Cleaning(ok, 0)
    ensures ok <==> ServerCooperates(server) && DiskWorks(disk)
    ensures LeftBy(if ServerCooperates(server) then RenamesOf(disk) else 0, server.pair, disk,
                   old(cache.files), cache.files)
  {
    hide Run;
    ghost var more;
    ok, t, actions := Offer(store, server, s);
    if !ok {
      return;
    }
    ok, t, more := AwaitOrder(server, t);
    RunConcat(s, actions, more);
    actions := actions + more;
    if !ok {
      return;
    }
    ok, t, more := AwaitCertificate(server, t);
    RunConcat(s, actions, more);
    actions := actions + more;
    if !ok {
      return;
    }
    ok, t, more := WritePair(cache, server.pair, disk, t);
    RunConcat(s, actions, more);
    actions := actions + more;
  }

  /** Empties the store, last of all. */
  method ClearChallenges(store: ChallengeStore, ghost s: State) returns (ghost t: State, ghost actions: seq<Action>)
    requires s.pc.Clearing?
    modifies store
    ensures Run(s, actions) == t && store.entries == t.store && t.dir == s.dir
    ensures t.pc.Idle? && t.last == Finished(s.pc.ok) && t.stuck == s.stuck
  {
    RunOneMore(s, [], s, ClearStore);
    t, actions := Step(s, ClearStore), [] + [ClearStore];
    store.entries := map[];
  }

  predicate Tidy(dir: Dir) {
    Lock !in dir && CertTmp !in dir && KeyTmp !in dir
  }

  lemma TidyAtTheEnd(s: State)
    requires Inv(s) && s.pc.Idle? && s.last.Finished? && !s.stuck
    ensures Tidy(s.dir)
  {
  }

  /** Everything done while the lockfile is held, and its removal. */
  method ProvisionLocked(cache: CacheDir, store: ChallengeStore, server: Server, disk: Disk, ghost s: State)
    returns (ok: bool, ghost t: State, ghost actions: seq<Action>)
    requires SleepsHold(server) && s.pc.Ordering? && Matches(cache, store, s) && Inv(s)
    modifies cache, store
    ensures Run(s, actions) == t && Matches(cache, store, t) && t.pc.Idle? && t.last == Finished(ok) && Inv(t)
    ensures ok <==> ServerCooperates(server) && DiskWorks(disk)
    ensures LeftBy(if ServerCooperates(server) then RenamesOf(disk) else 0, server.pair, disk,
                   old(cache.files), cache.files)
    ensures AllWork(disk.removes, |ToRemove(ok)|) ==> Tidy(cache.files)
    ensures Lock in cache.files <==> !disk.removes(0)
  {
    hide Run;
    ghost var more;
    ok, t, actions := Obtain(cache, store, server, disk, s);
    InvIsKept(s, actions);
    assert Lock in cache.files;
    t, more := CleanUp(cache, ok, disk.removes, t);
    RunConcat(s, actions, more);
    actions := actions + more;
    t, more := ClearChallenges(store, t);
    RunConcat(s, actions, more);
    actions := actions + more;
    InvIsKept(s, actions);
    if !t.stuck {
      TidyAtTheEnd(t);
    }
  }

  /** Checks for the lockfile and creates it. */
  method TakeLock(cache: CacheDir, disk: Disk, ghost s: State)
    returns (locked: bool, ghost t: State, ghost actions: seq<Action>)
    requires s.pc.Idle? && cache.files == s.dir && Inv(s)
    modifies cache
    ensures Run(s, actions) == t && cache.files == t.dir && t.store == s.store && Inv(t)
    ensures SamePairAndStamp(old(cache.files), cache.files)
    ensures locked <==> Lock !in old(cache.files) && disk.lock
    ensures if locked then t.pc.Ordering?
            else t.pc.Idle? && cache.files == old(cache.files)
                 && t.last == if Lock in old(cache.files) then Busy else NoLock
  {
    RunOneMore(s, [], s, Tick);
    t, actions := Begin(s), [] + [Tick];
    StepKeepsInv(s, Tick);
    if Lock in cache.files {
      return false, t, actions;
    }
    RunOneMore(s, actions, t, LockWritten(disk.lock));
    StepKeepsInv(t, LockWritten(disk.lock));
    t, actions := Step(t, LockWritten(disk.lock)), actions + [LockWritten(disk.lock)];
    locked := cache.WriteFile(Lock, "", if disk.lock then Whole else NotOpened);
  }

  /** What it takes of the server: an order that is answered in time, whose challenges can be stored and are
      accepted, and a certificate in time. */
  lemma CooperationIs(server: Server)
    ensures ServerCooperates(server) <==>
            && server.order.Some?
            && (forall i :: 0 <= i < |server.order.value.0| ==>
                  server.order.value.0[i].offersHttp01 && server.accepts(i))
            && (exists k: nat :: && server.orderRounds(k).reply.Yes? && Elapsed(server.orderRounds, k) <= 120_000
                                 && forall j :: 0 <= j < k ==> server.orderRounds(j).reply.NotYet?)
            && server.finalizes
            && (exists k: nat ::
                  && server.certificateRounds(k).reply.Yes? && Elapsed(server.certificateRounds, k) <= 60_000
                  && forall j :: 0 <= j < k ==> server.certificateRounds(j).reply.NotYet?)
  {
    YesInTime(server.orderRounds, 120_000);
    YesInTime(server.certificateRounds, 60_000);
  }

  /** What is left, file by file. */
  lemma LeftByMeans(pair: Pair, disk: Disk, before: Dir, after: Dir, went: bool)
    requires LeftBy(if went then RenamesOf(disk) else 0, pair, disk, before, after)
    ensures var first := went && disk.cert.Whole? && disk.key.Whole? && disk.renameCert;
            var both := first && disk.renameKey;
            && At(after, Cert) == (if first then Some(pair.cert) else At(before, Cert))
            && At(after, Key) == (if both then Some(pair.key) else At(before, Key))
            && (!both || disk.stampResult.NotOpened? ==> At(after, IssuedAt) == At(before, IssuedAt))
            && (both && disk.stampResult.Whole? ==> At(after, IssuedAt) == Some(disk.stamp))
            && (both && disk.stampResult.Torn? ==>
                  exists n: nat :: n <= |disk.stamp| && At(after, IssuedAt) == Some(disk.stamp[..n])
                                   && (n == disk.stampResult.length || n == |disk.stamp| < disk.stampResult.length))
  {
    if went && RenamesOf(disk) == 2 && disk.stampResult.Torn? {
      var length := disk.stampResult.length;
      var n := if length <= |disk.stamp| then length else |disk.stamp|;
      assert Prefix(disk.stamp, length) == disk.stamp[..n];
    }
  }

  lemma LeftBySame(renamed: nat, pair: Pair, disk: Disk, before: Dir, same: Dir, after: Dir)
    requires SamePairAndStamp(before, same) && LeftBy(renamed, pair, disk, same, after)
    ensures LeftBy(renamed, pair, disk, before, after)
  {
  }

  /** `provision_with_store`: whatever the server and the disk do, the files and the store end as a
      run of the protocol says they do, and so does the result. Success comes exactly when the lock is
      free and can be taken, the server cooperates and every write and rename works; then the new pair
      and its timestamp are in place. What the removals manage to remove is gone. */
  method ProvisionWithStore(cache: CacheDir, store: ChallengeStore, server: Server, disk: Disk, ghost s: State)
    returns (ok: bool, ghost t: State, ghost actions: seq<Action>)
    requires SleepsHold(server) && s.pc.Idle? && Matches(cache, store, s) && Inv(s)
    modifies cache, store
    ensures Run(s, actions) == t && Matches(cache, store, t) && t.pc.Idle? && Inv(t)
    ensures store.entries == map[]
    ensures LeftBy(RenamesDone(old(cache.files), server, disk), server.pair, disk, old(cache.files), cache.files)
    ensures Lock in cache.files <==> Lock in old(cache.files) || (disk.lock && !disk.removes(0))
    ensures t.last == if Lock in old(cache.files) then Busy else if !disk.lock then NoLock else Finished(ok)
    ensures Lock in old(cache.files) || !disk.lock ==> cache.files == old(cache.files)
    ensures ok <==> && Lock !in old(cache.files) && disk.lock && ServerCooperates(server)
                    && disk.cert.Whole? && disk.key.Whole? && disk.renameCert && disk.renameKey
                    && disk.stampResult.Whole?
    ensures var first := && Lock !in old(cache.files) && disk.lock && ServerCooperates(server)
                         && disk.cert.Whole? && disk.key.Whole? && disk.renameCert;
            var both := first && disk.renameKey;
            && At(cache.files, Cert) == (if first then Some(server.pair.cert) else At(old(cache.files), Cert))
            && At(cache.files, Key) == (if both then Some(server.pair.key) else At(old(cache.files), Key))
            && (!both || disk.stampResult.NotOpened? ==>
                  At(cache.files, IssuedAt) == At(old(cache.files), IssuedAt))
            && (both && disk.stampResult.Whole? ==> At(cache.files, IssuedAt) == Some(disk.stamp))
            && (both && disk.stampResult.Torn? ==>
                  exists n: nat ::
                    && n <= |disk.stamp| && At(cache.files, IssuedAt) == Some(disk.stamp[..n])
                    && (n == disk.stampResult.length || n == |disk.stamp| < disk.stampResult.length))
    ensures && Lock !in old(cache.files) && disk.lock && disk.removes(0)
            && (ok || (disk.removes(1) && disk.removes(2))) ==>
              Lock !in cache.files && CertTmp !in cache.files && KeyTmp !in cache.files
  {
    hide Run, LeftBy, ServerCooperates;
    var locked;
    locked, t, actions := TakeLock(cache, disk, s);
    if !locked {
      NothingIsLeft(cache.files, server.pair, disk);
      return false, t, actions;
    }
    ghost var more, locking := [], cache.files;
    ok, t, more := ProvisionLocked(cache, store, server, disk, t);
    LeftBySame(if ServerCooperates(server) then RenamesOf(disk) else 0, server.pair, disk,
               old(cache.files), locking, cache.files);
    LeftByMeans(server.pair, disk, old(cache.files), cache.files, ServerCooperates(server));
    RunConcat(s, actions, more);
    actions := actions + more;
  }

  lemma NothingIsLeft(dir: Dir, pair: Pair, disk: Disk)
    ensures LeftBy(0, pair, disk, dir, dir)
  {
  }
}
