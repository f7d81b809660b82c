/** Certificate provisioning as a protocol over files that can stop anywhere: the lockfile, the
    temporary files, the two renames, the timestamp, and the shared challenge store. */
module AcmeProtocol {
  import opened Prelude

  datatype Name = Lock | CertTmp | KeyTmp | Cert | Key | IssuedAt

  type Dir = map<Name, string>

  function At(dir: Dir, name: Name): Option<string> {
    if name in dir then Some(dir[name]) else None
  }

  datatype Pair = Pair(cert: string, key: string)

  /** One authorization of an order: its HTTP-01 token, if it offers that challenge. */
  datatype Authorization = Authorization(token: string, offersHttp01: bool)

  /** Section 8.1 of RFC 8555. */
  function KeyAuthorization(token: string, thumbprint: string): string {
    token + "." + thumbprint
  }

  type Store = map<string, string>

  const CHALLENGE_PREFIX: string := "/.well-known/acme-challenge/"

  /** The redirect server's answer to a challenge request: the key authorization stored under the
      rest of the path, if the path has the prefix (section 8.3 of RFC 8555). */
  function Answer(store: Store, path: string): Option<string> {
    if CHALLENGE_PREFIX <= path && path[|CHALLENGE_PREFIX|..] in store
    then Some(store[path[|CHALLENGE_PREFIX|..]]) else None
  }

  datatype Pc =
    | Idle
    | Locking
    | Ordering
    | Filling(auths: seq<Authorization>, thumbprint: string, next: nat)
    | Announcing(auths: seq<Authorization>, thumbprint: string, next: nat)
    | Polling(auths: seq<Authorization>, thumbprint: string)
    | Fetching(auths: seq<Authorization>, thumbprint: string)
    | WritingCert(pair: Pair)
    | WritingKey(pair: Pair)
    | RenamingCert(pair: Pair)
    | RenamingKey(pair: Pair)
    | Stamping(pair: Pair)
    | Cleaning(ok: bool, next: nat)
    | Clearing(ok: bool)

  datatype End = NotYet | Busy | NoLock | Finished(ok: bool) | Crashed

  /** `was` is the pair of files found when the current or last provisioning began, `made` the pair
      it obtained, `renamed` how many of its two renames are done. `stoppedBetween` says it stopped
      with one done. `stampWas` is the timestamp file found at the beginning and `stamped` what has been
      written to it since, torn or whole. `stuck` says that a removal failed during it, and `lockLeft` that the lockfile
      was there at the start, or that a crash came while it was held, or that its removal failed. */
  datatype State = State(dir: Dir, store: Store, pc: Pc, last: End,
                         was: (Option<string>, Option<string>), made: Option<Pair>, renamed: nat,
                         stampWas: Option<string>, stamped: Option<string>,
                         stoppedBetween: bool, stuck: bool, lockLeft: bool)

  function Init(dir: Dir): State {
    State(dir, map[], Idle, NotYet, (At(dir, Cert), At(dir, Key)), None, 0, At(dir, IssuedAt), None,
          false, false, Lock in dir)
  }

  /** What a write can come to. A torn write leaves a prefix of the content. */
  datatype WriteResult = Whole | NotOpened | Torn(length: nat)

  datatype Action =
    | Tick
    | LockWritten(ok: bool)
    | Ordered(auths: seq<Authorization>, thumbprint: string)
    | FillOne
    | AnnounceOne(ok: bool)
    | Ready
    | Fetched(pair: Pair)
    | NetworkFails
    | Write(result: WriteResult, stamp: string)
    | Rename(ok: bool)
    | Remove(ok: bool)
    | ClearStore
    | Crash(torn: WriteResult, stamp: string)

  function Prefix(content: string, length: nat): string {
    if length <= |content| then content[..length] else content
  }

  function Written(dir: Dir, name: Name, content: string, result: WriteResult): Dir {
    match result
    case Whole => dir[name := content]
    case NotOpened => dir
    case Torn(length) => dir[name := Prefix(content, length)]
  }

  function Renamed(dir: Dir, source: Name, target: Name): Dir
    requires source in dir
  {
    (dir - {source})[target := dir[source]]
  }

  /** What a state that writes is writing, and where. */
  function Writing(pc: Pc, stamp: string): Option<(Name, string)> {
    match pc
    case WritingCert(p) => Some((CertTmp, p.cert))
    case WritingKey(p) => Some((KeyTmp, p.key))
    case Stamping(_) => Some((IssuedAt, stamp))
    case _ => None
  }

  /** The files the wrapper removes at the end, in order. */
  function ToRemove(ok: bool): seq<Name> {
    if ok then [Lock] else [Lock, CertTmp, KeyTmp]
  }

  function Fail(s: State): State { s.(pc := Cleaning(false, 0)) }

  /** Whether the provisioning in progress holds the lockfile. */
  predicate Holding(pc: Pc) {
    match pc
    case Idle => false
    case Locking => false
    case Cleaning(_, next) => next == 0
    case Clearing(_) => false
    case _ => true
  }

  function Begin(s: State): State {
    if Lock in s.dir then s.(last := Busy)
    else s.(pc := Locking, was := (At(s.dir, Cert), At(s.dir, Key)), made := None, renamed := 0,
            stampWas := At(s.dir, IssuedAt), stamped := None, stoppedBetween := false, stuck := false)
  }

  /** What a write leaves written to the timestamp file. */
  function Stamped(s: State, result: WriteResult, stamp: string): Option<string> {
    if !s.pc.Stamping? then s.stamped
    else
      match result
      case Whole => Some(stamp)
      case NotOpened => s.stamped
      case Torn(length) => Some(Prefix(stamp, length))
  }

  function AfterWrite(s: State, result: WriteResult, stamp: string): State
    requires Writing(s.pc, stamp).Some?
  {
    var (name, content) := Writing(s.pc, stamp).value;
    var written := s.(dir := Written(s.dir, name, content, result), stamped := Stamped(s, result, stamp));
    if result != Whole then Fail(written)
    else
      match s.pc
      case WritingCert(p) => written.(pc := WritingKey(p))
      case WritingKey(p) => written.(pc := RenamingCert(p))
      case _ => written.(pc := Cleaning(true, 0))
  }

  function AfterRename(s: State, ok: bool): State
    requires s.pc.RenamingCert? || s.pc.RenamingKey?
  {
    match s.pc
    case RenamingCert(p) =>
      if ok && CertTmp in s.dir
      then s.(dir := Renamed(s.dir, CertTmp, Cert), renamed := 1, pc := RenamingKey(p)) else Fail(s)
    case RenamingKey(p) =>
      if ok && KeyTmp in s.dir
      then s.(dir := Renamed(s.dir, KeyTmp, Key), renamed := 2, pc := Stamping(p))
      else Fail(s).(stoppedBetween := true)
  }

  function AfterRemove(s: State, ok: bool): State
    requires s.pc.Cleaning? && s.pc.next < |ToRemove(s.pc.ok)|
  {
    var names := ToRemove(s.pc.ok);
    var name := names[s.pc.next];
    var failed := !ok && name in s.dir;
    s.(dir := if ok then s.dir - {name} else s.dir,
       stuck := s.stuck || failed,
       lockLeft := s.lockLeft || (failed && name == Lock),
       pc := if s.pc.next + 1 < |names| then Cleaning(s.pc.ok, s.pc.next + 1) else Clearing(s.pc.ok))
  }

  /** The process dies, perhaps in the middle of a write; its memory is gone when it is restarted. */
  function AfterCrash(s: State, torn: WriteResult, stamp: string): State {
    var dir := if Writing(s.pc, stamp).Some?
               then Written(s.dir, Writing(s.pc, stamp).value.0, Writing(s.pc, stamp).value.1, torn) else s.dir;
    s.(dir := dir, store := map[], pc := Idle, last := Crashed, lockLeft := s.lockLeft || Holding(s.pc),
       stamped := Stamped(s, torn, stamp),
       stoppedBetween := s.stoppedBetween || s.pc.RenamingKey?)
  }

  /** One step; an action that does not apply changes nothing. */
  function Step(s: State, a: Action): State {
    match (a, s.pc)
    case (Tick, Idle) => Begin(s)
    case (LockWritten(ok), Locking) =>
      if ok then s.(dir := s.dir[Lock := ""], pc := Ordering) else s.(pc := Idle, last := NoLock)
    case (Ordered(auths, thumbprint), Ordering) => s.(pc := Filling(auths, thumbprint, 0))
    case (FillOne, Filling(auths, tp, i)) =>
      if i >= |auths| then s.(pc := Announcing(auths, tp, 0))
      else if !auths[i].offersHttp01 then Fail(s)
      else s.(store := s.store[auths[i].token := KeyAuthorization(auths[i].token, tp)], pc := Filling(auths, tp, i + 1))
    case (AnnounceOne(ok), Announcing(auths, tp, i)) =>
      if i >= |auths| then s.(pc := Polling(auths, tp))
      else if ok then s.(pc := Announcing(auths, tp, i + 1))
      else Fail(s)
    case (Ready, Polling(auths, tp)) => s.(pc := Fetching(auths, tp))
    case (Fetched(pair), Fetching(_, _)) => s.(pc := WritingCert(pair), made := Some(pair))
    case (NetworkFails, Ordering) => Fail(s)
    case (NetworkFails, Polling(_, _)) => Fail(s)
    case (NetworkFails, Fetching(_, _)) => Fail(s)
    case (Write(result, stamp), _) => if Writing(s.pc, stamp).Some? then AfterWrite(s, result, stamp) else s
    case (Rename(ok), RenamingCert(_)) => AfterRename(s, ok)
    case (Rename(ok), RenamingKey(_)) => AfterRename(s, ok)
    case (Remove(ok), Cleaning(good, next)) => if next < |ToRemove(good)| then AfterRemove(s, ok) else s
    case (ClearStore, Clearing(ok)) => s.(store := map[], pc := Idle, last := Finished(ok))
    case (Crash(torn, stamp), _) => AfterCrash(s, torn, stamp)
    case _ => s
  }

  function Run(s: State, actions: seq<Action>): State {
    if actions == [] then s else Step(Run(s, actions[..|actions| - 1]), actions[|actions| - 1])
  }

  // ----- what every run keeps

  /** The pair of files on disk. */
  function OnDisk(s: State): (Option<string>, Option<string>) {
    (At(s.dir, Cert), At(s.dir, Key))
  }

  function New(s: State): (Option<string>, Option<string>) {
    match s.made
    case Some(p) => (Some(p.cert), Some(p.key))
    case None => (None, None)
  }

  /** The pair on disk is the old one, the new certificate with the old key, or the new one,
      according to how many renames are done. */
  ghost predicate PairFits(s: State) {
    match s.renamed
    case 0 => OnDisk(s) == s.was
    case 1 => s.made.Some? && OnDisk(s) == (New(s).0, s.was.1)
    case _ => s.made.Some? && OnDisk(s) == New(s)
  }

  /** The timestamp is the old one until it is written to, which is after both renames. */
  ghost predicate StampFits(s: State) {
    && At(s.dir, IssuedAt) == (if s.stamped.Some? then s.stamped else s.stampWas)
    && (s.stamped.Some? ==> s.renamed == 2 && !s.pc.Stamping?)
    && ((s.pc.Cleaning? || s.pc.Clearing?) && s.pc.ok ==> s.stamped.Some?)
    && (s.pc.Idle? && s.last == Finished(true) ==> s.stamped.Some?)
  }

  /** How far the files are where the protocol stands. */
  ghost predicate FilesFit(s: State) {
    match s.pc
    case WritingCert(p) => s.renamed == 0 && s.made == Some(p)
    case WritingKey(p) => s.renamed == 0 && s.made == Some(p) && At(s.dir, CertTmp) == Some(p.cert)
    case RenamingCert(p) =>
      && s.renamed == 0 && s.made == Some(p)
      && At(s.dir, CertTmp) == Some(p.cert) && At(s.dir, KeyTmp) == Some(p.key)
    case RenamingKey(p) =>
      s.renamed == 1 && s.made == Some(p) && CertTmp !in s.dir && At(s.dir, KeyTmp) == Some(p.key)
    case Stamping(p) => s.renamed == 2 && s.made == Some(p) && CertTmp !in s.dir && KeyTmp !in s.dir
    case Cleaning(true, _) => s.renamed == 2 && CertTmp !in s.dir && KeyTmp !in s.dir
    case Clearing(true) => s.renamed == 2 && CertTmp !in s.dir && KeyTmp !in s.dir
    case Cleaning(false, next) => next >= 2 && !s.stuck ==> CertTmp !in s.dir
    case Clearing(false) => !s.stuck ==> CertTmp !in s.dir && KeyTmp !in s.dir
    case Idle =>
      && (s.last == Finished(true) ==> s.renamed == 2 && CertTmp !in s.dir && KeyTmp !in s.dir)
      && (s.last == Finished(false) && !s.stuck ==> CertTmp !in s.dir && KeyTmp !in s.dir)
    case _ => s.renamed == 0
  }

  ghost predicate LockFits(s: State) {
    && (Lock in s.dir <==> Holding(s.pc) || s.lockLeft)
    && (s.lockLeft ==> s.pc.Idle? || s.stuck)
    && (s.pc.Idle? && s.last.Finished? && !s.stuck ==> !s.lockLeft)
    && (s.pc.Clearing? && !s.stuck ==> !s.lockLeft)
  }

  /** Every token among the first `n` authorizations is stored under its key authorization. */
  ghost predicate Served(store: Store, auths: seq<Authorization>, thumbprint: string, n: nat) {
    forall i :: 0 <= i < n && i < |auths| ==>
      auths[i].token in store && store[auths[i].token] == KeyAuthorization(auths[i].token, thumbprint)
  }

  ghost predicate StoreFits(s: State) {
    match s.pc
    case Idle => s.store == map[]
    case Locking => s.store == map[]
    case Ordering => s.store == map[]
    case Filling(auths, tp, i) => i <= |auths| && Served(s.store, auths, tp, i)
    case Announcing(auths, tp, i) => i <= |auths| && Served(s.store, auths, tp, |auths|)
    case Polling(auths, tp) => Served(s.store, auths, tp, |auths|)
    case Fetching(auths, tp) => Served(s.store, auths, tp, |auths|)
    case _ => true
  }

  ghost predicate Inv(s: State) {
    && PairFits(s) && StampFits(s) && FilesFit(s) && LockFits(s) && StoreFits(s)
    && s.renamed <= 2
    && (s.renamed == 1 <==> s.pc.RenamingKey? || s.stoppedBetween)
    && (s.stoppedBetween ==> s.pc.Idle? || s.pc.Cleaning? || s.pc.Clearing?)
    && (s.stuck ==> s.pc.Idle? || s.pc.Clearing? || (s.pc.Cleaning? && s.pc.next > 0))
  }

  lemma WriteKeepsInv(s: State, result: WriteResult, stamp: string)
    requires Inv(s) && Writing(s.pc, stamp).Some?
    ensures Inv(AfterWrite(s, result, stamp))
  {
  }

  lemma RenameKeepsInv(s: State, ok: bool)
    requires Inv(s) && (s.pc.RenamingCert? || s.pc.RenamingKey?)
    ensures Inv(AfterRename(s, ok))
  {
  }

  lemma RemoveKeepsInv(s: State, ok: bool)
    requires Inv(s) && s.pc.Cleaning? && s.pc.next < |ToRemove(s.pc.ok)|
    ensures Inv(AfterRemove(s, ok))
  {
  }

  lemma CrashKeepsInv(s: State, torn: WriteResult, stamp: string)
    requires Inv(s)
    ensures Inv(AfterCrash(s, torn, stamp))
  {
  }

  lemma FillKeepsInv(s: State)
    requires Inv(s) && s.pc.Filling?
    ensures Inv(Step(s, FillOne))
  {
    var auths, tp, i := s.pc.auths, s.pc.thumbprint, s.pc.next;
    if i < |auths| && auths[i].offersHttp01 {
      var store := s.store[auths[i].token := KeyAuthorization(auths[i].token, tp)];
      assert Served(store, auths, tp, i + 1);
    }
  }

  /** Starting, ordering and ending. */
  lemma EdgeKeepsInv(s: State, a: Action)
    requires Inv(s) && (a.Tick? || a.LockWritten? || a.Ordered? || a.ClearStore?)
    ensures Inv(Step(s, a))
  {
  }

  /** Talking to the ACME server. */
  lemma TalkKeepsInv(s: State, a: Action)
    requires Inv(s) && (a.AnnounceOne? || a.Ready? || a.Fetched? || a.NetworkFails?)
    ensures Inv(Step(s, a))
  {
  }

  lemma StepKeepsInv(s: State, a: Action)
    requires Inv(s)
    ensures Inv(Step(s, a))
  {
    if Step(s, a) != s {
      match a
      case FillOne => FillKeepsInv(s);
      case Write(result, stamp) => WriteKeepsInv(s, result, stamp);
      case Rename(ok) => RenameKeepsInv(s, ok);
      case Remove(ok) => RemoveKeepsInv(s, ok);
      case Crash(torn, stamp) => CrashKeepsInv(s, torn, stamp);
      case Tick => EdgeKeepsInv(s, a);
      case LockWritten(_) => EdgeKeepsInv(s, a);
      case Ordered(_, _) => EdgeKeepsInv(s, a);
      case ClearStore => EdgeKeepsInv(s, a);
      case _ => TalkKeepsInv(s, a);
    }
  }

  lemma {:induction false} InvIsKept(s: State, actions: seq<Action>)
    requires Inv(s)
    ensures Inv(Run(s, actions))
  {
    if actions != [] {
      InvIsKept(s, actions[..|actions| - 1]);
      StepKeepsInv(Run(s, actions[..|actions| - 1]), actions[|actions| - 1]);
    }
  }

  lemma RunKeepsInv(dir: Dir, actions: seq<Action>)
    ensures Inv(Run(Init(dir), actions))
  {
    InvIsKept(Init(dir), actions);
  }

  // ----- what that means

  // These follow from what every run keeps, so automatic induction over the actions is switched off.

  /** After any steps, crashes and torn writes included, cert.pem and key.pem are whole and are the
      old pair, the new certificate with the old key, or the new pair, by the number of renames
      done; the mixed pair exists exactly between the two renames, or if the provisioning stopped
      right there. */
  lemma {:induction false} PairIsNeverTorn(dir: Dir, actions: seq<Action>)
    ensures var s := Run(Init(dir), actions);
            && (s.renamed == 0 ==> OnDisk(s) == s.was)
            && (s.renamed == 1 ==> s.made.Some? && OnDisk(s) == (Some(s.made.value.cert), s.was.1))
            && (s.renamed == 2 ==> s.made.Some? && OnDisk(s) == (Some(s.made.value.cert), Some(s.made.value.key)))
            && s.renamed <= 2
            && (s.renamed == 1 <==> s.pc.RenamingKey? || s.stoppedBetween)
  {
    RunKeepsInv(dir, actions);
  }

  /** The timestamp is the one found at the beginning until it is written to, and that is not before both
      renames are done. */
  lemma {:induction false} TimestampComesLast(dir: Dir, actions: seq<Action>)
    ensures var s := Run(Init(dir), actions);
            && At(s.dir, IssuedAt) == (if s.stamped.Some? then s.stamped else s.stampWas)
            && (s.stamped.Some? ==> s.renamed == 2)
  {
    RunKeepsInv(dir, actions);
  }

  /** The renames go in order: their number only grows until the next provisioning begins. */
  lemma RenamesGoForward(s: State, a: Action)
    requires Inv(s)
    ensures var t := Step(s, a);
            s.renamed <= t.renamed <= s.renamed + 1 || (a.Tick? && s.pc.Idle? && t.renamed == 0)
  {
  }

  /** A provisioning that ends, with every removal having worked, leaves no lockfile and no
      temporary file: with `Ok` the new pair is in place; with an error from before the first
      rename the old pair is. */
  lemma {:induction false} FinishedIsTidy(dir: Dir, actions: seq<Action>)
    requires var s := Run(Init(dir), actions);
             s.pc.Idle? && s.last.Finished? && !s.stuck
    ensures var s := Run(Init(dir), actions);
            && Lock !in s.dir && CertTmp !in s.dir && KeyTmp !in s.dir
            && (s.last.ok ==> s.made.Some? && OnDisk(s) == New(s))
            && (s.last.ok ==> s.stamped.Some? && At(s.dir, IssuedAt) == s.stamped)
            && (s.renamed == 0 ==> !s.last.ok && OnDisk(s) == s.was)
  {
    RunKeepsInv(dir, actions);
  }

  /** A lockfile nobody is holding is there for good: no further run of this process provisions
      anything or touches any file. */
  lemma {:induction false} StaleLockStopsEverything(s: State, actions: seq<Action>)
    requires s.pc.Idle? && Lock in s.dir
    ensures var t := Run(s, actions);
            t.pc.Idle? && t.dir == s.dir && (t.last == s.last || t.last == Busy || t.last == Crashed)
  {
    if actions != [] {
      StaleLockStopsEverything(s, actions[..|actions| - 1]);
    }
  }

  /** So a crash between the renames is never repaired: the new certificate stays beside the old key. */
  lemma {:induction false} CrashBetweenRenamesIsPermanent(s: State, torn: WriteResult, stamp: string,
                                                          actions: seq<Action>)
    requires Inv(s) && s.pc.RenamingKey?
    ensures OnDisk(Run(Step(s, Crash(torn, stamp)), actions)) == (Some(s.pc.pair.cert), s.was.1)
  {
    StaleLockStopsEverything(Step(s, Crash(torn, stamp)), actions);
  }

  /** The lockfile is there exactly while it is held, or after it was left behind: by a crash while it
      was held, by a removal that failed, or by whoever put it there before the first run. */
  lemma {:induction false} LockIsThereIff(dir: Dir, actions: seq<Action>)
    ensures var s := Run(Init(dir), actions);
            Lock in s.dir <==> Holding(s.pc) || s.lockLeft
  {
    RunKeepsInv(dir, actions);
  }

  /** What the redirect server answers a challenge request with: what is stored under the token that follows
      the well-known prefix, and nothing on any other path. */
  lemma AnswerFindsToken(store: Store, token: string, path: string)
    ensures token in store ==> Answer(store, "/.well-known/acme-challenge/" + token) == Some(store[token])
    ensures token !in store ==> Answer(store, "/.well-known/acme-challenge/" + token) == None
    ensures !("/.well-known/acme-challenge/" <= path) ==> Answer(store, path) == None
  {
    assert ("/.well-known/acme-challenge/" + token)[|"/.well-known/acme-challenge/"|..] == token;
  }

  /** No challenge is announced before it is served, and none stops being served while the order
      is pending: from the first announcement until the certificate is in hand the redirect server
      answers for every token of the order with its key authorization. */
  lemma {:induction false} AnnouncedChallengesAreServed(dir: Dir, actions: seq<Action>, i: nat)
    requires var pc := Run(Init(dir), actions).pc;
             (pc.Announcing? || pc.Polling? || pc.Fetching?) && i < |pc.auths|
    ensures var s := Run(Init(dir), actions);
            Answer(s.store, "/.well-known/acme-challenge/" + s.pc.auths[i].token)
            == Some(s.pc.auths[i].token + "." + s.pc.thumbprint)
  {
    RunKeepsInv(dir, actions);
    AnswerFindsToken(Run(Init(dir), actions).store, Run(Init(dir), actions).pc.auths[i].token, "");
  }

  /** The store is empty whenever no provisioning is in progress. */
  lemma {:induction false} StoreIsEmptyWhenIdle(dir: Dir, actions: seq<Action>)
    requires Run(Init(dir), actions).pc.Idle?
    ensures Run(Init(dir), actions).store == map[]
  {
    RunKeepsInv(dir, actions);
  }
}
