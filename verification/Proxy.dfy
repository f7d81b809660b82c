/** The body of `forward`, running against a pool object that other calls use at the same time, shown
    to follow the step system. */
module Proxy {
  import opened Prelude
  import opened Headers
  import opened Pool
  import opened ForwardProtocol

  /** What the network answers, in the order the call asks. */
  datatype Network = Network(bodyOk: bool, first: ConnectOutcome, firstSend: bool,
                             second: ConnectOutcome, secondSend: bool, responseOk: bool)

  /** A call and its surroundings. The timer fires during await number `patience`, counted from 0;
      `others(k)` are the steps other calls take during await number `k`. */
  datatype Setting = Setting(id: nat, inc: Incoming, net: Network, patience: nat, others: nat -> seq<Event>)

  // ----- what the call comes to

  /** How a call that has sent its first request ends if the timer does not fire. */
  function OnceSent(net: Network): Outcome {
    if !net.firstSend && ConnectFresh(net.second).Err? then Failed(CannotConnect(ConnectFresh(net.second).error))
    else if !net.firstSend && !net.secondSend then Failed(Send)
    else if net.responseOk then Responded
    else Failed(ResponseRead)
  }

  /** How a call that has its request ends: `hasIdle` says whether it finds an idle sender. */
  function OnceReady(net: Network, hasIdle: bool): Outcome {
    if !hasIdle && ConnectFresh(net.first).Err? then Failed(CannotConnect(ConnectFresh(net.first).error))
    else OnceSent(net)
  }

  /** How a call ends if the timer does not fire. */
  function Unhurried(net: Network, hasIdle: bool): Outcome {
    if !net.bodyOk then Failed(BodyRead) else OnceReady(net, hasIdle)
  }

  /** The call's own steps, one at the end of each await. Awaiting the answer to a send: */
  function AnswerSteps(ok: bool): seq<Action> {
    [SendDone(ok)] + if ok then [ReleaseLocked] else []
  }

  /** The steps of the retry branch. */
  function RetrySteps(net: Network): seq<Action> {
    [Connected(net.second)]
    + if ConnectFresh(net.second).Err? then []
      else AnswerSteps(net.secondSend) + if net.secondSend then [ResponseCollected(net.responseOk)] else []
  }

  /** The steps from the first send on. */
  function SentSteps(net: Network): seq<Action> {
    AnswerSteps(net.firstSend) + if net.firstSend then [ResponseCollected(net.responseOk)] else RetrySteps(net)
  }

  /** The steps of taking a sender. */
  function TakeSteps(net: Network, hasIdle: bool): seq<Action> {
    [AcquireLocked] + if hasIdle then [] else [Connected(net.first)]
  }

  /** The steps from taking a sender on. */
  function ReadySteps(net: Network, hasIdle: bool): seq<Action> {
    TakeSteps(net, hasIdle) + if hasIdle || ConnectFresh(net.first).Ok? then SentSteps(net) else []
  }

  /** The steps of a whole call, if the timer does not fire. */
  function Steps(net: Network, hasIdle: bool): seq<Action> {
    [BodyCollected(net.bodyOk)] + if net.bodyOk then ReadySteps(net, hasIdle) else []
  }

  /** How many awaits a call goes through if the timer does not fire. */
  function AwaitsNeeded(net: Network, hasIdle: bool): nat {
    |Steps(net, hasIdle)|
  }

  /** The outcome of a call that needs so many awaits, under the timer. */
  function UnderTimer(c: Setting, needed: nat, outcome: Outcome): Outcome {
    if c.patience < needed then Failed(Timeout) else outcome
  }

  lemma SentStepsAre(net: Network)
    ensures SentSteps(net) ==
            if net.firstSend then [SendDone(true), ReleaseLocked, ResponseCollected(net.responseOk)]
            else if !net.second.Opened? then [SendDone(false), Connected(net.second)]
            else if !net.secondSend then [SendDone(false), Connected(net.second), SendDone(false)]
            else [SendDone(false), Connected(net.second), SendDone(true), ReleaseLocked,
                  ResponseCollected(net.responseOk)]
  {
  }

  /** The steps of a call, case by case. */
  lemma StepsAre(net: Network, hasIdle: bool)
    ensures !net.bodyOk ==> Steps(net, hasIdle) == [BodyCollected(false)]
    ensures net.bodyOk && !hasIdle && !net.first.Opened? ==>
              Steps(net, hasIdle) == [BodyCollected(true), AcquireLocked, Connected(net.first)]
    ensures net.bodyOk && (hasIdle || net.first.Opened?) ==>
              Steps(net, hasIdle) ==
              [BodyCollected(true), AcquireLocked] + (if hasIdle then [] else [Connected(net.first)])
              + if net.firstSend then [SendDone(true), ReleaseLocked, ResponseCollected(net.responseOk)]
                else if !net.second.Opened? then [SendDone(false), Connected(net.second)]
                else if !net.secondSend then [SendDone(false), Connected(net.second), SendDone(false)]
                else [SendDone(false), Connected(net.second), SendDone(true), ReleaseLocked,
                      ResponseCollected(net.responseOk)]
  {
    SentStepsAre(net);
    var body, take, sent := [BodyCollected(net.bodyOk)], TakeSteps(net, hasIdle), SentSteps(net);
    hide SentSteps;
    if net.bodyOk && (hasIdle || net.first.Opened?) {
      var connect := if hasIdle then [] else [Connected(net.first)];
      assert body + take == [BodyCollected(true), AcquireLocked] + connect;
      StepsAdd(body, take, sent);
    }
  }

  /** And so how many awaits it needs: at most eight. */
  lemma AwaitsAre(net: Network, hasIdle: bool)
    ensures AwaitsNeeded(net, hasIdle) ==
            if !net.bodyOk then 1
            else if !hasIdle && !net.first.Opened? then 3
            else (if hasIdle then 2 else 3)
                 + if net.firstSend then 3
                   else if !net.second.Opened? then 2
                   else if !net.secondSend then 3
                   else 5
  {
    StepsAre(net, hasIdle);
  }

  /** Whether a part of the code went through, or the call has to return early. */
  datatype Progress = Going | Stopped(failure: Failure)

  // ----- the call among other calls

  ghost predicate Unopened(s: State, connect: ConnectOutcome) {
    connect.Opened? ==> connect.handle !in s.created
  }

  /** A second connection is another one than the first. */
  ghost predicate OwnSecond(c: Setting) {
    c.net.second.Opened? ==> c.net.second != c.net.first
  }

  /** Steps of other calls, which get connections of their own. */
  ghost predicate OtherCalls(events: seq<Event>, c: Setting) {
    forall e :: e in events ==>
      && e.id != c.id
      && (e.action.Connected? && e.action.connect.Opened? ==>
            e.action.connect != c.net.first && e.action.connect != c.net.second)
  }

  ghost predicate Apart(c: Setting) {
    forall k :: 0 <= k ==> OtherCalls(c.others(k), c)
  }

  /** The events up to the last of the call's `own` steps: it arrives, and then, await by await, others take
      their steps and it takes its own. */
  ghost function Woven(c: Setting, own: seq<Action>): seq<Event> {
    if own == [] then [Event(c.id, Arrive(c.inc))]
    else Woven(c, own[..|own| - 1]) + c.others(|own| - 1) + [Event(c.id, own[|own| - 1])]
  }

  /** The events of a call that would take the steps `own`, under the timer. */
  ghost function Course(c: Setting, own: seq<Action>): seq<Event> {
    if c.patience < |own|
    then Woven(c, own[..c.patience]) + c.others(c.patience) + [Event(c.id, TimeoutFires)]
    else Woven(c, own)
  }

  /** The call has taken the steps `own`; */
  ghost predicate Follows(s: State, t: State, c: Setting, own: seq<Action>) {
    t == Exec(s, Woven(c, own))
  }

  /** others have then taken theirs; */
  ghost predicate Woke(s: State, t: State, c: Setting, own: seq<Action>) {
    t == Exec(s, Woven(c, own) + c.others(|own|))
  }

  /** and then the timer has fired. */
  ghost predicate TimedOut(s: State, t: State, c: Setting, own: seq<Action>) {
    |own| == c.patience && t == Exec(s, Woven(c, own) + c.others(|own|) + [Event(c.id, TimeoutFires)])
  }

  /** The call has taken the steps `own`, or as many as the timer let it and then timed out. */
  ghost predicate Reached(s: State, t: State, c: Setting, own: seq<Action>) {
    t == Exec(s, Course(c, own))
  }

  /** No step so far has opened the connections that are to be the call's. */
  ghost predicate KeepsUnopened(s: State, t: State, c: Setting) {
    && (Unopened(s, c.net.first) ==> Unopened(t, c.net.first))
    && (Unopened(s, c.net.second) ==> Unopened(t, c.net.second))
  }

  /** What the steps of others do not change about the call. */
  ghost predicate Undisturbed(s: State, t: State, c: Setting) {
    && t.max == s.max && t.rewrite == s.rewrite && KeepsUnopened(s, t, c)
    && (c.id in t.calls <==> c.id in s.calls)
    && (c.id in s.calls ==> t.calls[c.id] == s.calls[c.id])
  }

  lemma ConnectCreates(s: State, e: Event)
    ensures forall h :: h in Step(s, e).created ==>
              h in s.created || (e.action.Connected? && e.action.connect == Opened(h))
  {
  }

  lemma StepLeavesAlone(s: State, e: Event, c: Setting)
    requires OtherCalls([e], c)
    ensures Undisturbed(s, Step(s, e), c)
  {
    assert e in [e];
    ConnectCreates(s, e);
    if e.id in s.calls {
      AdvanceIsLocal(s, e.id, e.action);
    }
  }

  lemma {:induction false} OthersLeaveAlone(s: State, events: seq<Event>, c: Setting)
    requires OtherCalls(events, c)
    ensures Undisturbed(s, Exec(s, events), c)
  {
    if events != [] {
      OthersLeaveAlone(s, events[..|events| - 1], c);
      assert events[|events| - 1] in events;
      StepLeavesAlone(Exec(s, events[..|events| - 1]), events[|events| - 1], c);
    }
  }

  /** The call comes in. */
  lemma Arrives(s: State, c: Setting)
    ensures Follows(s, Step(s, Event(c.id, Arrive(c.inc))), c, [])
  {
    ExecAppend(s, [], Event(c.id, Arrive(c.inc)));
    assert [] + [Event(c.id, Arrive(c.inc))] == [Event(c.id, Arrive(c.inc))];
  }

  /** Others move during an await. */
  lemma OthersMove(s: State, t: State, c: Setting, own: seq<Action>)
    requires Apart(c) && Follows(s, t, c, own)
    ensures Woke(s, Exec(t, c.others(|own|)), c, own) && Undisturbed(t, Exec(t, c.others(|own|)), c)
  {
    assert OtherCalls(c.others(|own|), c);
    ExecConcat(s, Woven(c, own), c.others(|own|));
    OthersLeaveAlone(t, c.others(|own|), c);
  }

  /** The call moves. */
  lemma CallMoves(s: State, t: State, c: Setting, own: seq<Action>, action: Action)
    requires Woke(s, t, c, own)
    ensures Follows(s, Step(t, Event(c.id, action)), c, own + [action])
  {
    ExecAppend(s, Woven(c, own) + c.others(|own|), Event(c.id, action));
    assert (own + [action])[..|own|] == own;
  }

  lemma TimerFires(s: State, t: State, c: Setting, own: seq<Action>)
    requires Woke(s, t, c, own) && |own| == c.patience
    ensures TimedOut(s, Step(t, Event(c.id, TimeoutFires)), c, own)
  {
    ExecAppend(s, Woven(c, own) + c.others(|own|), Event(c.id, TimeoutFires));
  }

  /** Whatever it would have done next, a call that timed out has gone as far as the timer let it. */
  lemma TimedOutReached(s: State, t: State, c: Setting, own: seq<Action>, more: seq<Action>)
    requires TimedOut(s, t, c, own) && more != []
    ensures Reached(s, t, c, own + more)
  {
    assert (own + more)[..c.patience] == own;
  }

  lemma FollowsReached(s: State, t: State, c: Setting, own: seq<Action>)
    requires |own| <= c.patience
    ensures Follows(s, t, c, own) <==> Reached(s, t, c, own)
  {
  }

  lemma ReachedEarly(s: State, t: State, c: Setting, own: seq<Action>, more: seq<Action>)
    requires Reached(s, t, c, own) && c.patience < |own|
    ensures Reached(s, t, c, own + more)
  {
    assert (own + more)[..c.patience] == own[..c.patience];
  }

  /** Whether the call finds an idle sender: by the stack when it takes the pool's lock. */
  ghost predicate FindsIdle(s: State, c: Setting) {
    Stack(Exec(s, Woven(c, [BodyCollected(true)]) + c.others(1)).idle, c.inc.upstream) != []
  }

  /** The pool object is in the state the step system says. */
  ghost predicate Matches(pool: ConnectionPool, s: State)
    reads pool
  {
    pool.idle == s.idle && pool.maxIdlePerHost == s.max
  }

  /** The call is at `pc`, `wire` is what it sends, and it has sent it `sends` times. */
  ghost predicate Stands(s: State, c: Setting, wire: Option<Wire>, pc: Pc, sends: nat) {
    && c.id in s.calls
    && s.calls[c.id].inc == c.inc && s.calls[c.id].pc == pc && s.calls[c.id].rewritten == wire
    && |s.calls[c.id].sends| == sends
  }

  // ----- the code

  /** Await number `n`, under the timer: other calls move, and the call goes on if the timer has not fired. */
  method Await(pool: ConnectionPool, c: Setting, n: nat, s: State, ghost wire: Option<Wire>, ghost pc: Pc,
               ghost sends: nat, ghost origin: State, ghost own: seq<Action>)
    returns (progress: Progress, t: State)
    requires Apart(c) && n == |own| <= c.patience && Matches(pool, s) && Follows(origin, s, c, own)
    requires Stands(s, c, wire, pc, sends) && !pc.Done?
    modifies pool
    ensures Matches(pool, t) && KeepsUnopened(s, t, c) && t.rewrite == s.rewrite
    ensures progress == if n == c.patience then Stopped(Timeout) else Going
    ensures if progress.Going? then Woke(origin, t, c, own) else TimedOut(origin, t, c, own)
    ensures Stands(t, c, wire, if progress.Going? then pc else Done(Failed(Timeout)), sends)
  {
    hide Follows, Woke, TimedOut;
    OthersMove(origin, s, c, own);
    t := Exec(s, c.others(n));
    pool.idle := t.idle;
    if n == c.patience {
      TimerFires(origin, t, c, own);
      return Stopped(Timeout), Step(t, Event(c.id, TimeoutFires));
    }
    progress := Going;
  }

  /** The call comes in. */
  method Enter(c: Setting, s: State) returns (t: State)
    requires c.id !in s.calls
    ensures Follows(s, t, c, []) && Stands(t, c, None, Collecting, 0)
    ensures t.idle == s.idle && t.max == s.max && t.rewrite == s.rewrite && KeepsUnopened(s, t, c)
  {
    Arrives(s, c);
    t := Step(s, Event(c.id, Arrive(c.inc)));
  }

  /** Collects the request body and rewrites the headers. */
  method CollectBody(pool: ConnectionPool, c: Setting, s: State, ghost origin: State)
    returns (progress: Progress, headers: HeaderMap, t: State)
    requires Apart(c) && Matches(pool, s) && Follows(origin, s, c, [])
    requires NoEmptyEntry(c.inc.headers) && Stands(s, c, None, Collecting, 0) && s.rewrite == WireOf
    modifies pool
    ensures fresh(headers) && Matches(pool, t) && KeepsUnopened(s, t, c)
    ensures Reached(origin, t, c, [BodyCollected(c.net.bodyOk)])
    ensures progress == if c.patience == 0 then Stopped(Timeout)
                        else if !c.net.bodyOk then Stopped(BodyRead)
                        else Going
    ensures match progress
            case Going =>
              && NoEmptyEntry(headers.entries)
              && WireOf(c.inc) == Wire(c.inc.httpMethod, c.inc.uri, headers.entries, c.inc.body)
              && Stands(t, c, Some(WireOf(c.inc)), Acquiring, 0)
            case Stopped(failure) => Stands(t, c, None, Done(Failed(failure)), 0)
  {
    hide Follows, Woke, TimedOut, Reached;
    headers := new HeaderMap(c.inc.headers);
    ghost var step := BodyCollected(c.net.bodyOk);
    assert [] + [step] == [step];
    progress, t := Await(pool, c, 0, s, None, Collecting, 0, origin, []);
    if progress.Stopped? {
      TimedOutReached(origin, t, c, [], [step]);
      return;
    }
    CallMoves(origin, t, c, [], step);
    t := Step(t, Event(c.id, BodyCollected(c.net.bodyOk)));
    FollowsReached(origin, t, c, [step]);
    if !c.net.bodyOk {
      return Stopped(BodyRead), headers, t;
    }
    headers.RewriteForUpstream(c.inc.upstreamValue, c.inc.clientIp, c.inc.isTls);
    RewrittenGet(c.inc.headers, c.inc.upstreamValue, c.inc.clientIp, c.inc.isTls, "host");
  }

  /** The request built for one send: a fresh header map with the same content. */
  method Build(headers: HeaderMap, inc: Incoming) returns (wire: Wire)
    requires NoEmptyEntry(headers.entries)
    ensures wire == Wire(inc.httpMethod, inc.uri, headers.entries, inc.body)
  {
    var built := headers.BuildRequest();
    wire := Wire(inc.httpMethod, inc.uri, built.entries, inc.body);
  }

  /** `connect_fresh`, from either of the two places the call reaches it. */
  method Dial(pool: ConnectionPool, c: Setting, connect: ConnectOutcome, n: nat, s: State, ghost wire: Wire,
              ghost pc: Pc, ghost origin: State, ghost own: seq<Action>)
    returns (progress: Progress, sender: Handle, t: State)
    requires Apart(c) && n == |own| <= c.patience && Matches(pool, s) && Follows(origin, s, c, own)
    requires pc.Connecting? || pc.Reconnecting?
    requires Stands(s, c, Some(wire), pc, if pc.Connecting? then 0 else 1)
    requires connect == (if pc.Connecting? then c.net.first else c.net.second) && Unopened(s, connect)
    modifies pool
    ensures Matches(pool, t) && Reached(origin, t, c, own + [Connected(connect)])
    ensures pc.Connecting? && Unopened(s, c.net.second) && OwnSecond(c) ==> Unopened(t, c.net.second)
    ensures progress == if n == c.patience then Stopped(Timeout)
                        else if ConnectFresh(connect).Err? then Stopped(CannotConnect(ConnectFresh(connect).error))
                        else Going
    ensures match progress
            case Going =>
              if pc.Connecting? then Stands(t, c, Some(wire), Sending(sender), 1)
              else Stands(t, c, Some(wire), Resending(pc.stale, sender), 2)
            case Stopped(failure) =>
              Stands(t, c, Some(wire), Done(Failed(failure)), if pc.Connecting? then 0 else 1)
  {
    hide Follows, Woke, TimedOut, Reached;
    sender := 0;
    progress, t := Await(pool, c, n, s, Some(wire), pc, if pc.Connecting? then 0 else 1, origin, own);
    if progress.Stopped? {
      TimedOutReached(origin, t, c, own, [Connected(connect)]);
      return;
    }
    CallMoves(origin, t, c, own, Connected(connect));
    t := Step(t, Event(c.id, Connected(connect)));
    FollowsReached(origin, t, c, own + [Connected(connect)]);
    var connected := ConnectFresh(connect);
    if connected.Err? {
      return Stopped(CannotConnect(connected.error)), sender, t;
    }
    sender := connected.value;
  }

  /** `acquire`: pops an idle sender or connects; the call then sends at once. */
  method TakeSender(pool: ConnectionPool, c: Setting, s: State, ghost wire: Wire, ghost origin: State,
                    ghost own: seq<Action>)
    returns (progress: Progress, sender: Handle, t: State, hasIdle: bool)
    requires Apart(c) && own == [BodyCollected(true)] && 1 <= c.patience
    requires Matches(pool, s) && Follows(origin, s, c, own) && Stands(s, c, Some(wire), Acquiring, 0)
    requires Unopened(s, c.net.first) && Unopened(s, c.net.second) && OwnSecond(c)
    modifies pool
    ensures Matches(pool, t) && Unopened(t, c.net.second)
    ensures Reached(origin, t, c, own + TakeSteps(c.net, hasIdle))
    ensures c.patience >= 2 ==> hasIdle == FindsIdle(origin, c)
    ensures progress == if c.patience < 2 then Stopped(Timeout)
                        else if hasIdle then Going
                        else if c.patience < 3 then Stopped(Timeout)
                        else if ConnectFresh(c.net.first).Err?
                        then Stopped(CannotConnect(ConnectFresh(c.net.first).error))
                        else Going
    ensures match progress
            case Going => Stands(t, c, Some(wire), Sending(sender), 1)
            case Stopped(failure) => Stands(t, c, Some(wire), Done(Failed(failure)), 0)
  {
    hide Follows, Woke, TimedOut, Reached, Exec;
    sender, hasIdle := 0, false;
    ghost var lock, connect := [AcquireLocked], [Connected(c.net.first)];
    progress, t := Await(pool, c, 1, s, Some(wire), Acquiring, 0, origin, own);
    if progress.Stopped? {
      TimedOutReached(origin, t, c, own, lock + connect);
      return;
    }
    WokeFindsIdle(origin, t, c);
    CallMoves(origin, t, c, own, AcquireLocked);
    t := Step(t, Event(c.id, AcquireLocked));
    var popped := pool.PopIdle(c.inc.upstream);
    hasIdle := popped.Some?;
    if hasIdle {
      FollowsReached(origin, t, c, own + lock);
      assert lock + [] == lock;
      return Going, popped.value, t, hasIdle;
    }
    progress, sender, t := Dial(pool, c, c.net.first, 2, t, wire, Connecting, origin, own + lock);
    assert (own + lock) + connect == own + (lock + connect);
  }

  lemma WokeFindsIdle(s: State, t: State, c: Setting)
    requires Woke(s, t, c, [BodyCollected(true)])
    ensures FindsIdle(s, c) <==> Stack(t.idle, c.inc.upstream) != []
  {
  }

  /** `release`, from either of the two places the call reaches it. */
  method GiveBack(pool: ConnectionPool, c: Setting, sender: Handle, n: nat, s: State, ghost wire: Wire,
                  ghost pc: Pc, ghost sends: nat, ghost origin: State, ghost own: seq<Action>)
    returns (progress: Progress, t: State)
    requires Apart(c) && n == |own| <= c.patience && Matches(pool, s) && Follows(origin, s, c, own)
    requires pc == Releasing(sender) || (pc.Rereleasing? && pc.current == sender)
    requires Stands(s, c, Some(wire), pc, sends)
    modifies pool
    ensures Matches(pool, t) && Reached(origin, t, c, own + [ReleaseLocked])
    ensures Unopened(s, c.net.second) ==> Unopened(t, c.net.second)
    ensures progress == if n == c.patience then Stopped(Timeout) else Going
    ensures Stands(t, c, Some(wire), if progress.Going? then Reading(StaleOf(pc)) else Done(Failed(Timeout)), sends)
  {
    hide Follows, Woke, TimedOut, Reached;
    progress, t := Await(pool, c, n, s, Some(wire), pc, sends, origin, own);
    if progress.Stopped? {
      TimedOutReached(origin, t, c, own, [ReleaseLocked]);
      return;
    }
    CallMoves(origin, t, c, own, ReleaseLocked);
    t := Step(t, Event(c.id, ReleaseLocked));
    FollowsReached(origin, t, c, own + [ReleaseLocked]);
    pool.Release(c.inc.upstream, sender);
  }

  /** Awaits the answer to a send and, if there is one, releases the sender. */
  method AwaitAnswer(pool: ConnectionPool, c: Setting, sender: Handle, ok: bool, n: nat, s: State, ghost wire: Wire,
                     ghost pc: Pc, ghost sends: nat, ghost origin: State, ghost own: seq<Action>)
    returns (progress: Progress, t: State)
    requires Apart(c) && n == |own| <= c.patience && Matches(pool, s) && Follows(origin, s, c, own)
    requires pc == Sending(sender) || (pc.Resending? && pc.current == sender)
    requires Stands(s, c, Some(wire), pc, sends)
    modifies pool
    ensures Matches(pool, t) && Reached(origin, t, c, own + AnswerSteps(ok))
    ensures Unopened(s, c.net.second) ==> Unopened(t, c.net.second)
    ensures progress == if c.patience == n then Stopped(Timeout)
                        else if !ok then Stopped(Send)
                        else if c.patience == n + 1 then Stopped(Timeout)
                        else Going
    ensures match progress
            case Going => Stands(t, c, Some(wire), Reading(StaleOf(pc)), sends)
            case Stopped(failure) =>
              Stands(t, c, Some(wire),
                     if failure == Send && pc.Sending? then Reconnecting(sender) else Done(Failed(failure)), sends)
  {
    hide Follows, Woke, TimedOut, Reached;
    progress, t := Await(pool, c, n, s, Some(wire), pc, sends, origin, own);
    if progress.Stopped? {
      TimedOutReached(origin, t, c, own, AnswerSteps(ok));
      return;
    }
    CallMoves(origin, t, c, own, SendDone(ok));
    t := Step(t, Event(c.id, SendDone(ok)));
    if !ok {
      FollowsReached(origin, t, c, own + [SendDone(ok)]);
      assert AnswerSteps(ok) == [SendDone(ok)];
      return Stopped(Send), t;
    }
    ghost var releasing := if pc.Sending? then Releasing(sender) else Rereleasing(pc.stale, sender);
    progress, t := GiveBack(pool, c, sender, n + 1, t, wire, releasing, sends, origin, own + [SendDone(ok)]);
    assert (own + [SendDone(ok)]) + [ReleaseLocked] == own + AnswerSteps(ok);
  }

  /** Collects the response body and leaves. */
  method ReadResponse(pool: ConnectionPool, c: Setting, n: nat, s: State, ghost wire: Wire,
                      ghost kept: Option<Handle>, ghost sends: nat, ghost origin: State, ghost own: seq<Action>)
    returns (outcome: Outcome, t: State)
    requires Apart(c) && n == |own| <= c.patience && Matches(pool, s) && Follows(origin, s, c, own)
    requires Stands(s, c, Some(wire), Reading(kept), sends)
    modifies pool
    ensures Matches(pool, t) && Reached(origin, t, c, own + [ResponseCollected(c.net.responseOk)])
    ensures Stands(t, c, Some(wire), Done(outcome), sends)
    ensures outcome == UnderTimer(c, n + 1, if c.net.responseOk then Responded else Failed(ResponseRead))
  {
    hide Follows, Woke, TimedOut, Reached;
    ghost var step := ResponseCollected(c.net.responseOk);
    var progress;
    progress, t := Await(pool, c, n, s, Some(wire), Reading(kept), sends, origin, own);
    if progress.Stopped? {
      TimedOutReached(origin, t, c, own, [step]);
      return Failed(progress.failure), t;
    }
    CallMoves(origin, t, c, own, step);
    t := Step(t, Event(c.id, ResponseCollected(c.net.responseOk)));
    FollowsReached(origin, t, c, own + [step]);
    outcome := if c.net.responseOk then Responded else Failed(ResponseRead);
  }

  lemma StepsAdd(own: seq<Action>, a: seq<Action>, b: seq<Action>)
    ensures (own + a) + b == own + (a + b)
  {
  }

  /** The branch taken when the first send has failed. */
  method Retry(pool: ConnectionPool, c: Setting, headers: HeaderMap, n: nat, s: State, ghost w: Wire,
               ghost stale: Handle, ghost origin: State, ghost own: seq<Action>)
    returns (outcome: Outcome, resent: seq<Wire>, t: State)
    requires Apart(c) && n == |own| <= c.patience && Matches(pool, s) && Follows(origin, s, c, own)
    requires NoEmptyEntry(headers.entries) && !c.net.firstSend
    requires w == Wire(c.inc.httpMethod, c.inc.uri, headers.entries, c.inc.body)
    requires Stands(s, c, Some(w), Reconnecting(stale), 1) && Unopened(s, c.net.second)
    modifies pool
    ensures Matches(pool, t) && Reached(origin, t, c, own + RetrySteps(c.net))
    ensures Stands(t, c, Some(w), Done(outcome), 1 + |resent|)
    ensures outcome == UnderTimer(c, n + |RetrySteps(c.net)|, OnceSent(c.net))
    ensures resent == if ConnectFresh(c.net.second).Err? || c.patience == n then [] else [w]
  {
    hide Follows, Reached;
    var wire := Build(headers, c.inc);
    var progress, sender;
    ghost var net := c.net;
    ghost var dial, answer := [Connected(net.second)], AnswerSteps(net.secondSend);
    progress, sender, t := Dial(pool, c, c.net.second, n, s, w, Reconnecting(stale), origin, own);
    if progress.Stopped? {
      if c.patience == n {
        ReachedEarly(origin, t, c, own + dial, RetrySteps(net)[1..]);
        StepsAdd(own, dial, RetrySteps(net)[1..]);
        assert dial + RetrySteps(net)[1..] == RetrySteps(net);
      } else {
        assert RetrySteps(net) == dial;
      }
      return Failed(progress.failure), [], t;
    }
    resent := [wire];
    FollowsReached(origin, t, c, own + dial);
    progress, t :=
      AwaitAnswer(pool, c, sender, c.net.secondSend, n + 1, t, w, Resending(stale, sender), 2, origin, own + dial);
    StepsAdd(own, dial, answer);
    if progress.Stopped? {
      AnsweredLate(origin, t, c, own + dial, net.secondSend, [ResponseCollected(net.responseOk)]);
      StepsAdd(own, dial, RetrySteps(net)[1..]);
      return Failed(progress.failure), resent, t;
    }
    FollowsReached(origin, t, c, (own + dial) + answer);
    outcome, t := ReadResponse(pool, c, n + 3, t, w, Some(stale), 2, origin, (own + dial) + answer);
    StepsAdd(own + dial, answer, [ResponseCollected(net.responseOk)]);
    StepsAdd(own, dial, answer + [ResponseCollected(net.responseOk)]);
  }

  /** A call that stopped while awaiting an answer would have gone on with `more` only if there was one. */
  lemma AnsweredLate(s: State, t: State, c: Setting, own: seq<Action>, ok: bool, more: seq<Action>)
    requires Reached(s, t, c, own + AnswerSteps(ok)) && (ok ==> c.patience < |own| + 2)
    ensures Reached(s, t, c, own + (AnswerSteps(ok) + if ok then more else []))
  {
    if ok {
      ReachedEarly(s, t, c, own + AnswerSteps(ok), more);
      StepsAdd(own, AnswerSteps(ok), more);
    } else {
      assert AnswerSteps(ok) + [] == AnswerSteps(ok);
    }
  }

  /** From the first send on: the answer, the retry if there is none, the response. */
  method Exchange(pool: ConnectionPool, c: Setting, headers: HeaderMap, sender: Handle, n: nat, s: State,
                  ghost w: Wire, ghost origin: State, ghost own: seq<Action>)
    returns (outcome: Outcome, resent: seq<Wire>, t: State)
    requires Apart(c) && n == |own| <= c.patience && Matches(pool, s) && Follows(origin, s, c, own)
    requires NoEmptyEntry(headers.entries)
    requires w == Wire(c.inc.httpMethod, c.inc.uri, headers.entries, c.inc.body)
    requires Stands(s, c, Some(w), Sending(sender), 1) && Unopened(s, c.net.second)
    modifies pool
    ensures Matches(pool, t) && Reached(origin, t, c, own + SentSteps(c.net))
    ensures Stands(t, c, Some(w), Done(outcome), 1 + |resent|)
    ensures outcome == UnderTimer(c, n + |SentSteps(c.net)|, OnceSent(c.net))
    ensures resent == if c.net.firstSend || ConnectFresh(c.net.second).Err? || c.patience <= n + 1 then [] else [w]
  {
    hide Follows, Reached;
    resent := [];
    ghost var net, answer := c.net, AnswerSteps(c.net.firstSend);
    var progress;
    progress, t := AwaitAnswer(pool, c, sender, c.net.firstSend, n, s, w, Sending(sender), 1, origin, own);
    if progress == Stopped(Send) {
      FollowsReached(origin, t, c, own + answer);
      outcome, resent, t := Retry(pool, c, headers, n + 1, t, w, sender, origin, own + answer);
      StepsAdd(own, answer, RetrySteps(net));
    } else if progress.Stopped? {
      ReachedEarly(origin, t, c, own + answer, SentSteps(net)[|answer|..]);
      StepsAdd(own, answer, SentSteps(net)[|answer|..]);
      assert answer + SentSteps(net)[|answer|..] == SentSteps(net);
      outcome := Failed(progress.failure);
    } else {
      FollowsReached(origin, t, c, own + answer);
      outcome, t := ReadResponse(pool, c, n + 2, t, w, None, 1, origin, own + answer);
      StepsAdd(own, answer, [ResponseCollected(net.responseOk)]);
    }
  }

  /** From taking a sender on. */
  method Relay(pool: ConnectionPool, c: Setting, headers: HeaderMap, s: State, ghost w: Wire, ghost origin: State,
               ghost own: seq<Action>)
    returns (outcome: Outcome, sent: seq<Wire>, t: State, hasIdle: bool)
    requires Apart(c) && own == [BodyCollected(true)] && 1 <= c.patience
    requires Matches(pool, s) && Follows(origin, s, c, own) && Stands(s, c, Some(w), Acquiring, 0)
    requires NoEmptyEntry(headers.entries)
    requires w == Wire(c.inc.httpMethod, c.inc.uri, headers.entries, c.inc.body)
    requires Unopened(s, c.net.first) && Unopened(s, c.net.second) && OwnSecond(c)
    modifies pool
    ensures Matches(pool, t) && Reached(origin, t, c, own + ReadySteps(c.net, hasIdle))
    ensures c.patience >= 2 ==> hasIdle == FindsIdle(origin, c)
    ensures Stands(t, c, Some(w), Done(outcome), |sent|)
    ensures forall wire :: wire in sent ==> wire == w
    ensures outcome == UnderTimer(c, 1 + |ReadySteps(c.net, hasIdle)|, OnceReady(c.net, hasIdle))
    ensures outcome == Responded ==> |sent| == if c.net.firstSend then 1 else 2
  {
    hide Follows, Reached, FindsIdle;
    sent := [];
    var progress, sender;
    progress, sender, t, hasIdle := TakeSender(pool, c, s, w, origin, own);
    ghost var net, take := c.net, TakeSteps(c.net, hasIdle);
    if progress.Stopped? {
      if c.patience < 1 + |take| {
        ReachedEarly(origin, t, c, own + take, ReadySteps(net, hasIdle)[|take|..]);
        StepsAdd(own, take, ReadySteps(net, hasIdle)[|take|..]);
        assert take + ReadySteps(net, hasIdle)[|take|..] == ReadySteps(net, hasIdle);
      } else {
        assert ReadySteps(net, hasIdle) == take;
      }
      outcome := Failed(progress.failure);
      return;
    }
    var wire := Build(headers, c.inc);
    var resent;
    FollowsReached(origin, t, c, own + take);
    outcome, resent, t := Exchange(pool, c, headers, sender, if hasIdle then 2 else 3, t, w, origin, own + take);
    StepsAdd(own, take, SentSteps(net));
    sent := [wire] + resent;
  }

  /** The request every send puts on the wire, in terms of the one that came in alone. */
  lemma WireIs(inc: Incoming)
    requires NoEmptyEntry(inc.headers)
    ensures var wire := WireOf(inc);
            wire.httpMethod == inc.httpMethod && wire.uri == inc.uri && wire.body == inc.body
    ensures forall name ::
              name in {"connection", "keep-alive", "proxy-authenticate", "proxy-authorization", "te", "trailers",
                       "transfer-encoding", "upgrade"} ==>
                name !in WireOf(inc).headers
    ensures var headers := WireOf(inc).headers;
            && "x-forwarded-for" in headers && headers["x-forwarded-for"] == [inc.clientIp]
            && "x-forwarded-proto" in headers
            && headers["x-forwarded-proto"] == [if inc.isTls then "https" else "http"]
    ensures var headers := WireOf(inc).headers;
            inc.upstreamValue.Some? ==>
              && "host" in headers && headers["host"] == [inc.upstreamValue.value]
              && "x-forwarded-host" in headers && headers["x-forwarded-host"] == [inc.upstreamValue.value]
    ensures var headers := WireOf(inc).headers;
            inc.upstreamValue.None? && "host" in inc.headers ==>
              && "host" in headers && headers["host"] == inc.headers["host"]
              && "x-forwarded-host" in headers && headers["x-forwarded-host"] == [inc.headers["host"][0]]
    ensures forall name ::
              name !in {"connection", "keep-alive", "proxy-authenticate", "proxy-authorization", "te", "trailers",
                        "transfer-encoding", "upgrade", "host", "x-forwarded-for", "x-forwarded-proto",
                        "x-forwarded-host"} ==>
                && (name in WireOf(inc).headers <==> name in inc.headers)
                && (name in inc.headers ==> WireOf(inc).headers[name] == inc.headers[name])
  {
    hide Rewritten;
    RewriteMeetsSpec(inc.headers, inc.upstreamValue, inc.clientIp, inc.isTls, "host");
    forall name
      ensures name in {"connection", "keep-alive", "proxy-authenticate", "proxy-authorization", "te", "trailers",
                       "transfer-encoding", "upgrade"} ==>
                name !in WireOf(inc).headers
      ensures name !in {"connection", "keep-alive", "proxy-authenticate", "proxy-authorization", "te", "trailers",
                        "transfer-encoding", "upgrade", "host", "x-forwarded-for", "x-forwarded-proto",
                        "x-forwarded-host"} ==>
                && (name in WireOf(inc).headers <==> name in inc.headers)
                && (name in inc.headers ==> WireOf(inc).headers[name] == inc.headers[name])
    {
      RewriteMeetsSpec(inc.headers, inc.upstreamValue, inc.clientIp, inc.isTls, name);
    }
  }

  /** `forward`, among any other calls: whatever the network answers, whatever steps other calls take
      during its awaits and whenever the timer fires, pool and calls end as the step system says after
      exactly these events: the call for this request arrives, and then, await by await, the others take
      theirs and the call its next, until it is through or the timer fires. The outcome is the one the
      network and the idle stack found under the lock determine, if the timer leaves the call the awaits
      it needs, and a timeout otherwise. Every request put on the wire is the rewritten one. */
  method Forward(pool: ConnectionPool, c: Setting, s: State)
    returns (outcome: Outcome, sent: seq<Wire>, t: State, hasIdle: bool)
    requires Apart(c) && NoEmptyEntry(c.inc.headers)
    requires Matches(pool, s) && s.rewrite == WireOf && c.id !in s.calls
    requires Unopened(s, c.net.first) && Unopened(s, c.net.second) && OwnSecond(c)
    modifies pool
    ensures Matches(pool, t) && t == Exec(s, Course(c, Steps(c.net, hasIdle)))
    ensures c.net.bodyOk && c.patience >= 2 ==> hasIdle == FindsIdle(s, c)
    ensures c.id in t.calls && t.calls[c.id].inc == c.inc && t.calls[c.id].pc == Done(outcome)
    ensures |t.calls[c.id].sends| == |sent| && forall wire :: wire in sent ==> wire == WireOf(c.inc)
    ensures forall wire :: wire in sent ==>
              wire.httpMethod == c.inc.httpMethod && wire.uri == c.inc.uri && wire.body == c.inc.body
    ensures forall wire, name :: wire in sent ==>
              (name in {"connection", "keep-alive", "proxy-authenticate", "proxy-authorization", "te", "trailers",
                        "transfer-encoding", "upgrade"} ==>
                 name !in wire.headers)
    ensures forall wire :: wire in sent ==>
              && "x-forwarded-for" in wire.headers && wire.headers["x-forwarded-for"] == [c.inc.clientIp]
              && "x-forwarded-proto" in wire.headers
              && wire.headers["x-forwarded-proto"] == [if c.inc.isTls then "https" else "http"]
    ensures forall wire :: wire in sent && c.inc.upstreamValue.Some? ==>
              && "host" in wire.headers && wire.headers["host"] == [c.inc.upstreamValue.value]
              && "x-forwarded-host" in wire.headers
              && wire.headers["x-forwarded-host"] == [c.inc.upstreamValue.value]
    ensures forall wire :: wire in sent && c.inc.upstreamValue.None? && "host" in c.inc.headers ==>
              && "host" in wire.headers && wire.headers["host"] == c.inc.headers["host"]
              && "x-forwarded-host" in wire.headers
              && wire.headers["x-forwarded-host"] == [c.inc.headers["host"][0]]
    ensures forall wire, name :: wire in sent ==>
              (name !in {"connection", "keep-alive", "proxy-authenticate", "proxy-authorization", "te", "trailers",
                         "transfer-encoding", "upgrade", "host", "x-forwarded-for", "x-forwarded-proto",
                         "x-forwarded-host"} ==>
                 && (name in wire.headers <==> name in c.inc.headers)
                 && (name in c.inc.headers ==> wire.headers[name] == c.inc.headers[name]))
    ensures outcome == UnderTimer(c, AwaitsNeeded(c.net, hasIdle), Unhurried(c.net, hasIdle))
    ensures outcome == Failed(Timeout) <==> c.patience < AwaitsNeeded(c.net, hasIdle)
    ensures outcome == Responded <==>
            && c.patience >= AwaitsNeeded(c.net, hasIdle)
            && c.net.bodyOk && (hasIdle || c.net.first.Opened?)
            && (c.net.firstSend || (c.net.second.Opened? && c.net.secondSend)) && c.net.responseOk
    ensures outcome == Responded ==> |sent| == if c.net.firstSend then 1 else 2
  {
    hide Follows, FindsIdle, WireOf, Exec, Course, UnderTimer, OnceReady, ReadySteps;
    sent, hasIdle := [], false;
    ghost var w, body := WireOf(c.inc), [BodyCollected(c.net.bodyOk)];
    WireIs(c.inc);
    t := Enter(c, s);
    var progress, headers;
    progress, headers, t := CollectBody(pool, c, t, s);
    if progress.Stopped? {
      BodyStops(s, t, c, hasIdle);
      OutcomeIs(c, hasIdle);
      outcome := Failed(progress.failure);
      return;
    }
    FollowsReached(s, t, c, body);
    outcome, sent, t, hasIdle := Relay(pool, c, headers, t, w, s, body);
    OutcomeIs(c, hasIdle);
  }

  /** The outcome in plain terms. */
  lemma OutcomeIs(c: Setting, hasIdle: bool)
    ensures var outcome := UnderTimer(c, AwaitsNeeded(c.net, hasIdle), Unhurried(c.net, hasIdle));
            && (outcome == Failed(Timeout) <==> c.patience < AwaitsNeeded(c.net, hasIdle))
            && (outcome == Responded <==>
                && c.patience >= AwaitsNeeded(c.net, hasIdle)
                && c.net.bodyOk && (hasIdle || c.net.first.Opened?)
                && (c.net.firstSend || (c.net.second.Opened? && c.net.secondSend)) && c.net.responseOk)
  {
    hide Steps;
  }

  lemma BodyStops(s: State, t: State, c: Setting, hasIdle: bool)
    requires Reached(s, t, c, [BodyCollected(c.net.bodyOk)]) && (c.patience == 0 || !c.net.bodyOk)
    ensures Reached(s, t, c, Steps(c.net, hasIdle))
    ensures UnderTimer(c, AwaitsNeeded(c.net, hasIdle), Unhurried(c.net, hasIdle)) ==
            Failed(if c.patience == 0 then Timeout else BodyRead)
  {
    var body := [BodyCollected(c.net.bodyOk)];
    if c.net.bodyOk {
      ReachedEarly(s, t, c, body, ReadySteps(c.net, hasIdle));
    } else {
      assert body + [] == body;
    }
  }
}
