/** Any number of concurrent `forward` calls over one pool, interleaved at lock sections and
    awaits, each cancellable by its timeout at every await. */
module ForwardProtocol {
  import opened Prelude
  import opened Headers
  import opened Pool

  /** What a request brings in. `upstreamValue` is the upstream address as a header value, if it is one. */
  datatype Incoming = Incoming(httpMethod: string, uri: string, headers: Multimap, body: string,
                               upstream: string, upstreamValue: Option<string>, clientIp: string, isTls: bool)

  /** A request as put on the wire. */
  datatype Wire = Wire(httpMethod: string, uri: string, headers: Multimap, body: string)

  function WireOf(inc: Incoming): Wire {
    Wire(inc.httpMethod, inc.uri, Rewritten(inc.headers, inc.upstreamValue, inc.clientIp, inc.isTls), inc.body)
  }

  datatype Sent = Sent(handle: Handle, wire: Wire)

  datatype Failure = BodyRead | CannotConnect(error: PoolError) | Send | ResponseRead | Timeout

  datatype Outcome = Responded | Failed(failure: Failure)

  /** Where a call waits. A call in its retry still owns the stale sender it failed on: the
      variable lives to the end of the function. */
  datatype Pc =
    | Collecting
    | Acquiring
    | Connecting
    | Sending(current: Handle)
    | Releasing(current: Handle)
    | Reconnecting(stale: Handle)
    | Resending(stale: Handle, current: Handle)
    | Rereleasing(stale: Handle, current: Handle)
    | Reading(kept: Option<Handle>)
    | Done(outcome: Outcome)

  /** `rewritten` is the request every send is built from, once the body is in; `sends` and
      `released` are the call's history. */
  datatype Call = Call(inc: Incoming, rewritten: Option<Wire>, pc: Pc, sends: seq<Sent>, released: seq<Handle>)

  /** `created` maps every handle ever created to its address; `dropped` and `failed` are the
      handles dropped, and those on which a send has failed. `rewrite` is how a request is
      turned into the one sent on; nothing below depends on which rewriting it is. */
  datatype State = State(idle: IdleMap, calls: map<nat, Call>, created: map<Handle, string>,
                         dropped: set<Handle>, failed: set<Handle>, max: nat, rewrite: Incoming -> Wire)

  function Init(max: nat, rewrite: Incoming -> Wire): State {
    State(map[], map[], map[], {}, {}, max, rewrite)
  }

  datatype Action =
    | Arrive(inc: Incoming)
    | BodyCollected(ok: bool)
    | AcquireLocked
    | Connected(connect: ConnectOutcome)
    | SendDone(ok: bool)
    | ReleaseLocked
    | ResponseCollected(ok: bool)
    | TimeoutFires

  datatype Event = Event(id: nat, action: Action)

  function CurrentOf(pc: Pc): Option<Handle> {
    match pc
    case Sending(h) => Some(h)
    case Releasing(h) => Some(h)
    case Resending(_, h) => Some(h)
    case Rereleasing(_, h) => Some(h)
    case _ => None
  }

  function StaleOf(pc: Pc): Option<Handle> {
    match pc
    case Reconnecting(h) => Some(h)
    case Resending(h, _) => Some(h)
    case Rereleasing(h, _) => Some(h)
    case Reading(kept) => kept
    case _ => None
  }

  function Elements(o: Option<Handle>): set<Handle> {
    if o.Some? then {o.value} else {}
  }

  function Goto(s: State, id: nat, pc: Pc): State
    requires id in s.calls
  {
    s.(calls := s.calls[id := s.calls[id].(pc := pc)])
  }

  /** The call returns or its future is dropped: what it still owns is dropped with it. */
  function Finish(s: State, id: nat, outcome: Outcome): State
    requires id in s.calls
  {
    var pc := s.calls[id].pc;
    Goto(s, id, Done(outcome)).(dropped := s.dropped + Elements(CurrentOf(pc)) + Elements(StaleOf(pc)))
  }

  /** The body is in: the headers are rewritten, once for all sends. */
  function Prepare(s: State, id: nat): State
    requires id in s.calls
  {
    s.(calls := s.calls[id := s.calls[id].(pc := Acquiring, rewritten := Some(s.rewrite(s.calls[id].inc)))])
  }

  /** The call builds a request, hands it to `h` and waits at `pc`. */
  function SendOn(s: State, id: nat, pc: Pc, h: Handle): State
    requires id in s.calls && s.calls[id].rewritten.Some?
  {
    var c := s.calls[id];
    s.(calls := s.calls[id := c.(pc := pc, sends := c.sends + [Sent(h, c.rewritten.value)])])
  }

  /** The lock section of `acquire`. */
  function Acquire(s: State, id: nat): State
    requires id in s.calls && s.calls[id].rewritten.Some?
  {
    var addr := s.calls[id].inc.upstream;
    var stack := Stack(s.idle, addr);
    if stack == [] then Goto(s, id, Connecting)
    else
      var h := stack[|stack| - 1];
      SendOn(s, id, Sending(h), h).(idle := Popped(s.idle, addr))
  }

  /** `connect_fresh` returns; on success the call sends on the new handle at once. */
  function Connect(s: State, id: nat, connect: ConnectOutcome): State
    requires id in s.calls && s.calls[id].rewritten.Some?
  {
    var c := s.calls[id];
    match ConnectFresh(connect)
    case Err(error) => Finish(s, id, Failed(CannotConnect(error)))
    case Ok(h) =>
      if h in s.created then s
      else
        var pc := if c.pc.Reconnecting? then Resending(c.pc.stale, h) else Sending(h);
        SendOn(s, id, pc, h).(created := s.created[h := c.inc.upstream])
  }

  /** The first send on `h` fails: the call goes on to a fresh connection, still owning `h`. */
  function Retry(s: State, id: nat, h: Handle): State
    requires id in s.calls
  {
    Goto(s, id, Reconnecting(h)).(failed := s.failed + {h})
  }

  /** The second send fails too. */
  function GiveUp(s: State, id: nat, h: Handle): State
    requires id in s.calls
  {
    Finish(s, id, Failed(Send)).(failed := s.failed + {h})
  }

  /** The lock section of `release`, after which the response body is awaited at `Reading(kept)`. */
  function ReleaseTo(s: State, id: nat, h: Handle, kept: Option<Handle>): State
    requires id in s.calls
  {
    var c := s.calls[id];
    var addr := c.inc.upstream;
    s.(idle := Pushed(s.idle, addr, s.max, h),
       dropped := s.dropped + if HasRoom(s.idle, addr, s.max) then {} else {h},
       calls := s.calls[id := c.(pc := Reading(kept), released := c.released + [h])])
  }

  /** One atomic step of one call; an action that is not enabled changes nothing. */
  function Step(s: State, e: Event): State {
    var id := e.id;
    if e.action.Arrive? then
      if id in s.calls then s else s.(calls := s.calls[id := Call(e.action.inc, None, Collecting, [], [])])
    else if id !in s.calls || s.calls[id].pc.Done? then s
    else Advance(s, id, e.action)
  }

  function Advance(s: State, id: nat, action: Action): State
    requires id in s.calls
  {
    var c := s.calls[id];
    match (action, c.pc)
    case (BodyCollected(ok), Collecting) => if ok then Prepare(s, id) else Finish(s, id, Failed(BodyRead))
    case (AcquireLocked, Acquiring) => if c.rewritten.Some? then Acquire(s, id) else s
    case (Connected(connect), Connecting) => if c.rewritten.Some? then Connect(s, id, connect) else s
    case (Connected(connect), Reconnecting(_)) => if c.rewritten.Some? then Connect(s, id, connect) else s
    case (SendDone(ok), Sending(h)) => if ok then Goto(s, id, Releasing(h)) else Retry(s, id, h)
    case (SendDone(ok), Resending(st, h)) => if ok then Goto(s, id, Rereleasing(st, h)) else GiveUp(s, id, h)
    case (ReleaseLocked, Releasing(h)) => ReleaseTo(s, id, h, None)
    case (ReleaseLocked, Rereleasing(st, h)) => ReleaseTo(s, id, h, Some(st))
    case (ResponseCollected(ok), Reading(_)) => Finish(s, id, if ok then Responded else Failed(ResponseRead))
    case (TimeoutFires, _) => Finish(s, id, Failed(Timeout))
    case _ => s
  }

  function Exec(s: State, events: seq<Event>): State {
    if events == [] then s else Step(Exec(s, events[..|events| - 1]), events[|events| - 1])
  }

  lemma ExecAppend(s: State, events: seq<Event>, e: Event)
    ensures Exec(s, events + [e]) == Step(Exec(s, events), e)
  {
  }

  lemma {:induction false} ExecConcat(s: State, a: seq<Event>, b: seq<Event>)
    ensures Exec(s, a + b) == Exec(Exec(s, a), b)
  {
    if b == [] {
      assert a + b == a;
    } else {
      ExecConcat(s, a, b[..|b| - 1]);
      assert (a + b)[..|a + b| - 1] == a + b[..|b| - 1];
    }
  }

  // ----- where handles are

  datatype Place = Idle(addr: string, index: nat) | Current(id: nat) | Stale(id: nat)

  /** The handle found at a place. */
  function At(s: State, p: Place): Option<Handle> {
    match p
    case Idle(addr, i) => if i < |Stack(s.idle, addr)| then Some(Stack(s.idle, addr)[i]) else None
    case Current(id) => if id in s.calls then CurrentOf(s.calls[id].pc) else None
    case Stale(id) => if id in s.calls then StaleOf(s.calls[id].pc) else None
  }

  /** The address the holder of a place talks to. */
  function AddrOf(s: State, p: Place): string
    requires At(s, p).Some?
  {
    match p
    case Idle(addr, _) => addr
    case Current(id) => s.calls[id].inc.upstream
    case Stale(id) => s.calls[id].inc.upstream
  }

  ghost predicate OnePlaceEach(s: State) {
    forall p, q :: At(s, p).Some? && At(s, p) == At(s, q) ==> p == q
  }

  ghost predicate HandlesAreLive(s: State) {
    && s.dropped <= s.created.Keys
    && s.failed <= s.created.Keys
    && forall p :: At(s, p).Some? ==>
         var h := At(s, p).value;
         h in s.created && h !in s.dropped && s.created[h] == AddrOf(s, p)
  }

  ghost predicate NothingIsLost(s: State) {
    forall h :: h in s.created && h !in s.dropped ==> exists p :: At(s, p) == Some(h)
  }

  ghost predicate StacksAreBounded(s: State) {
    forall addr :: |Stack(s.idle, addr)| <= s.max
  }

  /** A handle on which a send failed is dropped or waits, unused, to be dropped; and only such
      handles wait so. */
  ghost predicate FailedAreRetired(s: State) {
    forall p :: At(s, p).Some? ==> (At(s, p).value in s.failed <==> p.Stale?)
  }

  /** The history of a call agrees with where it is. */
  ghost predicate HistoryFits(c: Call, rewrite: Incoming -> Wire) {
    && (forall i :: 0 <= i < |c.sends| ==> Some(c.sends[i].wire) == c.rewritten)
    && (c.rewritten.Some? ==> c.rewritten.value == rewrite(c.inc))
    && (c.rewritten.Some? || c.pc.Collecting? || c.pc.Done?)
    && match c.pc
       case Collecting => c.sends == [] && c.released == []
       case Acquiring => c.sends == [] && c.released == []
       case Connecting => c.sends == [] && c.released == []
       case Sending(h) => |c.sends| == 1 && c.sends[0].handle == h && c.released == []
       case Releasing(h) => |c.sends| == 1 && c.sends[0].handle == h && c.released == []
       case Reconnecting(st) => |c.sends| == 1 && c.sends[0].handle == st && c.released == []
       case Resending(st, h) =>
         |c.sends| == 2 && c.sends[0].handle == st && c.sends[1].handle == h && c.released == []
       case Rereleasing(st, h) =>
         |c.sends| == 2 && c.sends[0].handle == st && c.sends[1].handle == h && c.released == []
       case Reading(kept) =>
         && |c.sends| == (if kept.Some? then 2 else 1)
         && c.released == [c.sends[|c.sends| - 1].handle]
         && (kept.Some? ==> c.sends[0].handle == kept.value)
       case Done(outcome) =>
         && |c.sends| <= 2
         && (c.released == [] || (c.sends != [] && c.released == [c.sends[|c.sends| - 1].handle]))
         && (outcome.Responded? ==> c.released != [])
  }

  ghost predicate Inv(s: State) {
    && OnePlaceEach(s)
    && HandlesAreLive(s)
    && NothingIsLost(s)
    && StacksAreBounded(s)
    && FailedAreRetired(s)
    && forall id :: id in s.calls ==> HistoryFits(s.calls[id], s.rewrite)
  }

  /** The part of the invariant about where handles are. */
  ghost predicate Ownership(s: State) {
    OnePlaceEach(s) && HandlesAreLive(s) && NothingIsLost(s) && FailedAreRetired(s)
  }

  // ----- the ways a step moves handles

  /** No call changes address. */
  ghost predicate SameAddresses(s: State, t: State) {
    && s.calls.Keys <= t.calls.Keys
    && forall id :: id in s.calls ==> t.calls[id].inc == s.calls[id].inc
  }

  /** The handle at `src` is now at `dst`. */
  ghost predicate Moves(s: State, t: State, src: Place, dst: Place) {
    && SameAddresses(s, t)
    && t.created == s.created && t.dropped == s.dropped
    && At(s, src).Some? && At(s, dst).None? && At(t, dst) == At(s, src)
    && AddrOf(t, dst) == AddrOf(s, src)
    && (src != dst ==> At(t, src).None?)
    && forall p :: p != src && p != dst ==> At(t, p) == At(s, p)
  }

  /** A handle never seen before is now at `dst`. */
  ghost predicate Appears(s: State, t: State, h: Handle, dst: Place) {
    && SameAddresses(s, t)
    && h !in s.created && t.dropped == s.dropped && t.failed == s.failed
    && At(s, dst).None? && At(t, dst) == Some(h)
    && t.created == s.created[h := AddrOf(t, dst)]
    && forall p :: p != dst ==> At(t, p) == At(s, p)
  }

  /** The handles at the places in `gone` have been dropped. */
  ghost predicate Drops(s: State, t: State, gone: set<Place>) {
    && SameAddresses(s, t)
    && t.created == s.created
    && (forall h :: h in t.dropped <==> h in s.dropped || exists p :: p in gone && At(s, p) == Some(h))
    && (forall p :: At(t, p) == if p in gone then None else At(s, p))
    && s.failed <= t.failed
    && (forall h :: h in t.failed ==> h in s.failed || exists p :: p in gone && At(s, p) == Some(h))
  }

  lemma MoveKeepsOwnership(s: State, t: State, src: Place, dst: Place)
    requires Ownership(s) && Moves(s, t, src, dst) && !dst.Stale? && !src.Stale? && t.failed == s.failed
    ensures Ownership(t)
  {
  }

  lemma RetireKeepsOwnership(s: State, t: State, id: nat)
    requires Ownership(s) && Moves(s, t, Current(id), Stale(id))
    requires t.failed == s.failed + {At(s, Current(id)).value}
    ensures Ownership(t)
  {
  }

  lemma AppearKeepsOwnership(s: State, t: State, h: Handle, dst: Place)
    requires Ownership(s) && Appears(s, t, h, dst) && !dst.Stale?
    ensures Ownership(t)
  {
  }

  lemma DropKeepsOwnership(s: State, t: State, gone: set<Place>)
    requires Ownership(s) && Drops(s, t, gone)
    ensures Ownership(t)
  {
  }

  // ----- every step keeps the invariant

  lemma FinishDrops(s: State, id: nat, outcome: Outcome)
    requires id in s.calls
    ensures Drops(s, Finish(s, id, outcome), {Current(id), Stale(id)})
  {
  }

  lemma FinishKeepsOwnership(s: State, id: nat, outcome: Outcome)
    requires Ownership(s) && id in s.calls
    ensures Ownership(Finish(s, id, outcome))
  {
    FinishDrops(s, id, outcome);
    DropKeepsOwnership(s, Finish(s, id, outcome), {Current(id), Stale(id)});
  }

  lemma GiveUpDrops(s: State, id: nat)
    requires id in s.calls && s.calls[id].pc.Resending?
    ensures Drops(s, GiveUp(s, id, s.calls[id].pc.current), {Current(id), Stale(id)})
  {
    FinishDrops(s, id, Failed(Send));
    assert At(s, Current(id)) == Some(s.calls[id].pc.current);
  }

  lemma GiveUpKeepsOwnership(s: State, id: nat)
    requires Ownership(s) && id in s.calls && s.calls[id].pc.Resending?
    ensures Ownership(GiveUp(s, id, s.calls[id].pc.current))
  {
    GiveUpDrops(s, id);
    DropKeepsOwnership(s, GiveUp(s, id, s.calls[id].pc.current), {Current(id), Stale(id)});
  }

  lemma RetryMoves(s: State, id: nat)
    requires id in s.calls && s.calls[id].pc.Sending?
    ensures Moves(s, Retry(s, id, s.calls[id].pc.current), Current(id), Stale(id))
  {
  }

  lemma RetryKeepsOwnership(s: State, id: nat)
    requires Ownership(s) && id in s.calls && s.calls[id].pc.Sending?
    ensures Ownership(Retry(s, id, s.calls[id].pc.current))
  {
    RetryMoves(s, id);
    RetireKeepsOwnership(s, Retry(s, id, s.calls[id].pc.current), id);
  }

  lemma AcquireMoves(s: State, id: nat)
    requires id in s.calls && s.calls[id].pc.Acquiring? && s.calls[id].rewritten.Some?
    requires Stack(s.idle, s.calls[id].inc.upstream) != []
    ensures var addr := s.calls[id].inc.upstream;
            Moves(s, Acquire(s, id), Idle(addr, |Stack(s.idle, addr)| - 1), Current(id))
  {
    var addr := s.calls[id].inc.upstream;
    var t := Acquire(s, id);
    assert Stack(t.idle, addr) == Stack(s.idle, addr)[..|Stack(s.idle, addr)| - 1];
    assert forall a :: a != addr ==> Stack(t.idle, a) == Stack(s.idle, a);
  }

  lemma AcquireKeepsOwnership(s: State, id: nat)
    requires Ownership(s) && id in s.calls && s.calls[id].pc.Acquiring? && s.calls[id].rewritten.Some?
    ensures Ownership(Acquire(s, id))
  {
    var addr := s.calls[id].inc.upstream;
    if Stack(s.idle, addr) == [] {
      RelabelKeepsOwnership(s, id, Acquire(s, id).calls[id]);
    } else {
      AcquireMoves(s, id);
      MoveKeepsOwnership(s, Acquire(s, id), Idle(addr, |Stack(s.idle, addr)| - 1), Current(id));
    }
  }

  lemma ConnectAppears(s: State, id: nat, h: Handle)
    requires id in s.calls && s.calls[id].rewritten.Some? && h !in s.created
    requires s.calls[id].pc.Connecting? || s.calls[id].pc.Reconnecting?
    ensures Appears(s, Connect(s, id, Opened(h)), h, Current(id))
  {
  }

  lemma ConnectKeepsOwnership(s: State, id: nat, connect: ConnectOutcome)
    requires Ownership(s) && id in s.calls && s.calls[id].rewritten.Some?
    requires s.calls[id].pc.Connecting? || s.calls[id].pc.Reconnecting?
    ensures Ownership(Connect(s, id, connect))
  {
    match connect
    case Refused => FinishKeepsOwnership(s, id, Failed(CannotConnect(UpstreamConnect)));
    case HandshakeFailed => FinishKeepsOwnership(s, id, Failed(CannotConnect(Hyper)));
    case Opened(h) =>
      if h !in s.created {
        ConnectAppears(s, id, h);
        AppearKeepsOwnership(s, Connect(s, id, connect), h, Current(id));
      }
  }

  lemma ReleaseWithRoomMoves(s: State, id: nat, h: Handle)
    requires id in s.calls && CurrentOf(s.calls[id].pc) == Some(h)
    requires HasRoom(s.idle, s.calls[id].inc.upstream, s.max)
    ensures var addr := s.calls[id].inc.upstream;
            Moves(s, ReleaseTo(s, id, h, StaleOf(s.calls[id].pc)), Current(id), Idle(addr, |Stack(s.idle, addr)|))
  {
  }

  lemma ReleaseWhenFullDrops(s: State, id: nat, h: Handle)
    requires id in s.calls && CurrentOf(s.calls[id].pc) == Some(h)
    requires !HasRoom(s.idle, s.calls[id].inc.upstream, s.max)
    ensures Drops(s, ReleaseTo(s, id, h, StaleOf(s.calls[id].pc)), {Current(id)})
  {
  }

  /** The lock section of `release`, in any state of a call that waits for it: the handle goes on top of its
      stack when that is shorter than the bound and is dropped when it is not. */
  lemma ReleaseDropsIff(s: State, id: nat)
    requires id in s.calls && (s.calls[id].pc.Releasing? || s.calls[id].pc.Rereleasing?)
    ensures var addr, h := s.calls[id].inc.upstream, s.calls[id].pc.current;
            var stack := if addr in s.idle then s.idle[addr] else [];
            var t := Step(s, Event(id, ReleaseLocked));
            && addr in t.idle
            && t.idle[addr] == (if |stack| < s.max then stack + [h] else stack)
            && t.dropped == (if |stack| < s.max then s.dropped else s.dropped + {h})
            && forall other :: other != addr ==> Stack(t.idle, other) == Stack(s.idle, other)
  {
  }

  lemma ReleaseKeepsOwnership(s: State, id: nat)
    requires Ownership(s) && id in s.calls && (s.calls[id].pc.Releasing? || s.calls[id].pc.Rereleasing?)
    ensures Ownership(ReleaseTo(s, id, s.calls[id].pc.current, StaleOf(s.calls[id].pc)))
  {
    var addr, h := s.calls[id].inc.upstream, s.calls[id].pc.current;
    var t := ReleaseTo(s, id, h, StaleOf(s.calls[id].pc));
    if HasRoom(s.idle, addr, s.max) {
      ReleaseWithRoomMoves(s, id, h);
      MoveKeepsOwnership(s, t, Current(id), Idle(addr, |Stack(s.idle, addr)|));
    } else {
      ReleaseWhenFullDrops(s, id, h);
      DropKeepsOwnership(s, t, {Current(id)});
    }
  }

  /** Changing only how far a call has come moves nothing. */
  lemma RelabelKeepsOwnership(s: State, id: nat, c: Call)
    requires Ownership(s) && id in s.calls && c.inc == s.calls[id].inc
    requires CurrentOf(c.pc) == CurrentOf(s.calls[id].pc) && StaleOf(c.pc) == StaleOf(s.calls[id].pc)
    ensures Ownership(s.(calls := s.calls[id := c]))
  {
    NothingMoves(s, s.(calls := s.calls[id := c]));
  }

  /** A step after which every place holds what it held. */
  lemma NothingMoves(s: State, t: State)
    requires Ownership(s) && SameAddresses(s, t)
    requires t.created == s.created && t.dropped == s.dropped && t.failed == s.failed
    requires forall p :: At(t, p) == At(s, p)
    ensures Ownership(t)
  {
  }

  lemma AdvanceKeepsOwnership(s: State, id: nat, action: Action)
    requires Ownership(s) && id in s.calls
    ensures Ownership(Advance(s, id, action))
  {
    var c := s.calls[id];
    var t := Advance(s, id, action);
    if t != s {
      match action
      case BodyCollected(ok) =>
        if ok { RelabelKeepsOwnership(s, id, t.calls[id]); } else { FinishKeepsOwnership(s, id, Failed(BodyRead)); }
      case AcquireLocked => AcquireKeepsOwnership(s, id);
      case Connected(connect) => ConnectKeepsOwnership(s, id, connect);
      case SendDone(ok) =>
        if ok { RelabelKeepsOwnership(s, id, t.calls[id]); }
        else if c.pc.Sending? { RetryKeepsOwnership(s, id); }
        else { GiveUpKeepsOwnership(s, id); }
      case ReleaseLocked => ReleaseKeepsOwnership(s, id);
      case ResponseCollected(ok) => FinishKeepsOwnership(s, id, if ok then Responded else Failed(ResponseRead));
      case TimeoutFires => FinishKeepsOwnership(s, id, Failed(Timeout));
      case Arrive(_) =>
    }
  }

  /** What a step leaves alone: every other call, the bound and the rewriting. */
  lemma AdvanceIsLocal(s: State, id: nat, action: Action)
    requires id in s.calls
    ensures var t := Advance(s, id, action);
            && t.max == s.max && t.rewrite == s.rewrite && t.calls.Keys == s.calls.Keys
            && forall other :: other in s.calls && other != id ==> t.calls[other] == s.calls[other]
  {
  }

  lemma AdvanceKeepsBounds(s: State, id: nat, action: Action)
    requires id in s.calls && StacksAreBounded(s)
    ensures StacksAreBounded(Advance(s, id, action))
  {
    var t := Advance(s, id, action);
    if t.idle != s.idle {
      var addr := s.calls[id].inc.upstream;
      assert forall a :: a != addr ==> Stack(t.idle, a) == Stack(s.idle, a);
      assert |Stack(s.idle, addr)| <= s.max;
    }
  }

  lemma FinishKeepsHistory(s: State, id: nat, outcome: Outcome)
    requires id in s.calls && HistoryFits(s.calls[id], s.rewrite) && (outcome.Responded? ==> s.calls[id].pc.Reading?)
    ensures HistoryFits(Finish(s, id, outcome).calls[id], s.rewrite)
  {
  }

  lemma AdvanceKeepsHistory(s: State, id: nat, action: Action)
    requires id in s.calls && HistoryFits(s.calls[id], s.rewrite)
    ensures HistoryFits(Advance(s, id, action).calls[id], s.rewrite)
  {
    var c := s.calls[id];
    match action
    case BodyCollected(ok) => if !ok { FinishKeepsHistory(s, id, Failed(BodyRead)); }
    case Connected(connect) =>
      if ConnectFresh(connect).Err? {
        FinishKeepsHistory(s, id, Failed(CannotConnect(ConnectFresh(connect).error)));
      }
    case SendDone(ok) => if !ok { FinishKeepsHistory(s, id, Failed(Send)); }
    case ResponseCollected(ok) =>
      if c.pc.Reading? { FinishKeepsHistory(s, id, if ok then Responded else Failed(ResponseRead)); }
    case TimeoutFires => FinishKeepsHistory(s, id, Failed(Timeout));
    case _ =>
  }

  lemma ArriveKeepsInv(s: State, id: nat, inc: Incoming)
    requires Inv(s) && id !in s.calls
    ensures Inv(Step(s, Event(id, Arrive(inc))))
  {
    var t := Step(s, Event(id, Arrive(inc)));
    NothingMoves(s, t);
  }

  lemma StepKeepsInv(s: State, e: Event)
    requires Inv(s)
    ensures Inv(Step(s, e)) && Step(s, e).max == s.max && Step(s, e).rewrite == s.rewrite
  {
    if e.action.Arrive? {
      if e.id !in s.calls { ArriveKeepsInv(s, e.id, e.action.inc); }
    } else if e.id in s.calls && !s.calls[e.id].pc.Done? {
      AdvanceKeepsInv(s, e.id, e.action);
    }
  }

  lemma AdvanceKeepsInv(s: State, id: nat, action: Action)
    requires Inv(s) && id in s.calls
    ensures Inv(Advance(s, id, action)) && Advance(s, id, action).max == s.max
    ensures Advance(s, id, action).rewrite == s.rewrite
  {
    var t := Advance(s, id, action);
    AdvanceKeepsOwnership(s, id, action);
    AdvanceKeepsBounds(s, id, action);
    AdvanceKeepsHistory(s, id, action);
    AdvanceIsLocal(s, id, action);
    forall other | other in t.calls
      ensures HistoryFits(t.calls[other], t.rewrite)
    {
      assert other in s.calls;
      if other != id { assert t.calls[other] == s.calls[other]; }
    }
  }

  /** In every reachable state of every interleaving: each handle is in exactly one place or
      dropped, is filed under the address it was opened to, and is retired once a send on it has
      failed; stacks are within bounds; and every call's history fits the protocol. */
  lemma {:induction false} EveryRunKeepsInv(max: nat, rewrite: Incoming -> Wire, events: seq<Event>)
    ensures Inv(Exec(Init(max, rewrite), events))
            && Exec(Init(max, rewrite), events).max == max
            && Exec(Init(max, rewrite), events).rewrite == rewrite
  {
    if events != [] {
      var front, last := events[..|events| - 1], events[|events| - 1];
      EveryRunKeepsInv(max, rewrite, front);
      StepKeepsInv(Exec(Init(max, rewrite), front), last);
    }
  }

  // ----- conservation

  ghost function IdleSlots(s: State): set<Place> {
    set addr, i | addr in s.idle && 0 <= i < |s.idle[addr]| :: Idle(addr, i)
  }

  ghost function HeldSlots(s: State): set<Place> {
    (set id | id in s.calls && CurrentOf(s.calls[id].pc).Some? :: Current(id))
    + (set id | id in s.calls && StaleOf(s.calls[id].pc).Some? :: Stale(id))
  }

  ghost function Occupied(s: State): map<Place, Handle> {
    map p | p in IdleSlots(s) + HeldSlots(s) && At(s, p).Some? :: At(s, p).value
  }

  lemma OccupiedIsEveryPlace(s: State)
    ensures Occupied(s).Keys == IdleSlots(s) + HeldSlots(s)
    ensures forall p :: At(s, p).Some? ==> p in Occupied(s)
    ensures IdleSlots(s) !! HeldSlots(s)
  {
  }

  lemma OccupantsAreTheLiveHandles(s: State)
    requires Ownership(s)
    ensures Occupied(s).Values == s.created.Keys - s.dropped
    ensures forall p, q :: p in Occupied(s) && q in Occupied(s) && Occupied(s)[p] == Occupied(s)[q] ==> p == q
  {
    var where := Occupied(s);
    OccupiedIsEveryPlace(s);
    forall p, q | p in where && q in where && where[p] == where[q]
      ensures p == q
    {
      assert At(s, p) == At(s, q);
    }
    forall h
      ensures h in where.Values <==> h in s.created.Keys - s.dropped
    {
      if h in s.created && h !in s.dropped {
        var p :| At(s, p) == Some(h);
        assert where[p] == h;
      }
    }
  }

  lemma LiveHandlesAreCounted(s: State)
    requires Ownership(s)
    ensures |s.created| == |Occupied(s)| + |s.dropped|
  {
    OccupantsAreTheLiveHandles(s);
    InjectiveMapSize(Occupied(s));
    assert s.dropped <= s.created.Keys;
    assert s.created.Keys == (s.created.Keys - s.dropped) + s.dropped;
  }

  /** Handles created are the idle ones, the ones calls hold and the dropped ones, counted. */
  lemma HandlesAreConserved(max: nat, rewrite: Incoming -> Wire, events: seq<Event>)
    ensures var s := Exec(Init(max, rewrite), events);
            |s.created| == |IdleSlots(s)| + |HeldSlots(s)| + |s.dropped|
  {
    var s := Exec(Init(max, rewrite), events);
    EveryRunKeepsInv(max, rewrite, events);
    LiveHandlesAreCounted(s);
    OccupiedIsEveryPlace(s);
  }

  // ----- what a caller sees

  lemma HistoryBounds(c: Call, rewrite: Incoming -> Wire)
    requires HistoryFits(c, rewrite)
    ensures |c.sends| <= 2
    ensures forall i, j :: 0 <= i < |c.sends| && 0 <= j < |c.sends| ==> c.sends[i].wire == c.sends[j].wire
    ensures c.released == [] || (c.sends != [] && c.released == [c.sends[|c.sends| - 1].handle])
    ensures c.pc == Done(Responded) ==> |c.released| == 1
  {
  }

  /** Every call makes at most two sends, of the same wire request; it releases at most one
      handle, the one it last sent on, and exactly one if it returns a response. */
  lemma CallsBehave(max: nat, rewrite: Incoming -> Wire, events: seq<Event>, id: nat)
    requires id in Exec(Init(max, rewrite), events).calls
    ensures var c := Exec(Init(max, rewrite), events).calls[id];
            && |c.sends| <= 2
            && (forall i, j :: 0 <= i < |c.sends| && 0 <= j < |c.sends| ==> c.sends[i].wire == c.sends[j].wire)
            && (c.released == [] || (c.sends != [] && c.released == [c.sends[|c.sends| - 1].handle]))
            && (c.pc == Done(Responded) ==> |c.released| == 1)
  {
    EveryRunKeepsInv(max, rewrite, events);
    HistoryBounds(Exec(Init(max, rewrite), events).calls[id], rewrite);
  }

  /** Once a send on `h` has failed, whatever happens next: `h` is never idle, never the handle
      of a send in progress, and no call ever sends on it again. */
  lemma FailedHandleIsNeverReused(max: nat, rewrite: Incoming -> Wire, before: seq<Event>,
                                  after: seq<Event>, h: Handle)
    requires h in Exec(Init(max, rewrite), before).failed
    ensures var s := Exec(Init(max, rewrite), before);
            var t := Exec(Init(max, rewrite), before + after);
            && h in t.failed
            && (forall p :: At(t, p) == Some(h) ==> p.Stale?)
            && NoNewSendOn(s, t, h)
  {
    var s := Exec(Init(max, rewrite), before);
    EveryRunKeepsInv(max, rewrite, before);
    ExecConcat(Init(max, rewrite), before, after);
    FailedStaysRetired(s, after, h);
    RetiredIsStale(Exec(s, after), h);
  }

  lemma RetiredIsStale(s: State, h: Handle)
    requires Inv(s) && h in s.failed
    ensures forall p :: At(s, p) == Some(h) ==> p.Stale?
  {
  }

  /** A handle is recorded as failed exactly when a send on it fails. */
  lemma FailuresAreRecorded(s: State, id: nat, action: Action)
    requires id in s.calls
    ensures var pc := s.calls[id].pc;
            Advance(s, id, action).failed ==
            s.failed + if action == SendDone(false) && (pc.Sending? || pc.Resending?) then {pc.current} else {}
  {
  }

  /** A step sends at most once, and never on a handle on which a send has failed. */
  lemma AdvanceSends(s: State, id: nat, action: Action)
    requires Inv(s) && id in s.calls
    ensures var c, d := s.calls[id], Advance(s, id, action).calls[id];
            || d.sends == c.sends
            || (|d.sends| == |c.sends| + 1 && d.sends[..|c.sends|] == c.sends
                && d.sends[|c.sends|].handle !in s.failed)
    ensures s.failed <= Advance(s, id, action).failed
  {
    var addr := s.calls[id].inc.upstream;
    var stack := Stack(s.idle, addr);
    if stack != [] {
      assert At(s, Idle(addr, |stack| - 1)) == Some(stack[|stack| - 1]);
    }
  }

  /** No send on `h` in `t` that was not there in `s`. */
  ghost predicate NoNewSendOn(s: State, t: State, h: Handle) {
    forall id, i :: id in t.calls && 0 <= i < |t.calls[id].sends| && t.calls[id].sends[i].handle == h ==>
      id in s.calls && i < |s.calls[id].sends| && s.calls[id].sends[i].handle == h
  }

  lemma OneCallSends(s: State, t: State, id: nat, h: Handle)
    requires t.calls.Keys == s.calls.Keys && id in s.calls
    requires forall other :: other in s.calls && other != id ==> t.calls[other] == s.calls[other]
    requires var c, d := s.calls[id], t.calls[id];
             || d.sends == c.sends
             || (|d.sends| == |c.sends| + 1 && d.sends[..|c.sends|] == c.sends && d.sends[|c.sends|].handle != h)
    ensures NoNewSendOn(s, t, h)
  {
  }

  lemma StepSendsOnlyOnGoodHandles(s: State, e: Event, h: Handle)
    requires Inv(s) && h in s.failed
    ensures h in Step(s, e).failed && NoNewSendOn(s, Step(s, e), h)
  {
    if !e.action.Arrive? && e.id in s.calls && !s.calls[e.id].pc.Done? {
      AdvanceSends(s, e.id, e.action);
      AdvanceIsLocal(s, e.id, e.action);
      OneCallSends(s, Advance(s, e.id, e.action), e.id, h);
    }
  }

  lemma SendsAddUp(s: State, t: State, u: State, h: Handle)
    requires NoNewSendOn(s, t, h) && NoNewSendOn(t, u, h)
    ensures NoNewSendOn(s, u, h)
  {
  }

  lemma {:induction false} FailedStaysRetired(s: State, after: seq<Event>, h: Handle)
    requires Inv(s) && h in s.failed
    ensures var t := Exec(s, after);
            Inv(t) && h in t.failed && NoNewSendOn(s, t, h)
  {
    if after != [] {
      var mid, last := Exec(s, after[..|after| - 1]), after[|after| - 1];
      FailedStaysRetired(s, after[..|after| - 1], h);
      StepKeepsInv(mid, last);
      StepSendsOnlyOnGoodHandles(mid, last, h);
      SendsAddUp(s, mid, Step(mid, last), h);
    }
  }
}
