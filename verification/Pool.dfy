/** The connection pool: one bounded stack of idle senders per upstream address. */
module Pool {
  import opened Prelude

  /** A sender handle is known by the connection it drives. */
  type Handle = nat

  type IdleMap = map<string, seq<Handle>>

  /** What `connect_fresh` comes back with. */
  datatype ConnectOutcome = Opened(handle: Handle) | Refused | HandshakeFailed

  datatype PoolError = UpstreamConnect | Hyper

  function Stack(idle: IdleMap, addr: string): seq<Handle> {
    if addr in idle then idle[addr] else []
  }

  function Popped(idle: IdleMap, addr: string): IdleMap {
    if Stack(idle, addr) == [] then idle else idle[addr := idle[addr][..|idle[addr]| - 1]]
  }

  predicate HasRoom(idle: IdleMap, addr: string, max: nat) {
    |Stack(idle, addr)| < max
  }

  function Pushed(idle: IdleMap, addr: string, max: nat, sender: Handle): IdleMap {
    idle[addr := Stack(idle, addr) + if HasRoom(idle, addr, max) then [sender] else []]
  }

  /** A sender released with room is the next one acquired, and that restores the stack. */
  lemma ReleaseThenAcquire(idle: IdleMap, addr: string, max: nat, sender: Handle)
    requires HasRoom(idle, addr, max)
    ensures var pushed := Pushed(idle, addr, max, sender);
            && Stack(pushed, addr) != []
            && Stack(pushed, addr)[|Stack(pushed, addr)| - 1] == sender
            && forall a :: Stack(Popped(pushed, addr), a) == Stack(idle, a)
  {
  }

  class ConnectionPool {
    var idle: IdleMap
    const maxIdlePerHost: nat

    constructor (maxIdlePerHost: nat)
      ensures idle == map[] && this.maxIdlePerHost == maxIdlePerHost
    {
      this.idle := map[];
      this.maxIdlePerHost := maxIdlePerHost;
    }

    /** The section of `acquire` that holds the lock. */
    method PopIdle(addr: string) returns (sender: Option<Handle>)
      modifies this
      ensures sender == if Stack(old(idle), addr) == [] then None
                        else Some(Stack(old(idle), addr)[|Stack(old(idle), addr)| - 1])
      ensures idle == Popped(old(idle), addr)
      ensures addr !in old(idle) || old(idle)[addr] == [] ==> sender == None && idle == old(idle)
      ensures addr in old(idle) && old(idle)[addr] != [] ==>
                && sender == Some(old(idle)[addr][|old(idle)[addr]| - 1])
                && idle == old(idle)[addr := old(idle)[addr][..|old(idle)[addr]| - 1]]
    {
      if addr in idle {
        var conns := idle[addr];
        if conns != [] {
          idle := idle[addr := conns[..|conns| - 1]];
          return Some(conns[|conns| - 1]);
        }
      }
      return None;
    }

    /** Pushes the sender back, or drops it when the stack is full. */
    method Release(addr: string, sender: Handle)
      modifies this
      ensures idle == Pushed(old(idle), addr, maxIdlePerHost, sender)
      ensures addr in idle && forall other :: other != addr ==>
                (other in idle <==> other in old(idle)) && (other in idle ==> idle[other] == old(idle)[other])
      ensures addr !in old(idle) ==> idle[addr] == if maxIdlePerHost > 0 then [sender] else []
      ensures addr in old(idle) ==>
                idle[addr] == if |old(idle)[addr]| < maxIdlePerHost then old(idle)[addr] + [sender] else old(idle)[addr]
    {
      if addr !in idle {
        idle := idle[addr := []];
      }
      assert idle[addr] + [] == idle[addr];
      if |idle[addr]| < maxIdlePerHost {
        idle := idle[addr := idle[addr] + [sender]];
      }
    }
  }

  function ConnectFresh(outcome: ConnectOutcome): Result<Handle, PoolError> {
    match outcome
    case Opened(handle) => Ok(handle)
    case Refused => Err(UpstreamConnect)
    case HandshakeFailed => Err(Hyper)
  }
}
