/** A call of `forward` that nobody disturbs: what it leaves in the pool, in plain terms. */
module ProxyAlone {
  import opened Prelude
  import opened Headers
  import opened Pool
  import opened ForwardProtocol
  import opened Proxy

  ghost predicate Alone(c: Setting) {
    forall k :: 0 <= k ==> c.others(k) == []
  }

  lemma AloneMoves(s: State, t: State, c: Setting, own: seq<Action>, action: Action)
    requires Alone(c) && Follows(s, t, c, own)
    ensures Follows(s, Step(t, Event(c.id, action)), c, own + [action])
  {
    assert c.others(|own|) == [] && Woven(c, own) + [] == Woven(c, own);
    CallMoves(s, t, c, own, action);
  }

  /** The state after the call's own steps, nobody else moving. */
  function ByItself(t: State, id: nat, own: seq<Action>): State {
    if own == [] then t else Step(ByItself(t, id, own[..|own| - 1]), Event(id, own[|own| - 1]))
  }

  lemma {:induction false} AloneFollows(s: State, c: Setting, own: seq<Action>)
    requires Alone(c)
    ensures Follows(s, ByItself(Step(s, Event(c.id, Arrive(c.inc))), c.id, own), c, own)
  {
    if own == [] {
      Arrives(s, c);
    } else {
      var front := own[..|own| - 1];
      AloneFollows(s, c, front);
      AloneMoves(s, ByItself(Step(s, Event(c.id, Arrive(c.inc))), c.id, front), c, front, own[|own| - 1]);
      assert front + [own[|own| - 1]] == own;
    }
  }

  lemma {:induction false} ByItselfConcat(t: State, id: nat, a: seq<Action>, b: seq<Action>)
    ensures ByItself(t, id, a + b) == ByItself(ByItself(t, id, a), id, b)
  {
    if b == [] {
      assert a + b == a;
    } else {
      ByItselfConcat(t, id, a, b[..|b| - 1]);
      assert (a + b)[..|a + b| - 1] == a + b[..|b| - 1];
    }
  }

  lemma ByItselfOne(t: State, id: nat, a: Action)
    ensures ByItself(t, id, [a]) == Step(t, Event(id, a))
  {
    assert [a][..0] == [];
  }

  lemma ByItselfThree(t: State, id: nat, a: Action, b: Action, c: Action)
    ensures ByItself(t, id, [a, b, c]) == Step(Step(Step(t, Event(id, a)), Event(id, b)), Event(id, c))
  {
    assert [a, b, c] == [a] + [b] + [c];
    ByItselfConcat(t, id, [a] + [b], [c]);
    ByItselfConcat(t, id, [a], [b]);
    ByItselfOne(t, id, a);
    ByItselfOne(Step(t, Event(id, a)), id, b);
    ByItselfOne(Step(Step(t, Event(id, a)), Event(id, b)), id, c);
  }

  /** A call that waits for the answer to its first send. */
  function FirstSent(inc: Incoming, w: Wire, h: Handle): Call {
    Call(inc, Some(w), Sending(h), [Sent(h, w)], [])
  }

  /** What a state holds for the call and the pool. */
  ghost predicate Holds(t: State, id: nat, call: Call, idle: IdleMap, created: map<Handle, string>,
                        dropped: set<Handle>, failed: set<Handle>, max: nat) {
    && id in t.calls && t.calls[id] == call && t.idle == idle && t.created == created
    && t.dropped == dropped && t.failed == failed && t.max == max
  }

  /** Taking the sender on top of the stack. */
  lemma TakesIdle(s: State, id: nat, inc: Incoming, h: Handle)
    requires id !in s.calls && Stack(s.idle, inc.upstream) != []
    requires h == Stack(s.idle, inc.upstream)[|Stack(s.idle, inc.upstream)| - 1]
    ensures Holds(ByItself(Step(s, Event(id, Arrive(inc))), id, [BodyCollected(true), AcquireLocked]), id,
                  FirstSent(inc, s.rewrite(inc), h), Popped(s.idle, inc.upstream), s.created, s.dropped, s.failed,
                  s.max)
  {
    var t := Step(s, Event(id, Arrive(inc)));
    assert [BodyCollected(true), AcquireLocked] == [BodyCollected(true)] + [AcquireLocked];
    ByItselfConcat(t, id, [BodyCollected(true)], [AcquireLocked]);
    ByItselfOne(t, id, BodyCollected(true));
    ByItselfOne(Step(t, Event(id, BodyCollected(true))), id, AcquireLocked);
  }

  lemma Prepares(s: State, id: nat, inc: Incoming)
    requires id !in s.calls
    ensures Holds(Step(Step(s, Event(id, Arrive(inc))), Event(id, BodyCollected(true))), id,
                  Call(inc, Some(s.rewrite(inc)), Acquiring, [], []), s.idle, s.created, s.dropped, s.failed, s.max)
  {
  }

  lemma FindsNone(t: State, id: nat, call: Call)
    requires id in t.calls && t.calls[id] == call && call.pc == Acquiring && call.rewritten.Some?
    requires Stack(t.idle, call.inc.upstream) == []
    ensures Holds(Step(t, Event(id, AcquireLocked)), id, call.(pc := Connecting), t.idle, t.created, t.dropped,
                  t.failed, t.max)
  {
  }

  lemma Connects(t: State, id: nat, call: Call, w: Wire, h: Handle)
    requires id in t.calls && t.calls[id] == call && call.pc == Connecting && call.rewritten == Some(w)
    requires h !in t.created
    ensures Holds(Step(t, Event(id, Connected(Opened(h)))), id,
                  call.(pc := Sending(h), sends := call.sends + [Sent(h, w)]), t.idle,
                  t.created[h := call.inc.upstream], t.dropped, t.failed, t.max)
  {
  }

  /** Finding none, and connecting. */
  lemma TakesFresh(s: State, id: nat, inc: Incoming, h: Handle)
    requires id !in s.calls && Stack(s.idle, inc.upstream) == [] && h !in s.created
    ensures Holds(ByItself(Step(s, Event(id, Arrive(inc))), id,
                           [BodyCollected(true), AcquireLocked, Connected(Opened(h))]), id,
                  FirstSent(inc, s.rewrite(inc), h), s.idle, s.created[h := inc.upstream], s.dropped, s.failed,
                  s.max)
  {
    hide Step, ByItself;
    var begun := Step(s, Event(id, Arrive(inc)));
    var ready := Step(begun, Event(id, BodyCollected(true)));
    var waiting := Step(ready, Event(id, AcquireLocked));
    ByItselfThree(begun, id, BodyCollected(true), AcquireLocked, Connected(Opened(h)));
    Prepares(s, id, inc);
    FindsNone(ready, id, ready.calls[id]);
    Connects(waiting, id, waiting.calls[id], s.rewrite(inc), h);
  }

  lemma Answers(t: State, id: nat, call: Call, h: Handle)
    requires id in t.calls && t.calls[id] == call && call.pc == Sending(h)
    ensures var u := Step(t, Event(id, SendDone(true)));
            Holds(u, id, call.(pc := Releasing(h)), t.idle, t.created, t.dropped, t.failed, t.max)
  {
  }

  lemma Releases(t: State, id: nat, call: Call, h: Handle)
    requires id in t.calls && t.calls[id] == call && CurrentOf(call.pc) == Some(h)
    requires call.pc.Releasing? || call.pc.Rereleasing?
    ensures var u := Step(t, Event(id, ReleaseLocked));
            Holds(u, id, call.(pc := Reading(StaleOf(call.pc)), released := call.released + [h]),
                  Pushed(t.idle, call.inc.upstream, t.max, h), t.created,
                  t.dropped + (if HasRoom(t.idle, call.inc.upstream, t.max) then {} else {h}), t.failed, t.max)
  {
  }

  lemma Responds(t: State, id: nat, call: Call, kept: Option<Handle>)
    requires id in t.calls && t.calls[id] == call && call.pc == Reading(kept)
    ensures var u := Step(t, Event(id, ResponseCollected(true)));
            Holds(u, id, call.(pc := Done(Responded)), t.idle, t.created, t.dropped + Elements(kept), t.failed, t.max)
  {
  }

  /** An answer to the first send, and the response. */
  lemma FirstIsAnswered(t: State, id: nat, inc: Incoming, w: Wire, h: Handle)
    requires id in t.calls && t.calls[id] == FirstSent(inc, w, h)
    ensures Holds(ByItself(t, id, [SendDone(true), ReleaseLocked, ResponseCollected(true)]), id,
                  Call(inc, Some(w), Done(Responded), [Sent(h, w)], [h]), Pushed(t.idle, inc.upstream, t.max, h),
                  t.created, t.dropped + (if HasRoom(t.idle, inc.upstream, t.max) then {} else {h}), t.failed, t.max)
  {
    ByItselfThree(t, id, SendDone(true), ReleaseLocked, ResponseCollected(true));
    hide Step;
    var t1 := Step(t, Event(id, SendDone(true)));
    var t2 := Step(t1, Event(id, ReleaseLocked));
    Answers(t, id, t.calls[id], h);
    Releases(t1, id, t1.calls[id], h);
    Responds(t2, id, t2.calls[id], None);
  }

  /** Alone, a call whose first send is answered leaves the pool as it found it if there was an idle sender, and
      its new sender in the pool, within the bound, if there was none. */
  lemma AloneAnswered(s: State, c: Setting, h: Handle)
    requires Alone(c) && c.id !in s.calls && |Stack(s.idle, c.inc.upstream)| <= s.max && c.patience >= 6
    requires c.net.bodyOk && c.net.firstSend && c.net.responseOk
    requires if Stack(s.idle, c.inc.upstream) == [] then c.net.first == Opened(h) && h !in s.created
             else h == Stack(s.idle, c.inc.upstream)[|Stack(s.idle, c.inc.upstream)| - 1]
    ensures var hasIdle := Stack(s.idle, c.inc.upstream) != [];
            var t := Exec(s, Course(c, Steps(c.net, hasIdle)));
            && c.id in t.calls && t.calls[c.id].pc == Done(Responded)
            && t.calls[c.id].sends == [Sent(h, s.rewrite(c.inc))] && t.failed == s.failed
            && (forall a :: a != c.inc.upstream ==> Stack(t.idle, a) == Stack(s.idle, a))
            && (hasIdle ==>
                  && Stack(t.idle, c.inc.upstream) == Stack(s.idle, c.inc.upstream)
                  && t.created == s.created && t.dropped == s.dropped)
            && (!hasIdle ==>
                  && Stack(t.idle, c.inc.upstream) == (if s.max > 0 then [h] else [])
                  && t.created == s.created[h := c.inc.upstream]
                  && t.dropped == if s.max > 0 then s.dropped else s.dropped + {h})
  {
    var id, inc, hasIdle := c.id, c.inc, Stack(s.idle, c.inc.upstream) != [];
    var begun, w := Step(s, Event(id, Arrive(inc))), s.rewrite(inc);
    var take := [BodyCollected(true), AcquireLocked] + if hasIdle then [] else [Connected(c.net.first)];
    var answer := [SendDone(true), ReleaseLocked, ResponseCollected(true)];
    hide Step, Exec, Steps, ByItself, Woven, Follows;
    AloneSteps(s, c, hasIdle, take, answer);
    if hasIdle {
      assert take == [BodyCollected(true), AcquireLocked];
      TakesIdle(s, id, inc, h);
    } else {
      assert take == [BodyCollected(true), AcquireLocked, Connected(Opened(h))];
      TakesFresh(s, id, inc, h);
    }
    FirstIsAnswered(ByItself(begun, id, take), id, inc, w, h);
  }

  /** Such a call takes its steps one after the other. */
  lemma AloneSteps(s: State, c: Setting, hasIdle: bool, take: seq<Action>, more: seq<Action>)
    requires Alone(c) && |take| + |more| <= c.patience
    requires c.net.bodyOk && (hasIdle || c.net.first.Opened?)
    requires take == [BodyCollected(true), AcquireLocked] + if hasIdle then [] else [Connected(c.net.first)]
    requires more == if c.net.firstSend then [SendDone(true), ReleaseLocked, ResponseCollected(c.net.responseOk)]
                     else if !c.net.second.Opened? then [SendDone(false), Connected(c.net.second)]
                     else if !c.net.secondSend then [SendDone(false), Connected(c.net.second), SendDone(false)]
                     else [SendDone(false), Connected(c.net.second), SendDone(true), ReleaseLocked,
                           ResponseCollected(c.net.responseOk)]
    ensures Exec(s, Course(c, Steps(c.net, hasIdle))) ==
            ByItself(ByItself(Step(s, Event(c.id, Arrive(c.inc))), c.id, take), c.id, more)
  {
    StepsAre(c.net, hasIdle);
    hide Step, Steps, ByItself, Woven;
    AloneFollows(s, c, take + more);
    ByItselfConcat(Step(s, Event(c.id, Arrive(c.inc))), c.id, take, more);
    FollowsReached(s, Exec(s, Woven(c, take + more)), c, take + more);
  }

  lemma Fails(t: State, id: nat, call: Call, h: Handle)
    requires id in t.calls && t.calls[id] == call && call.pc == Sending(h)
    ensures var u := Step(t, Event(id, SendDone(false)));
            Holds(u, id, call.(pc := Reconnecting(h)), t.idle, t.created, t.dropped, t.failed + {h}, t.max)
  {
  }

  lemma Reconnects(t: State, id: nat, call: Call, w: Wire, h: Handle, other: Handle)
    requires id in t.calls && t.calls[id] == call && call.pc == Reconnecting(h) && call.rewritten == Some(w)
    requires other !in t.created
    ensures var u := Step(t, Event(id, Connected(Opened(other))));
            Holds(u, id, call.(pc := Resending(h, other), sends := call.sends + [Sent(other, w)]), t.idle,
                  t.created[other := call.inc.upstream], t.dropped, t.failed, t.max)
  {
  }

  lemma AnswersSecond(t: State, id: nat, call: Call, h: Handle, other: Handle)
    requires id in t.calls && t.calls[id] == call && call.pc == Resending(h, other)
    ensures var u := Step(t, Event(id, SendDone(true)));
            Holds(u, id, call.(pc := Rereleasing(h, other)), t.idle, t.created, t.dropped, t.failed, t.max)
  {
  }

  /** A first send that fails, and an answer over a fresh connection. */
  lemma IsResent(t: State, id: nat, inc: Incoming, w: Wire, h: Handle, other: Handle)
    requires id in t.calls && t.calls[id] == FirstSent(inc, w, h) && other !in t.created
    ensures Holds(ByItself(t, id, [SendDone(false), Connected(Opened(other)), SendDone(true)]), id,
                  Call(inc, Some(w), Rereleasing(h, other), [Sent(h, w), Sent(other, w)], []),
                  t.idle, t.created[other := inc.upstream], t.dropped, t.failed + {h}, t.max)
  {
    ByItselfThree(t, id, SendDone(false), Connected(Opened(other)), SendDone(true));
    hide Step, ByItself;
    var t1 := Step(t, Event(id, SendDone(false)));
    var t2 := Step(t1, Event(id, Connected(Opened(other))));
    Fails(t, id, t.calls[id], h);
    Reconnects(t1, id, t1.calls[id], w, h, other);
    AnswersSecond(t2, id, t2.calls[id], h, other);
  }

  /** After that, the release and the response. */
  lemma SecondIsAnswered(t: State, id: nat, inc: Incoming, w: Wire, h: Handle, other: Handle)
    requires id in t.calls && t.calls[id] == FirstSent(inc, w, h) && other !in t.created
    ensures Holds(ByItself(t, id, [SendDone(false), Connected(Opened(other)), SendDone(true), ReleaseLocked,
                                   ResponseCollected(true)]), id,
                  Call(inc, Some(w), Done(Responded), [Sent(h, w), Sent(other, w)], [other]),
                  Pushed(t.idle, inc.upstream, t.max, other), t.created[other := inc.upstream],
                  t.dropped + (if HasRoom(t.idle, inc.upstream, t.max) then {} else {other}) + {h}, t.failed + {h},
                  t.max)
  {
    hide Step, ByItself;
    var retry := [SendDone(false), Connected(Opened(other)), SendDone(true)];
    var release := [ReleaseLocked] + [ResponseCollected(true)];
    assert [SendDone(false), Connected(Opened(other)), SendDone(true), ReleaseLocked, ResponseCollected(true)] ==
           retry + release;
    ByItselfConcat(t, id, retry, release);
    var resent := ByItself(t, id, retry);
    IsResent(t, id, inc, w, h, other);
    ByItselfConcat(resent, id, [ReleaseLocked], [ResponseCollected(true)]);
    ByItselfOne(resent, id, ReleaseLocked);
    var t4 := Step(resent, Event(id, ReleaseLocked));
    ByItselfOne(t4, id, ResponseCollected(true));
    Releases(resent, id, resent.calls[id], other);
    Responds(t4, id, t4.calls[id], Some(h));
  }

  /** Alone, a call whose idle sender turns out stale is answered over a fresh connection, which takes the stale
      one's place in the pool; the stale one is dropped. */
  lemma AloneRetried(s: State, c: Setting, h: Handle, other: Handle)
    requires Alone(c) && c.id !in s.calls && |Stack(s.idle, c.inc.upstream)| <= s.max && c.patience >= 7
    requires c.net.bodyOk && !c.net.firstSend && c.net.secondSend && c.net.responseOk
    requires Stack(s.idle, c.inc.upstream) != [] && c.net.second == Opened(other) && other !in s.created
    requires h == Stack(s.idle, c.inc.upstream)[|Stack(s.idle, c.inc.upstream)| - 1]
    ensures var t := Exec(s, Course(c, Steps(c.net, true)));
            var stack := Stack(s.idle, c.inc.upstream);
            && c.id in t.calls && t.calls[c.id].pc == Done(Responded)
            && t.calls[c.id].sends == [Sent(h, s.rewrite(c.inc)), Sent(other, s.rewrite(c.inc))]
            && (forall a :: a != c.inc.upstream ==> Stack(t.idle, a) == Stack(s.idle, a))
            && Stack(t.idle, c.inc.upstream) == stack[..|stack| - 1] + [other]
            && t.created == s.created[other := c.inc.upstream]
            && t.dropped == s.dropped + {h} && t.failed == s.failed + {h}
  {
    var id, inc, w := c.id, c.inc, s.rewrite(c.inc);
    var begun := Step(s, Event(id, Arrive(inc)));
    var take := [BodyCollected(true), AcquireLocked];
    var retry := [SendDone(false), Connected(Opened(other)), SendDone(true), ReleaseLocked, ResponseCollected(true)];
    hide Step, Exec, Steps, ByItself, Woven, Follows;
    assert take + [] == take;
    AloneSteps(s, c, true, take, retry);
    TakesIdle(s, id, inc, h);
    SecondIsAnswered(ByItself(begun, id, take), id, inc, w, h, other);
  }
}
