/**
 What the VRF-dependent process guarantees its callers and its VRF, over every
 interleaving of callers, notifications and run loop.
 */
module VrfGuarantees {
  import opened Wrappers
  import opened VrfLoop
  import opened VrfProtocol

  // ------------------------------------------------------------ the call trace

  /**
   In every run the log of process calls is the one the consumed messages ask for, and
   no call is made while the last consumed VRF fact says the VRF is absent.
   */
  lemma TraceRefinement(s: State, es: seq<Event>)
    requires Init(s) && Legal(s, es)
    ensures var t := Exec(s, es);
            && CallsMatch(t.initial, t.consumed, t.loop.calls)
            && forall k :: 0 <= k < |t.loop.calls| ==>
                 t.loop.calls[k].at < |t.consumed| && Fact(t.initial, t.consumed[..t.loop.calls[k].at + 1])
  {
    ReachedCalls(s, es);
    var t := Exec(s, es);
    CallsWhilePresent(t.initial, t.consumed, t.loop.calls);
  }

  lemma ReachedCalls(s: State, es: seq<Event>)
    requires Init(s) && Legal(s, es)
    ensures CallsMatch(Exec(s, es).initial, Exec(s, es).consumed, Exec(s, es).loop.calls)
  {
    InitInv(s);
    RunInv(s, es);
  }

  lemma CallsWhilePresent(initial: bool, consumed: seq<Message>, calls: seq<Call>)
    requires CallsMatch(initial, consumed, calls)
    ensures forall k :: 0 <= k < |calls| ==> calls[k].at < |consumed| && Fact(initial, consumed[..calls[k].at + 1])
  {
    forall k | 0 <= k < |calls|
      ensures calls[k].at < |consumed| && Fact(initial, consumed[..calls[k].at + 1])
    {
      NoCallWhileAbsent(initial, consumed, calls, k);
    }
  }

  /** What `e` can do to the loop. */
  lemma StepConsumes(s: State, e: Event)
    requires Enabled(s, e)
    ensures var t := Apply(s, e);
            && s.consumed <= t.consumed
            && (s.phase.Running? || s.phase.Exited? ==> t.initial == s.initial)
            && (s.phase.Running? ==> t.phase.Running? || t.phase.Exited?)
            && (s.phase.Exited? ==> t.phase.Exited? && t.loop == s.loop)
            && |t.consumed| <= |s.consumed| + 1
            && (|t.consumed| == |s.consumed| + 1 ==>
                  s.phase.Running? && t.loop == Handle(s.loop, |s.consumed|, t.consumed[|s.consumed|])
                  && (t.consumed[|s.consumed|].Accepted? <==> e.TakeAction?))
            && (t.consumed == s.consumed && !e.Check? ==> t.loop == s.loop)
  {
    match e {
      case TakeAdd =>
      case TakeDel =>
      case TakeAction(_) =>
      case _ => assert Apply(s, e).consumed == s.consumed;
    }
  }

  /** One event while Stop is the last accepted action. */
  lemma StopStays(s: State, e: Event)
    requires Enabled(s, e) && !e.TakeAction? && s.loop.action == Some(Stop)
    ensures var l := Apply(s, e).loop;
            && l.action == Some(Stop)
            && (l.calls == s.loop.calls || l.calls == s.loop.calls + [Call(|s.consumed|, Stop)])
  {
    match e {
      case TakeAdd =>
      case TakeDel =>
      case Check =>
      case _ =>
    }
  }

  /**
   Stop is final: when the last accepted action is Stop and the run accepts no other, every
   call the loop still makes is Stop, whatever notifications are buffered or blocked.
   */
  lemma {:induction false} StopIsFinalInRun(s: State, es: seq<Event>)
    requires Legal(s, es)
    requires s.loop.action == Some(Stop)
    requires forall i :: 0 <= i < |es| ==> !es[i].TakeAction?
    ensures var t := Exec(s, es);
            && t.loop.action == Some(Stop)
            && s.loop.calls <= t.loop.calls
            && forall k :: |s.loop.calls| <= k < |t.loop.calls| ==> t.loop.calls[k].action == Stop
    decreases es
  {
    if es != [] {
      assert !es[0].TakeAction?;
      StopStays(s, es[0]);
      StopIsFinalInRun(Apply(s, es[0]), es[1..]);
    }
  }

  /** The loop takes the call that waited longest; its caller gets the process's answer, or nil if it was not called. */
  lemma TakesInOrder(s: State, err: Error)
    requires Inv(s) && Enabled(s, TakeAction(err))
    ensures s.action.All() != []
    ensures var t, req := Apply(s, TakeAction(err)), s.action.All()[0];
            && t.action.All() == s.action.All()[1..]
            && t.loop.ret == s.loop.ret[req.id := [if s.loop.vrfSeen then err else None]]
            && t.loop.calls == s.loop.calls + (if s.loop.vrfSeen then [Call(|s.consumed|, req.action)] else [])
            && t.loop.action == Some(req.action)
  {
    assert s.action.All()[0].id !in s.loop.ret;
    assert [] + [if s.loop.vrfSeen then err else None] == [if s.loop.vrfSeen then err else None];
  }

  /** Without a checker the loop believes in the VRF only once it was told of it. */
  lemma {:induction false} WithoutChecker(s: State, es: seq<Event>)
    requires Inv(s) && !s.checker && !s.initial && Legal(s, es)
    ensures var t := Exec(s, es);
            t.loop.vrfSeen ==> exists i :: 0 <= i < |t.consumed| && t.consumed[i].Added?
    decreases es
  {
    if es == [] {
      FactMeaning(s.initial, s.consumed);
    } else {
      StepInv(s, es[0]);
      NeverFound(s, es[0]);
      WithoutChecker(Apply(s, es[0]), es[1..]);
    }
  }

  lemma NeverFound(s: State, e: Event)
    requires !s.checker && !s.initial && Enabled(s, e)
    ensures !Apply(s, e).checker && !Apply(s, e).initial
  {
  }

  // ------------------------------------------------------------ cancelled subscriptions

  /** `q` is what is left of `all` after some of it was received. */
  predicate LeftOf<T(==)>(q: seq<T>, all: seq<T>) {
    |q| <= |all| && all[|all| - |q|..] == q
  }

  lemma LeftOfLeft<T>(a: seq<T>, b: seq<T>, c: seq<T>)
    requires LeftOf(b, a) && LeftOf(c, b)
    ensures LeftOf(c, a)
  {
  }

  lemma CancelledStep(s: State, e: Event)
    requires s.cancelled && Enabled(s, e)
    ensures var t := Apply(s, e);
            t.cancelled && LeftOf(t.vrfAdd.All(), s.vrfAdd.All()) && LeftOf(t.vrfDel.All(), s.vrfDel.All())
  {
    match e {
      case TakeAdd => assert s.vrfAdd.All()[1..] == s.vrfAdd.Receive().All();
      case TakeDel => assert s.vrfDel.All()[1..] == s.vrfDel.Receive().All();
      case _ =>
    }
  }

  /**
   Once the subscriptions are cancelled nothing is notified any more, whichever VRFs are
   created or removed: what is on its way is what was, less what the loop received.
   */
  lemma {:induction false} NotifiedNoMore(s: State, es: seq<Event>)
    requires s.cancelled && Legal(s, es)
    ensures var t := Exec(s, es);
            t.cancelled && LeftOf(t.vrfAdd.All(), s.vrfAdd.All()) && LeftOf(t.vrfDel.All(), s.vrfDel.All())
    decreases es
  {
    if es != [] {
      var s1, t := Apply(s, es[0]), Exec(s, es);
      CancelledStep(s, es[0]);
      NotifiedNoMore(s1, es[1..]);
      LeftOfLeft(s.vrfAdd.All(), s1.vrfAdd.All(), t.vrfAdd.All());
      LeftOfLeft(s.vrfDel.All(), s1.vrfDel.All(), t.vrfDel.All());
    }
  }

  /** Whoever calls Stop has cancelled them before, so with a Stop called nothing is notified any more. */
  lemma {:induction false} StopCancels(s: State, es: seq<Event>)
    requires Legal(s, es) && (Stop in s.submitted.Values ==> s.cancelled)
    ensures Stop in Exec(s, es).submitted.Values ==> Exec(s, es).cancelled
    decreases es
  {
    if es != [] {
      StopCancelsAt(s, es[0]);
      StopCancels(Apply(s, es[0]), es[1..]);
    }
  }

  lemma StopCancelsAt(s: State, e: Event)
    requires Enabled(s, e) && (Stop in s.submitted.Values ==> s.cancelled)
    ensures Stop in Apply(s, e).submitted.Values ==> Apply(s, e).cancelled
  {
    if e.Submit? && !s.cancelled {
      var submitted' := s.submitted[e.req.id := e.req.action];
      assert forall id :: id in submitted' ==> submitted'[id] == if id == e.req.id then e.req.action else s.submitted[id];
    }
  }

  /** The calls made from number `n` on are those accepted calls ask for. */
  ghost predicate AskedFor(t: State, n: nat) {
    forall k :: n <= k < |t.loop.calls| ==>
      && t.loop.calls[k].at < |t.consumed|
      && t.consumed[t.loop.calls[k].at].Accepted?
      && t.consumed[t.loop.calls[k].at].req.action == t.loop.calls[k].action
  }

  ghost predicate Silenced(s: State) {
    s.cancelled && s.vrfAdd.All() == [] && s.vrfDel.All() == [] && (s.phase.Running? || s.phase.Exited?)
  }

  lemma SilencedStep(s: State, e: Event, n: nat)
    requires Silenced(s) && Enabled(s, e) && AskedFor(s, n)
    ensures var t := Apply(s, e); Silenced(t) && AskedFor(t, n) && t.loop.vrfSeen == s.loop.vrfSeen
  {
    CancelledStep(s, e);
    if e.TakeAction? {
      SilencedTake(s, e.err, n);
    }
  }

  lemma SilencedTake(s: State, err: Error, n: nat)
    requires Enabled(s, TakeAction(err)) && AskedFor(s, n)
    ensures var t := Apply(s, TakeAction(err)); AskedFor(t, n) && t.loop.vrfSeen == s.loop.vrfSeen
  {
  }

  /**
   So with the subscriptions cancelled and nothing on its way, the belief is the last there
   will be, and only an accepted call can still call the process, with its own action.
   */
  lemma {:induction false} SilencedRun(s: State, es: seq<Event>, n: nat)
    requires Silenced(s) && Legal(s, es) && AskedFor(s, n)
    ensures var t := Exec(s, es); Silenced(t) && AskedFor(t, n) && t.loop.vrfSeen == s.loop.vrfSeen
    decreases es
  {
    if es != [] {
      SilencedStep(s, es[0], n);
      SilencedRun(Apply(s, es[0]), es[1..], n);
    }
  }

  lemma OnlyCallsAreMade(s: State, es: seq<Event>)
    requires s.cancelled && s.vrfAdd.All() == [] && s.vrfDel.All() == [] && (s.phase.Running? || s.phase.Exited?)
    requires Legal(s, es)
    ensures var t := Exec(s, es);
            && t.vrfAdd.All() == [] && t.vrfDel.All() == [] && t.loop.vrfSeen == s.loop.vrfSeen
            && forall k :: |s.loop.calls| <= k < |t.loop.calls| ==>
                 t.loop.calls[k].at < |t.consumed| && t.consumed[t.loop.calls[k].at].Accepted?
                 && t.consumed[t.loop.calls[k].at].req.action == t.loop.calls[k].action
  {
    SilencedRun(s, es, |s.loop.calls|);
  }

  // ------------------------------------------------------------ progress

  predicate LoopEvent(e: Event) {
    e.TakeAdd? || e.TakeDel? || e.TakeAction?
  }

  /** The messages sent and not yet received. */
  function Pending(s: State): nat {
    |s.vrfAdd.All()| + |s.vrfDel.All()| + |s.action.All()|
  }

  lemma IterationRemovesOne(s: State, e: Event)
    requires ChannelsValid(s) && Enabled(s, e) && LoopEvent(e)
    ensures Pending(Apply(s, e)) == Pending(s) - 1 && ChannelsValid(Apply(s, e))
  {
  }

  /** Whatever `select` chooses, each iteration removes exactly one message. */
  lemma {:induction false} EachIterationRemovesOne(s: State, es: seq<Event>)
    requires ChannelsValid(s) && Legal(s, es)
    requires forall i :: 0 <= i < |es| ==> LoopEvent(es[i])
    ensures |es| <= Pending(s) && Pending(Exec(s, es)) == Pending(s) - |es|
    decreases es
  {
    if es != [] {
      assert LoopEvent(es[0]);
      IterationRemovesOne(s, es[0]);
      EachIterationRemovesOne(Apply(s, es[0]), es[1..]);
    }
  }

  /** While the loop runs and anything is pending, `select` has something to take. */
  lemma NextIteration(s: State) returns (e: Event)
    requires ChannelsValid(s) && s.phase.Running? && !s.panicked && Pending(s) > 0
    ensures LoopEvent(e) && Enabled(s, e)
    ensures Apply(s, e).phase.Running? && !Apply(s, e).panicked
  {
    e := if s.vrfAdd.buffer != [] then TakeAdd else if s.vrfDel.buffer != [] then TakeDel else TakeAction(None);
  }

  /**
   While the loop runs it can always go on to take everything pending; after that many
   iterations, in any order, no sender is blocked and every submitted call is answered.
   */
  lemma {:induction false} Drain(s: State) returns (es: seq<Event>)
    requires ChannelsValid(s) && s.phase.Running? && !s.panicked
    ensures Legal(s, es) && |es| == Pending(s) && Pending(Exec(s, es)) == 0
    ensures forall i :: 0 <= i < |es| ==> LoopEvent(es[i])
    decreases Pending(s)
  {
    if Pending(s) == 0 {
      es := [];
    } else {
      var e := NextIteration(s);
      IterationRemovesOne(s, e);
      var rest := Drain(Apply(s, e));
      es := [e] + rest;
      assert es[1..] == rest;
    }
  }

  /** With nothing pending nobody is blocked and every call submitted has its reply. */
  lemma NothingPendingNothingWaits(s: State)
    requires Inv(s) && Pending(s) == 0
    ensures s.vrfAdd.senders == [] && s.vrfDel.senders == [] && s.action.senders == []
    ensures s.loop.ret.Keys == s.submitted.Keys
  {
  }

  // ------------------------------------------------------------ replies

  /**
   In every run each answered call was sent exactly one reply, so the send into its own
   channel of capacity one cannot block, and submitted = buffered + blocked + answered.
   */
  lemma OneReplyEach(s: State, es: seq<Event>)
    requires Init(s) && Legal(s, es)
    ensures var t := Exec(s, es);
            && RepliesMatch(t.initial, t.consumed, t.loop.ret)
            && (forall id :: id in t.loop.ret ==> |t.loop.ret[id]| == 1)
            && (forall id :: id in t.submitted <==> Waiting(t.action.All(), id) || id in t.loop.ret)
            && (forall id :: id in t.loop.ret ==> !Waiting(t.action.All(), id))
            && |t.submitted| == |t.action.buffer| + |t.action.senders| + |t.loop.ret|
  {
    InitInv(s);
    RunInv(s, es);
    var t := Exec(s, es);
    forall id | id in t.loop.ret
      ensures |t.loop.ret[id]| == 1
    {
      var i :| 0 <= i < |t.consumed| && t.consumed[i].Accepted? && t.consumed[i].req.id == id;
    }
    ConservedMeans(t);
  }

  lemma ConservedMeans(t: State)
    requires Inv(t)
    ensures forall id :: id in t.submitted <==> Waiting(t.action.All(), id) || id in t.loop.ret
    ensures forall id :: id in t.loop.ret ==> !Waiting(t.action.All(), id)
  {
  }

  /** After the loop has returned no reply is ever sent. */
  lemma {:induction false} NoReplyAfterExit(s: State, es: seq<Event>)
    requires s.phase.Exited? && Legal(s, es)
    ensures Exec(s, es).loop == s.loop
    decreases es
  {
    if es != [] {
      StepConsumes(s, es[0]);
      NoReplyAfterExit(Apply(s, es[0]), es[1..]);
    }
  }
}
