/**
 The one process of a forwarding instance and everybody who calls it (internal/forwarding).
 `Set` asks for Restart and Stop (config.go).  Beside it, from goroutines of their own and
 through whatever reference they hold, the handlers of the resolv, hosts, DHCP and system
 watchers ask for Reload or Restart (config.go, dhcp.go, system.go), the state reader for
 Signal (state.go), and the reset RPCs for Restart and Signal (rpc.go).
 */
module ForwardingProcess {
  import opened VrfLoop
  import opened VrfProtocol
  import opened VrfClients
  import opened ForwardingData
  import F = ForwardingConfig
  import G = ForwardingGuarantees

  /** What others than `Set` ask of the process: anything but Stop. */
  predicate OtherCall(req: Request) {
    !req.action.Stop?
  }

  /** The calls among `order` that `Set` made. */
  function SetCalls(order: seq<Request>, mine: set<nat>): seq<Request> {
    if order == [] then []
    else SetCalls(order[..|order| - 1], mine) + if order[|order| - 1].id in mine then [order[|order| - 1]] else []
  }

  /** `order` mixes the calls of `Set` with any calls of others. */
  ghost predicate Mixed(order: seq<Request>, mine: set<nat>, calls: seq<Action>) {
    && OwnChannels(order)
    && Actions(SetCalls(order, mine)) == calls
    && forall k :: 0 <= k < |order| && order[k].id !in mine ==> OtherCall(order[k])
  }

  /** Something other than `Set` calls the process after `Set` called Stop. */
  predicate OtherAfterStop(order: seq<Request>, mine: set<nat>) {
    exists i, j :: 0 <= i < j < |order| && order[i].action.Stop? && order[j].id !in mine
  }

  /** `Set` makes each of its calls when its earlier ones have returned; others call at any time. */
  predicate SetOneAtATime(s: State, es: seq<Event>, mine: set<nat>)
    requires Legal(s, es)
    decreases es
  {
    es == []
    || ((es[0].Submit? && es[0].req.id in mine ==> forall id :: id in s.submitted && id in mine ==> id in s.loop.ret)
        && SetOneAtATime(Apply(s, es[0]), es[1..], mine))
  }

  lemma {:induction false} StricterIsOneAtATime(s: State, es: seq<Event>, mine: set<nat>)
    requires Legal(s, es) && OneAtATime(s, es)
    ensures SetOneAtATime(s, es, mine)
    decreases es
  {
    if es != [] {
      StricterIsOneAtATime(Apply(s, es[0]), es[1..], mine);
    }
  }

  lemma {:induction false} SetCallAt(order: seq<Request>, mine: set<nat>, i: nat)
    requires i < |order| && order[i].id in mine
    ensures order[i] in SetCalls(order, mine)
  {
    if i < |order| - 1 {
      SetCallAt(order[..|order| - 1], mine, i);
    }
  }

  /** After a Stop of `Set`'s only others call. */
  lemma {:induction false} OnlyOthersFollow(order: seq<Request>, mine: set<nat>, i: nat, j: nat)
    requires i < j < |order| && order[i].action.Stop? && order[i].id in mine
    requires StopOnlyLast(Actions(SetCalls(order, mine)))
    ensures order[j].id !in mine
  {
    var n := |order| - 1;
    var pre, set' := SetCalls(order[..n], mine), SetCalls(order, mine);
    SetCallAt(order[..n], mine, i);
    var k :| 0 <= k < |pre| && pre[k] == order[i];
    assert set'[k] == order[i] && Actions(set')[k].Stop?;
    if j < n {
      assert forall m :: 0 <= m < |pre| ==> Actions(pre)[m] == Actions(set')[m];
      OnlyOthersFollow(order[..n], mine, i, j);
    }
  }

  lemma StopsAreSets(order: seq<Request>, mine: set<nat>, calls: seq<Action>)
    requires Mixed(order, mine, calls) && StopOnlyLast(calls)
    ensures CallAfterStop(order) <==> OtherAfterStop(order, mine)
    ensures !TwoStops(order)
  {
    forall i, j | 0 <= i < j < |order| && order[i].action.Stop?
      ensures order[j].id !in mine && !order[j].action.Stop?
    {
      OnlyOthersFollow(order, mine, i, j);
    }
    if CallAfterStop(order) {
      var i :| 0 <= i < |order| - 1 && order[i].action.Stop?;
      assert order[i + 1].id !in mine;
    }
  }

  /** Some interleaving of these calls, `Set`'s one at a time, leaves one of them waiting for ever. */
  ghost predicate CanLeaveWaiting(s: State, order: seq<Request>, mine: set<nat>) {
    exists es :: Legal(s, es) && Calls(es) <= order && SetOneAtATime(s, es, mine) && Unanswered(Exec(s, es))
  }

  /**
   However others mix their calls in: unless the instance is updated after a delete, `done`
   is never closed twice, and a call of `Set` or of another can be left waiting for ever
   exactly when something other than `Set` calls after `Set`'s Stop.
   */
  lemma InstanceServedExactly(p: Paths, ops: seq<F.SetOp>, s: State, order: seq<Request>, mine: set<nat>)
    requires !G.Reused(ops) && Init(s) && Mixed(order, mine, F.Run(p, ops).calls)
    ensures CanLeaveWaiting(s, order, mine) <==> OtherAfterStop(order, mine)
    ensures !CanPanic(s, order)
  {
    G.LinearUnlessReused(p, ops);
    StopsAreSets(order, mine, F.Run(p, ops).calls);
    PanicExactly(s, order);
    if CanLeaveWaiting(s, order, mine) {
      var es :| Legal(s, es) && Calls(es) <= order && SetOneAtATime(s, es, mine) && Unanswered(Exec(s, es));
      ServedUnlessLate(s, es, order);
    }
    if CallAfterStop(order) {
      var i :| 0 <= i < |order| - 1 && order[i].action.Stop?;
      var es := LateCallUnanswered(s, order, i);
      StricterIsOneAtATime(s, es, mine);
      assert order[..i + 2] <= order;
    }
  }

  // ------------------------------------------------------------ and it can happen

  /** The calls of `Set`, each with a channel of its own. */
  function Numbered(calls: seq<Action>): (order: seq<Request>)
    ensures |order| == |calls|
    ensures forall k :: 0 <= k < |calls| ==> order[k] == Request(k, calls[k])
  {
    seq(|calls|, k requires 0 <= k < |calls| => Request(k, calls[k]))
  }

  lemma {:induction false} AllSets(order: seq<Request>, mine: set<nat>)
    requires forall k :: 0 <= k < |order| ==> order[k].id in mine
    ensures SetCalls(order, mine) == order
  {
    if order != [] {
      AllSets(order[..|order| - 1], mine);
    }
  }

  function Below(n: nat): (ids: set<nat>)
    ensures forall k: nat :: k in ids <==> k < n
  {
    if n == 0 then {} else Below(n - 1) + {n - 1}
  }

  lemma OtherLast(sets: seq<Request>, late: Request, mine: set<nat>)
    requires late.id !in mine && forall k :: 0 <= k < |sets| ==> sets[k].id in mine
    ensures SetCalls(sets + [late], mine) == sets
  {
    AllSets(sets, mine);
    assert (sets + [late])[..|sets|] == sets;
  }

  lemma ThenAnother(calls: seq<Action>, action: Action) returns (order: seq<Request>, mine: set<nat>)
    requires !action.Stop?
    ensures Mixed(order, mine, calls)
    ensures |order| == |calls| + 1 && order[|calls|] == Request(|calls|, action) && |calls| !in mine
    ensures forall k :: 0 <= k < |calls| ==> order[k].action == calls[k]
  {
    var sets := Numbered(calls);
    order, mine := sets + [Request(|calls|, action)], Below(|calls|);
    OtherLast(sets, Request(|calls|, action), mine);
    assert Actions(sets) == calls;
  }

  /**
   After any run that ends deleted, one more call can be left waiting for ever: a Restart of
   a handler that was under way when its watcher was stopped, a reset, or a state read's
   Signal.
   */
  lemma LateCallLeftWaiting(p: Paths, ops: seq<F.SetOp>, s: State, action: Action)
      returns (order: seq<Request>, mine: set<nat>)
    requires !G.Reused(ops) && G.HasDelete(ops) && Init(s) && !action.Stop?
    ensures Mixed(order, mine, F.Run(p, ops).calls) && CanLeaveWaiting(s, order, mine)
    ensures |order| == |F.Run(p, ops).calls| + 1 && order[|order| - 1].action == action
  {
    var n := |F.Run(p, ops).calls|;
    G.RunPhase(p, ops);
    order, mine := ThenAnother(F.Run(p, ops).calls, action);
    assert order[n - 1].action.Stop? && order[n].id !in mine;
    InstanceServedExactly(p, ops, s, order, mine);
  }

  // ------------------------------------------------------------ one more call

  lemma MixedMore(order: seq<Request>, mine: set<nat>, calls: seq<Action>, req: Request)
    requires Mixed(order, mine, calls) && OwnChannels(order + [req]) && req.id !in mine && !req.action.Stop?
    ensures Mixed(order + [req], mine, calls)
  {
    assert (order + [req])[..|order|] == order;
    assert SetCalls(order + [req], mine) == SetCalls(order, mine) + [];
  }

  lemma {:induction false} SetCallFrom(order: seq<Request>, mine: set<nat>, k: nat) returns (i: nat)
    requires k < |SetCalls(order, mine)|
    ensures i < |order| && order[i] == SetCalls(order, mine)[k]
  {
    var n := |order| - 1;
    if k < |SetCalls(order[..n], mine)| {
      i := SetCallFrom(order[..n], mine, k);
    } else {
      i := n;
    }
  }

  /** `Set` has called Stop. */
  lemma StopMade(order: seq<Request>, mine: set<nat>, calls: seq<Action>)
    requires Mixed(order, mine, calls)
    ensures (exists i :: 0 <= i < |order| && order[i].action.Stop?) <==> Stop in calls
  {
    var sets := SetCalls(order, mine);
    if Stop in calls {
      var k :| 0 <= k < |calls| && calls[k] == Stop;
      var i := SetCallFrom(order, mine, k);
      assert order[i].action.Stop?;
    }
    if i :| 0 <= i < |order| && order[i].action.Stop? {
      SetCallAt(order, mine, i);
      var k :| 0 <= k < |sets| && sets[k] == order[i];
      assert Actions(sets)[k] == Stop;
    }
  }

  lemma LastIsOther(order: seq<Request>, mine: set<nat>, req: Request)
    requires !OtherAfterStop(order, mine) && req.id !in mine && !req.action.Stop?
    ensures OtherAfterStop(order + [req], mine) <==> exists i :: 0 <= i < |order| && order[i].action.Stop?
  {
    var all := order + [req];
    if i :| 0 <= i < |order| && order[i].action.Stop? {
      assert all[i].action.Stop? && all[|order|].id !in mine;
    }
    if i, j :| 0 <= i < j < |all| && all[i].action.Stop? && all[j].id !in mine {
      assert all[i] == order[i];
    }
  }

  /**
   While nobody has called after Stop, one more call from elsewhere can end in a call left
   waiting exactly when `Set` has called Stop.
   */
  lemma OneMoreCall(p: Paths, ops: seq<F.SetOp>, s: State, order: seq<Request>, mine: set<nat>, req: Request)
    requires !G.Reused(ops) && Init(s) && Mixed(order, mine, F.Run(p, ops).calls) && !OtherAfterStop(order, mine)
    requires OwnChannels(order + [req]) && req.id !in mine && !req.action.Stop?
    ensures CanLeaveWaiting(s, order + [req], mine) <==> Stop in F.Run(p, ops).calls
  {
    var calls, all := F.Run(p, ops).calls, order + [req];
    MixedMore(order, mine, calls, req);
    InstanceServedExactly(p, ops, s, all, mine);
    StopMade(order, mine, calls);
    LastIsOther(order, mine, req);
  }
}
