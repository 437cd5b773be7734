/**
 Which callers of a VRF-dependent process are served (internal/process/process.go): exactly
 those that call nothing once Stop was called, however many of them call at once.
 */
module VrfClients {
  import opened Wrappers
  import opened VrfLoop
  import opened VrfProtocol
  import opened VrfGuarantees

  // ------------------------------------------------------------ the discipline

  /** The client discipline: nothing is called once Stop was called. */
  predicate Disciplined(s: State, e: Event) {
    e.Submit? ==> Stop !in s.submitted.Values
  }

  predicate DisciplinedRun(s: State, es: seq<Event>)
    requires Legal(s, es)
    decreases es
  {
    es == [] || (Disciplined(s, es[0]) && DisciplinedRun(Apply(s, es[0]), es[1..]))
  }

  /** Only an answered Stop closes `done`, and the loop returns only then. */
  ghost predicate ClosedByStop(s: State) {
    && (s.phase.Exited? ==> s.done)
    && (s.done <==> s.closers != {})
    && (forall id :: id in s.closers ==> id in s.submitted && s.submitted[id].Stop? && id in s.loop.ret)
  }

  /** There is at most one Stop; it is last in the queue, and once it is answered the queue is empty. */
  ghost predicate StopLast(s: State) {
    && !s.panicked && ClosedByStop(s)
    && (forall id, other :: id in s.submitted && s.submitted[id].Stop? && other in s.submitted && s.submitted[other].Stop?
                            ==> id == other)
    && (forall i :: 0 <= i < |s.action.All()| - 1 ==> !s.action.All()[i].action.Stop?)
    && (forall id :: id in s.submitted && s.submitted[id].Stop? && id in s.loop.ret ==> s.action.All() == [])
  }

  lemma TakeStopLast(s: State, err: Error)
    requires Inv(s) && StopLast(s) && Enabled(s, TakeAction(err))
    ensures StopLast(Apply(s, TakeAction(err)))
  {
    var q, t := s.action.All(), Apply(s, TakeAction(err));
    assert t.action.All() == q[1..] && q[0] == s.action.buffer[0];
  }

  lemma SubmitStopLast(s: State, req: Request)
    requires Inv(s) && StopLast(s) && Enabled(s, Submit(req)) && Stop !in s.submitted.Values
    ensures StopLast(Apply(s, Submit(req)))
  {
    var q := s.action.All();
    forall i | 0 <= i < |q|
      ensures !q[i].action.Stop?
    {
      assert s.submitted[q[i].id] in s.submitted.Values;
    }
    forall id | id in s.submitted
      ensures !s.submitted[id].Stop?
    {
      assert s.submitted[id] in s.submitted.Values;
    }
  }

  lemma CloseStopLast(s: State, e: Event)
    requires StopLast(s) && Enabled(s, e) && (e.CloseDone? || e.TakeDone?)
    ensures StopLast(Apply(s, e))
  {
  }

  /** What does not concern the calls. */
  lemma OtherStopLast(s: State, e: Event)
    requires StopLast(s) && Enabled(s, e)
    requires !e.CloseDone? && !e.TakeDone? && !e.TakeAction? && !e.Submit?
    ensures StopLast(Apply(s, e))
  {
    var t := Apply(s, e);
    assert t.action == s.action && t.submitted == s.submitted && t.loop.ret == s.loop.ret && t.closers == s.closers;
  }

  lemma DisciplinedStep(s: State, e: Event)
    requires Inv(s) && StopLast(s) && Enabled(s, e) && Disciplined(s, e)
    ensures StopLast(Apply(s, e))
  {
    match e {
      case TakeAction(err) => TakeStopLast(s, err);
      case Submit(req) => SubmitStopLast(s, req);
      case CloseDone(_) => CloseStopLast(s, e);
      case TakeDone => CloseStopLast(s, e);
      case _ => OtherStopLast(s, e);
    }
  }

  lemma {:induction false} DisciplinedRunStopLast(s: State, es: seq<Event>)
    requires Inv(s) && StopLast(s) && Legal(s, es) && DisciplinedRun(s, es)
    ensures Inv(Exec(s, es)) && StopLast(Exec(s, es))
    decreases es
  {
    if es != [] {
      DisciplinedStep(s, es[0]);
      StepInv(s, es[0]);
      DisciplinedRunStopLast(Apply(s, es[0]), es[1..]);
    }
  }

  lemma DoneMeansAnswered(t: State)
    requires Inv(t) && StopLast(t) && t.done
    ensures t.loop.ret.Keys == t.submitted.Keys && t.action.All() == []
  {
    var c :| c in t.closers;
    assert t.submitted[c].Stop? && t.action.All() == [];
    assert forall id :: id in t.submitted ==> !Waiting([], id);
  }

  /**
   Under the discipline, whatever is outstanding when Stop is called, `done` is closed once
   and only after every call was answered, so when the loop returns nobody is left waiting.
   */
  lemma DisciplinedCallsAllAnswered(s: State, es: seq<Event>)
    requires Init(s) && Legal(s, es) && DisciplinedRun(s, es)
    ensures var t := Exec(s, es);
            && !t.panicked
            && (t.done ==> t.loop.ret.Keys == t.submitted.Keys && t.action.All() == [])
            && (t.phase.Exited? ==> t.done)
  {
    InitInv(s);
    DisciplinedRunStopLast(s, es);
    if Exec(s, es).done {
      DoneMeansAnswered(Exec(s, es));
    }
  }

  // ------------------------------------------------------------ the calls of a run

  /** The calls made, in order. */
  function Calls(es: seq<Event>): seq<Request>
    decreases es
  {
    if es == [] then [] else (if es[0].Submit? then [es[0].req] else []) + Calls(es[1..])
  }

  function Actions(calls: seq<Request>): (actions: seq<Action>)
    ensures |actions| == |calls|
    ensures forall i :: 0 <= i < |calls| ==> actions[i] == calls[i].action
  {
    if calls == [] then [] else [calls[0].action] + Actions(calls[1..])
  }

  ghost predicate OwnChannels(calls: seq<Request>) {
    forall i, j :: 0 <= i < j < |calls| ==> calls[i].id != calls[j].id
  }

  /** Something is called after Stop. */
  predicate CallAfterStop(calls: seq<Request>) {
    exists i :: 0 <= i < |calls| - 1 && calls[i].action.Stop?
  }

  predicate TwoStops(calls: seq<Request>) {
    exists i, j :: 0 <= i < j < |calls| && calls[i].action.Stop? && calls[j].action.Stop?
  }

  /** Exactly these calls were made. */
  ghost predicate Made(submitted: map<nat, Action>, calls: seq<Request>) {
    && (forall k :: 0 <= k < |calls| ==> calls[k].id in submitted && submitted[calls[k].id] == calls[k].action)
    && (forall id :: id in submitted ==> exists k :: 0 <= k < |calls| && calls[k].id == id)
    && OwnChannels(calls)
  }

  lemma MadeOneMore(submitted: map<nat, Action>, made: seq<Request>, req: Request)
    requires Made(submitted, made) && req.id !in submitted
    ensures Made(submitted[req.id := req.action], made + [req])
  {
    var made', submitted' := made + [req], submitted[req.id := req.action];
    forall id | id in submitted'
      ensures exists k :: 0 <= k < |made'| && made'[k].id == id
    {
      if id == req.id {
        assert made'[|made|].id == id;
      } else {
        var k :| 0 <= k < |made| && made[k].id == id;
        assert made'[k].id == id;
      }
    }
  }

  lemma OnlySubmitSubmits(s: State, e: Event)
    requires Enabled(s, e)
    ensures Apply(s, e).submitted == if e.Submit? then s.submitted[e.req.id := e.req.action] else s.submitted
    ensures e.Submit? ==> e.req.id !in s.submitted
    ensures Calls([e]) == if e.Submit? then [e.req] else []
  {
    assert [e][1..] == [];
  }

  lemma MadeMore(s: State, made: seq<Request>, e: Event)
    requires Made(s.submitted, made) && Enabled(s, e)
    ensures Made(Apply(s, e).submitted, made + Calls([e]))
  {
    OnlySubmitSubmits(s, e);
    if e.Submit? {
      MadeOneMore(s.submitted, made, e.req);
    } else {
      assert made + [] == made;
    }
  }

  lemma CallsFirst(es: seq<Event>)
    requires es != []
    ensures Calls(es) == Calls([es[0]]) + Calls(es[1..])
  {
    assert [es[0]][1..] == [];
  }

  lemma {:induction false} RunMade(s: State, made: seq<Request>, es: seq<Event>)
    requires Made(s.submitted, made) && Legal(s, es)
    ensures Made(Exec(s, es).submitted, made + Calls(es))
    decreases es
  {
    if es == [] {
      assert made + [] == made;
    } else {
      MadeMore(s, made, es[0]);
      RunMade(Apply(s, es[0]), made + Calls([es[0]]), es[1..]);
      CallsFirst(es);
      Regroup(made, Calls([es[0]]), Calls(es[1..]));
    }
  }

  lemma Regroup(a: seq<Request>, b: seq<Request>, c: seq<Request>)
    ensures a + b + c == a + (b + c)
  {
  }

  lemma StepDisciplined(s: State, made: seq<Request>, e: Event, rest: seq<Request>)
    requires Made(s.submitted, made) && Enabled(s, e) && !CallAfterStop(made + Calls([e]) + rest)
    ensures Disciplined(s, e)
  {
    assert [e][1..] == [];
    if e.Submit? {
      var all := made + Calls([e]) + rest;
      assert forall k :: 0 <= k < |made| ==> all[k] == made[k];
    }
  }

  lemma {:induction false} RunDisciplined(s: State, made: seq<Request>, es: seq<Event>)
    requires Made(s.submitted, made) && Legal(s, es) && !CallAfterStop(made + Calls(es))
    ensures DisciplinedRun(s, es)
    decreases es
  {
    if es != [] {
      CallsFirst(es);
      Regroup(made, Calls([es[0]]), Calls(es[1..]));
      StepDisciplined(s, made, es[0], Calls(es[1..]));
      MadeMore(s, made, es[0]);
      RunDisciplined(Apply(s, es[0]), made + Calls([es[0]]), es[1..]);
    }
  }

  lemma PrefixDisciplined(calls: seq<Request>, order: seq<Request>)
    requires calls <= order && !CallAfterStop(order)
    ensures !CallAfterStop(calls)
  {
    assert forall i :: 0 <= i < |calls| ==> calls[i] == order[i];
  }

  /** Clients whose calls are the first of `plan`, made in any way, are served if the plan has Stop only last. */
  lemma PlannedCallsServed(s: State, es: seq<Event>, plan: seq<Action>)
    requires Init(s) && Legal(s, es) && Actions(Calls(es)) <= plan && StopOnlyLast(plan)
    ensures var t := Exec(s, es);
            !t.panicked && (t.phase.Exited? ==> t.loop.ret.Keys == t.submitted.Keys)
  {
    var calls := Calls(es);
    assert forall i :: 0 <= i < |calls| ==> calls[i].action == Actions(calls)[i] == plan[i];
    assert [] + calls == calls;
    RunDisciplined(s, [], es);
    DisciplinedCallsAllAnswered(s, es);
  }

  /** Only the last call may be Stop. */
  predicate StopOnlyLast(plan: seq<Action>) {
    forall i :: 0 <= i < |plan| - 1 ==> !plan[i].Stop?
  }

  // ------------------------------------------------------------ runs put together

  lemma FirstOfBoth(a: seq<Event>, b: seq<Event>)
    requires a != []
    ensures (a + b)[0] == a[0] && (a + b)[1..] == a[1..] + b
  {
  }

  lemma {:induction false} CallsTogether(a: seq<Event>, b: seq<Event>)
    ensures Calls(a + b) == Calls(a) + Calls(b)
    decreases a
  {
    if a == [] {
      assert a + b == b;
    } else {
      FirstOfBoth(a, b);
      CallsTogether(a[1..], b);
    }
  }

  lemma {:induction false} RunsAfter(s: State, a: seq<Event>, b: seq<Event>)
    requires Legal(s, a) && Legal(Exec(s, a), b)
    ensures Legal(s, a + b) && Exec(s, a + b) == Exec(Exec(s, a), b)
    decreases a
  {
    if a == [] {
      assert a + b == b;
    } else {
      FirstOfBoth(a, b);
      RunsAfter(Apply(s, a[0]), a[1..], b);
    }
  }

  lemma RunsTogether(s: State, a: seq<Event>, b: seq<Event>)
    requires Legal(s, a) && Legal(Exec(s, a), b)
    ensures Legal(s, a + b) && Exec(s, a + b) == Exec(Exec(s, a), b) && Calls(a + b) == Calls(a) + Calls(b)
  {
    RunsAfter(s, a, b);
    CallsTogether(a, b);
  }

  lemma OneEvent(s: State, e: Event)
    requires Enabled(s, e)
    ensures Legal(s, [e]) && Exec(s, [e]) == Apply(s, e)
    ensures Calls([e]) == if e.Submit? then [e.req] else []
  {
    assert [e][1..] == [];
  }

  lemma TwoEvents(s: State, e: Event, f: Event)
    requires Enabled(s, e) && Enabled(Apply(s, e), f)
    ensures Legal(s, [e, f]) && Exec(s, [e, f]) == Apply(Apply(s, e), f)
    ensures !e.Submit? && !f.Submit? ==> Calls([e, f]) == []
    ensures e.Submit? && !f.Submit? ==> Calls([e, f]) == [e.req]
  {
    OneEvent(s, e);
    OneEvent(Apply(s, e), f);
    RunsTogether(s, [e], [f]);
    assert [e, f] == [e] + [f];
  }

  /** Each call is made only when every earlier one has returned. */
  predicate OneAtATime(s: State, es: seq<Event>)
    requires Legal(s, es)
    decreases es
  {
    es == [] || ((es[0].Submit? ==> s.loop.ret.Keys == s.submitted.Keys) && OneAtATime(Apply(s, es[0]), es[1..]))
  }

  lemma {:induction false} OneAtATimeTogether(s: State, a: seq<Event>, b: seq<Event>)
    requires Legal(s, a) && Legal(Exec(s, a), b) && OneAtATime(s, a) && OneAtATime(Exec(s, a), b)
    ensures Legal(s, a + b) && OneAtATime(s, a + b)
    decreases a
  {
    RunsAfter(s, a, b);
    if a == [] {
      assert a + b == b;
    } else {
      FirstOfBoth(a, b);
      OneAtATimeTogether(Apply(s, a[0]), a[1..], b);
    }
  }

  /** A process whose subscriptions are cancelled, with every call answered and `done` open. */
  ghost predicate Idle(s: State) {
    && s.phase.Running? && s.cancelled && !s.panicked && !s.done && s.closers == {}
    && s.action == Chan([], []) && s.loop.ret.Keys == s.submitted.Keys
  }

  lemma StartUp(s: State) returns (es: seq<Event>)
    requires Init(s)
    ensures Legal(s, es) && Calls(es) == [] && OneAtATime(s, es)
    ensures Idle(Exec(s, es)) && Exec(s, es).submitted == map[]
  {
    var s1 := Apply(s, SubscribeAdd);
    var s2 := Apply(s1, SubscribeDel);
    var s3 := Apply(s2, Check);
    TwoEvents(s, SubscribeAdd, SubscribeDel);
    TwoEvents(s2, Check, Cancel);
    RunsTogether(s, [SubscribeAdd, SubscribeDel], [Check, Cancel]);
    es := [SubscribeAdd, SubscribeDel] + [Check, Cancel];
    NoCallsOneAtATime(s, es);
  }

  lemma {:induction false} NoCallsOneAtATime(s: State, es: seq<Event>)
    requires Legal(s, es) && Calls(es) == []
    ensures OneAtATime(s, es)
    decreases es
  {
    if es != [] {
      NoCallsOneAtATime(Apply(s, es[0]), es[1..]);
    }
  }

  lemma ServeOne(s: State, req: Request) returns (es: seq<Event>)
    requires Idle(s) && req.id !in s.submitted
    ensures Legal(s, es) && Calls(es) == [req] && OneAtATime(s, es)
    ensures Idle(Exec(s, es)) && Exec(s, es).submitted == s.submitted[req.id := req.action]
  {
    es := [Submit(req), TakeAction(None)];
    TwoEvents(s, Submit(req), TakeAction(None));
    assert es[1..] == [TakeAction(None)] && es[1..][1..] == [];
  }

  /** The calls of `order` can be made one at a time, each answered before the next. */
  lemma {:induction false} ServeAll(s: State, order: seq<Request>) returns (es: seq<Event>)
    requires Idle(s) && s.submitted == map[] && OwnChannels(order)
    ensures Legal(s, es) && Calls(es) == order && OneAtATime(s, es) && Idle(Exec(s, es))
    decreases |order|
  {
    if order == [] {
      es := [];
    } else {
      var n := |order| - 1;
      var first := ServeAll(s, order[..n]);
      AllMade(s, first);
      NewCall(Exec(s, first).submitted, order, n);
      var last := ServeOne(Exec(s, first), order[n]);
      RunsTogether(s, first, last);
      OneAtATimeTogether(s, first, last);
      es := first + last;
    }
  }

  lemma AllMade(s: State, es: seq<Event>)
    requires s.submitted == map[] && Legal(s, es)
    ensures Made(Exec(s, es).submitted, Calls(es))
  {
    assert [] + Calls(es) == Calls(es);
    RunMade(s, [], es);
  }

  /** The next call of `order` has its own channel. */
  lemma NewCall(submitted: map<nat, Action>, order: seq<Request>, n: nat)
    requires n < |order| && OwnChannels(order) && Made(submitted, order[..n])
    ensures order[n].id !in submitted
  {
    assert forall k :: 0 <= k < n ==> order[..n][k] == order[k];
  }

  /** From the start. */
  lemma Served(s: State, order: seq<Request>) returns (es: seq<Event>)
    requires Init(s) && OwnChannels(order)
    ensures Legal(s, es) && Calls(es) == order && OneAtATime(s, es) && Idle(Exec(s, es))
    ensures Made(Exec(s, es).submitted, order)
  {
    var start := StartUp(s);
    var served := ServeAll(Exec(s, start), order);
    RunsTogether(s, start, served);
    OneAtATimeTogether(s, start, served);
    es := start + served;
    AllMade(s, es);
  }

  // ------------------------------------------------------------ calls left waiting

  /** The loop has returned and some call waits: no reply will ever be sent. */
  ghost predicate Unanswered(t: State) {
    t.phase.Exited? && t.loop.ret.Keys != t.submitted.Keys
  }

  lemma {:induction false} CallsStay(s: State, es: seq<Event>)
    requires Legal(s, es)
    ensures s.submitted.Keys <= Exec(s, es).submitted.Keys
    ensures s.phase.Exited? ==> Exec(s, es).phase.Exited?
    decreases es
  {
    if es != [] {
      CallsStay(Apply(s, es[0]), es[1..]);
    }
  }

  /** It does not get better. */
  lemma UnansweredForever(s: State, es: seq<Event>)
    requires Inv(s) && Unanswered(s) && Legal(s, es)
    ensures Unanswered(Exec(s, es))
  {
    CallsStay(s, es);
    NoReplyAfterExit(s, es);
    var id :| id in s.submitted && id !in s.loop.ret;
    assert id in Exec(s, es).submitted;
  }

  /** Some interleaving of the first of these calls leaves one of them waiting for ever. */
  ghost predicate CanLeaveUnanswered(s: State, order: seq<Request>) {
    exists es :: Legal(s, es) && Calls(es) <= order && Unanswered(Exec(s, es))
  }

  /** Some interleaving of the first of these calls closes `done` twice. */
  ghost predicate CanPanic(s: State, order: seq<Request>) {
    exists es :: Legal(s, es) && Calls(es) <= order && Exec(s, es).panicked
  }

  /** Between Stop's answer and its closing `done` comes another call. */
  lemma OvertakesClose(m: State, stop: nat, late: Request) returns (es: seq<Event>)
    requires Idle(m) && stop in m.submitted && m.submitted[stop].Stop? && late.id !in m.submitted
    ensures Legal(m, es) && Calls(es) == [late] && OneAtATime(m, es) && Unanswered(Exec(m, es))
  {
    var m1 := Apply(m, Submit(late));
    OneEvent(m, Submit(late));
    TwoEvents(m1, CloseDone(stop), TakeDone);
    RunsTogether(m, [Submit(late)], [CloseDone(stop), TakeDone]);
    NoCallsOneAtATime(m1, [CloseDone(stop), TakeDone]);
    assert [Submit(late)][1..] == [];
    OneAtATimeTogether(m, [Submit(late)], [CloseDone(stop), TakeDone]);
    es := [Submit(late)] + [CloseDone(stop), TakeDone];
    var t := Exec(m, es);
    assert late.id in t.submitted && late.id !in t.loop.ret;
  }

  lemma FirstCalls(order: seq<Request>, i: nat)
    requires OwnChannels(order) && i < |order| - 1
    ensures OwnChannels(order[..i + 1]) && order[..i + 1][i] == order[i]
    ensures order[..i + 2] == order[..i + 1] + [order[i + 1]]
  {
  }

  /** The first calls are answered, the last of them Stop, and before it closes `done` another call is made. */
  lemma LateCallUnanswered(s: State, order: seq<Request>, i: nat) returns (es: seq<Event>)
    requires Init(s) && OwnChannels(order) && i < |order| - 1 && order[i].action.Stop?
    ensures Legal(s, es) && Calls(es) == order[..i + 2] && OneAtATime(s, es) && Unanswered(Exec(s, es))
  {
    FirstCalls(order, i);
    var first := order[..i + 1];
    var served := Served(s, first);
    NewCall(Exec(s, served).submitted, order, i + 1);
    es := ServedThenLate(s, first, served, order[i + 1]);
  }

  lemma ServedThenLate(s: State, first: seq<Request>, served: seq<Event>, late: Request) returns (es: seq<Event>)
    requires Legal(s, served) && Calls(served) == first && OneAtATime(s, served)
    requires Idle(Exec(s, served)) && Made(Exec(s, served).submitted, first) && late.id !in Exec(s, served).submitted
    requires first != [] && first[|first| - 1].action.Stop?
    ensures Legal(s, es) && Calls(es) == first + [late] && OneAtATime(s, es) && Unanswered(Exec(s, es))
  {
    var tail := OvertakesClose(Exec(s, served), first[|first| - 1].id, late);
    RunsTogether(s, served, tail);
    OneAtATimeTogether(s, served, tail);
    es := served + tail;
  }

  /**
   However many callers there are and whatever they overlap with: a call can be left waiting
   for ever exactly when something is called after Stop.
   */
  lemma UnansweredExactly(s: State, order: seq<Request>)
    requires Init(s) && OwnChannels(order)
    ensures CanLeaveUnanswered(s, order) <==> CallAfterStop(order)
  {
    if CanLeaveUnanswered(s, order) && !CallAfterStop(order) {
      var es :| Legal(s, es) && Calls(es) <= order && Unanswered(Exec(s, es));
      ServedUnlessLate(s, es, order);
      assert false;
    }
    if CallAfterStop(order) {
      var i :| 0 <= i < |order| - 1 && order[i].action.Stop?;
      var es := LateCallUnanswered(s, order, i);
      assert order[..i + 2] <= order;
    }
  }

  lemma ServedUnlessLate(s: State, es: seq<Event>, order: seq<Request>)
    requires Init(s) && Legal(s, es) && Calls(es) <= order
    ensures !CallAfterStop(order) ==> !Unanswered(Exec(s, es)) && !Exec(s, es).panicked
  {
    if !CallAfterStop(order) {
      PrefixDisciplined(Calls(es), order);
      assert [] + Calls(es) == Calls(es);
      RunDisciplined(s, [], es);
      DisciplinedCallsAllAnswered(s, es);
    }
  }

  // ------------------------------------------------------------ panics

  ghost predicate TwoStopIds(submitted: map<nat, Action>) {
    exists id, other :: id in submitted && other in submitted && id != other && submitted[id].Stop? && submitted[other].Stop?
  }

  /** Who closed `done`; closing it again takes a second Stop. */
  ghost predicate PanickedByTwo(s: State) {
    ClosedByStop(s) && (s.panicked ==> TwoStopIds(s.submitted))
  }

  lemma ClosePanickedByTwo(s: State, id: nat)
    requires PanickedByTwo(s) && Enabled(s, CloseDone(id))
    ensures PanickedByTwo(Apply(s, CloseDone(id)))
  {
    if s.done {
      var c :| c in s.closers;
      assert c != id && s.submitted[c].Stop?;
    }
  }

  lemma CallPanickedByTwo(s: State, e: Event)
    requires PanickedByTwo(s) && Enabled(s, e) && (e.Submit? || e.TakeAction?)
    ensures PanickedByTwo(Apply(s, e))
  {
  }

  lemma OtherPanickedByTwo(s: State, e: Event)
    requires PanickedByTwo(s) && Enabled(s, e) && !e.CloseDone? && !e.Submit? && !e.TakeAction?
    ensures PanickedByTwo(Apply(s, e))
  {
    var t := Apply(s, e);
    assert t.submitted == s.submitted && t.loop.ret == s.loop.ret && t.closers == s.closers;
  }

  lemma StepPanickedByTwo(s: State, e: Event)
    requires PanickedByTwo(s) && Enabled(s, e)
    ensures PanickedByTwo(Apply(s, e))
  {
    match e {
      case CloseDone(id) => ClosePanickedByTwo(s, id);
      case Submit(_) => CallPanickedByTwo(s, e);
      case TakeAction(_) => CallPanickedByTwo(s, e);
      case _ => OtherPanickedByTwo(s, e);
    }
  }

  lemma {:induction false} RunPanickedByTwo(s: State, es: seq<Event>)
    requires PanickedByTwo(s) && Legal(s, es)
    ensures PanickedByTwo(Exec(s, es))
    decreases es
  {
    if es != [] {
      StepPanickedByTwo(s, es[0]);
      RunPanickedByTwo(Apply(s, es[0]), es[1..]);
    }
  }

  lemma TwoStopsMade(submitted: map<nat, Action>, calls: seq<Request>)
    requires Made(submitted, calls) && TwoStopIds(submitted)
    ensures TwoStops(calls)
  {
    var id, other :| id in submitted && other in submitted && id != other && submitted[id].Stop? && submitted[other].Stop?;
    var i :| 0 <= i < |calls| && calls[i].id == id;
    var j :| 0 <= j < |calls| && calls[j].id == other;
    assert calls[i].action.Stop? && calls[j].action.Stop?;
  }

  lemma PanicNeedsTwoStops(s: State, es: seq<Event>)
    requires Init(s) && Legal(s, es) && Exec(s, es).panicked
    ensures TwoStops(Calls(es))
  {
    RunPanickedByTwo(s, es);
    AllMade(s, es);
    TwoStopsMade(Exec(s, es).submitted, Calls(es));
  }

  /** Two answered Stops each close `done`. */
  lemma TwoStopsPanic(s: State, order: seq<Request>, i: nat, j: nat) returns (es: seq<Event>)
    requires Init(s) && OwnChannels(order) && i < j < |order| && order[i].action.Stop? && order[j].action.Stop?
    ensures Legal(s, es) && Calls(es) == order && Exec(s, es).panicked
  {
    var served := Served(s, order);
    var tail := [CloseDone(order[i].id), CloseDone(order[j].id)];
    TwoEvents(Exec(s, served), CloseDone(order[i].id), CloseDone(order[j].id));
    RunsTogether(s, served, tail);
    es := served + tail;
  }

  /** A call of Stop can panic exactly when Stop is called twice. */
  lemma PanicExactly(s: State, order: seq<Request>)
    requires Init(s) && OwnChannels(order)
    ensures CanPanic(s, order) <==> TwoStops(order)
  {
    if CanPanic(s, order) {
      var es :| Legal(s, es) && Calls(es) <= order && Exec(s, es).panicked;
      PanicNeedsTwoStops(s, es);
      var i, j :| 0 <= i < j < |Calls(es)| && Calls(es)[i].action.Stop? && Calls(es)[j].action.Stop?;
      assert order[i].action.Stop? && order[j].action.Stop?;
    }
    if TwoStops(order) {
      var i, j :| 0 <= i < j < |order| && order[i].action.Stop? && order[j].action.Stop?;
      var es := TwoStopsPanic(s, order, i, j);
    }
  }

  // ------------------------------------------------------------ the next call

  lemma TakeOne(s: State) returns (t: State)
    requires Inv(s) && s.phase.Running? && !s.panicked && s.action.All() != []
    ensures Enabled(s, TakeAction(None)) && t == Apply(s, TakeAction(None)) && Inv(t)
    ensures t.action.All() == s.action.All()[1..] && s.action.All()[0].id in t.loop.ret
    ensures t.phase.Running? && !t.panicked && t.submitted == s.submitted && t.done == s.done && t.closers == s.closers
  {
    t := Apply(s, TakeAction(None));
    StepInv(s, TakeAction(None));
    assert s.action.All()[0] == s.action.buffer[0];
  }

  lemma DropTwice(q: seq<Request>, n: nat)
    requires 0 < n <= |q|
    ensures q[1..][n - 1..] == q[n..]
  {
  }

  /** The loop takes the first `n` calls of the queue. */
  lemma {:induction false} TakeMany(s: State, q: seq<Request>, n: nat) returns (es: seq<Event>, t: State)
    requires Inv(s) && s.phase.Running? && !s.panicked && s.action.All() == q && n <= |q|
    ensures Legal(s, es) && Calls(es) == [] && t == Exec(s, es) && Inv(t)
    ensures t.action.All() == q[n..] && t.submitted == s.submitted
    ensures t.phase.Running? && !t.panicked && t.done == s.done && t.closers == s.closers
    decreases n
  {
    if n == 0 {
      es, t := [], s;
    } else {
      var s1 := TakeOne(s);
      DropTwice(q, n);
      var rest;
      rest, t := TakeMany(s1, q[1..], n - 1);
      RunOn(s, TakeAction(None), rest);
      es := [TakeAction(None)] + rest;
    }
  }

  lemma RunOn(s: State, e: Event, rest: seq<Event>)
    requires Enabled(s, e) && Legal(Apply(s, e), rest)
    ensures Legal(s, [e] + rest) && Exec(s, [e] + rest) == Exec(Apply(s, e), rest)
    ensures !e.Submit? ==> Calls([e] + rest) == Calls(rest)
  {
    assert ([e] + rest)[1..] == rest;
  }

  /** A run of Stop's return and the loop's. */
  lemma CloseAndReturn(s: State, stop: nat) returns (es: seq<Event>)
    requires s.phase.Running? && !s.panicked && stop in s.submitted && s.submitted[stop].Stop? && stop in s.loop.ret
    requires s.done <==> s.closers != {}
    ensures Legal(s, es) && Calls(es) == []
    ensures Exec(s, es).phase.Exited? && Exec(s, es).loop == s.loop && Exec(s, es).submitted == s.submitted
  {
    if s.done {
      OneEvent(s, TakeDone);
      es := [TakeDone];
    } else {
      TwoEvents(s, CloseDone(stop), TakeDone);
      es := [CloseDone(stop), TakeDone];
    }
  }

  /** Once nothing but the last call is queued, every other call is answered. */
  lemma OthersAnswered(m: State, req: Request, id: nat)
    requires Inv(m) && m.action.All() == [req] && id in m.submitted && id != req.id
    ensures id in m.loop.ret && req.id in m.submitted && req.id !in m.loop.ret
  {
    assert m.action.All()[0] == req;
    assert !Waiting([req], id);
  }

  lemma QueuedLast(s: State, req: Request)
    requires Inv(s) && StopLast(s) && Enabled(s, Submit(req)) && s.phase.Running?
    ensures var t := Apply(s, Submit(req));
            && Inv(t) && t.phase.Running? && !t.panicked && t.action.All() == s.action.All() + [req]
            && t.submitted == s.submitted[req.id := req.action] && (t.done <==> t.closers != {})
  {
    StepInv(s, Submit(req));
  }

  lemma LastQueued(q: seq<Request>, req: Request)
    ensures (q + [req])[|q|..] == [req]
  {
  }

  /** From where a call was made after Stop the loop can take what comes before it, and return. */
  lemma LeftBehind(s: State, req: Request, stop: nat) returns (es: seq<Event>)
    requires Inv(s) && StopLast(s) && Enabled(s, Submit(req)) && s.phase.Running?
    requires stop in s.submitted && s.submitted[stop].Stop?
    ensures Legal(Apply(s, Submit(req)), es) && Calls(es) == []
    ensures Unanswered(Exec(Apply(s, Submit(req)), es))
  {
    QueuedLast(s, req);
    LastQueued(s.action.All(), req);
    es := ReturnsBefore(Apply(s, Submit(req)), |s.action.All()|, req, stop);
  }

  lemma ReturnsBefore(s: State, n: nat, req: Request, stop: nat) returns (es: seq<Event>)
    requires Inv(s) && s.phase.Running? && !s.panicked && (s.done <==> s.closers != {})
    requires n <= |s.action.All()| && s.action.All()[n..] == [req]
    requires stop in s.submitted && s.submitted[stop].Stop? && stop != req.id
    ensures Legal(s, es) && Calls(es) == [] && Unanswered(Exec(s, es))
  {
    var taken, m := TakeMany(s, s.action.All(), n);
    OthersAnswered(m, req, stop);
    var end := CloseAndReturn(m, stop);
    RunsTogether(s, taken, end);
    es := taken + end;
  }

  /** Without another call the process can end with a call unanswered, or panic. */
  ghost predicate CanFail(s: State) {
    exists es :: Legal(s, es) && Calls(es) == [] && (Unanswered(Exec(s, es)) || Exec(s, es).panicked)
  }

  /**
   Call by call, over every run from the start: after calls that kept the discipline, another
   call can come to grief without any further one exactly when Stop was called before it.
   */
  lemma CallEndangeredExactly(s: State, before: seq<Event>, req: Request)
    requires Init(s) && Legal(s, before) && DisciplinedRun(s, before) && Enabled(Exec(s, before), Submit(req))
    ensures CanFail(Apply(Exec(s, before), Submit(req))) <==> Stop in Exec(s, before).submitted.Values
  {
    InitInv(s);
    DisciplinedRunStopLast(s, before);
    var m := Exec(s, before);
    if Stop !in m.submitted.Values {
      StepInv(m, Submit(req));
      DisciplinedStep(m, Submit(req));
      NoFailure(Apply(m, Submit(req)));
    } else if m.phase.Running? {
      var stop :| stop in m.submitted && m.submitted[stop] == Stop;
      var es := LeftBehind(m, req, stop);
    } else {
      TooLate(m, req);
    }
  }

  lemma TooLate(m: State, req: Request)
    requires Inv(m) && m.phase.Exited? && Enabled(m, Submit(req))
    ensures CanFail(Apply(m, Submit(req)))
  {
    var t := Apply(m, Submit(req));
    assert req.id in t.submitted && req.id !in t.loop.ret;
    assert Legal(t, []) && Unanswered(Exec(t, []));
  }

  lemma NoFailure(s: State)
    requires Inv(s) && StopLast(s)
    ensures !CanFail(s)
  {
    forall es | Legal(s, es) && Calls(es) == []
      ensures !Unanswered(Exec(s, es)) && !Exec(s, es).panicked
    {
      NoCallsDisciplined(s, es);
      DisciplinedRunStopLast(s, es);
      if Exec(s, es).done {
        DoneMeansAnswered(Exec(s, es));
      }
    }
  }

  lemma {:induction false} NoCallsDisciplined(s: State, es: seq<Event>)
    requires Legal(s, es) && Calls(es) == []
    ensures DisciplinedRun(s, es)
    decreases es
  {
    if es != [] {
      NoCallsDisciplined(Apply(s, es[0]), es[1..]);
    }
  }
}
