/**
 The protocol around the run loop (internal/process/process.go): callers, the
 two VRF notification sources and the loop, joined by channels of capacity one
 and a `select` that may take any enabled branch.  Every interleaving is a
 sequence of events, each enabled in the state it happens in.
 */
module VrfProtocol {
  import opened Wrappers
  import opened VrfLoop

  /** A channel of capacity one; `senders` are blocked, longest waiting first. */
  datatype Chan<T> = Chan(buffer: seq<T>, senders: seq<T>) {

    ghost predicate Valid() {
      |buffer| <= 1 && (senders != [] ==> |buffer| == 1)
    }

    /** Everything sent and not yet received, in order. */
    function All(): seq<T> {
      buffer + senders
    }

    function Send(x: T): (c: Chan<T>)
      ensures c.All() == All() + [x]
      ensures Valid() ==> c.Valid()
    {
      if buffer == [] && senders == [] then Chan([x], []) else Chan(buffer, senders + [x])
    }

    /** Receiving lets the sender that waited longest put its value into the buffer. */
    function Receive(): (c: Chan<T>)
      requires buffer != []
      ensures [buffer[0]] + c.All() == All()
      ensures Valid() ==> c.Valid()
    {
      if senders == [] then Chan(buffer[1..], []) else Chan(buffer[1..] + [senders[0]], senders[1..])
    }
  }

  /** A notification carries nothing. */
  datatype Note = Note

  /** How far the constructor and the loop have come. */
  datatype Phase = Created | AddSubscribed | BothSubscribed | Running | Exited

  datatype State = State(
    vrf: string,
    checker: bool,                // a VRF checker was supplied
    vrfs: set<string>,            // the VRFs that exist
    phase: Phase,
    cancelled: bool,              // the subscriptions were cancelled
    vrfAdd: Chan<Note>,
    vrfDel: Chan<Note>,
    action: Chan<Request>,
    done: bool,                   // `done` is closed
    closers: set<nat>,            // the Stop calls that have closed it
    panicked: bool,               // it was closed twice
    initial: bool,                // what the existence check found
    consumed: seq<Message>,       // what the loop has received
    loop: Loop,
    submitted: map<nat, Action>)  // the calls made

  datatype Event =
    | SubscribeAdd | SubscribeDel | Check
    | VrfCreated(name: string) | VrfRemoved(name: string)
    | Cancel | Submit(req: Request) | CloseDone(id: nat)
    | TakeAdd | TakeDel | TakeAction(err: Error) | TakeDone

  ghost predicate Init(s: State) {
    && s.phase == Created && !s.cancelled && !s.done && !s.panicked && s.closers == {}
    && s.vrfAdd == Chan([], []) && s.vrfDel == Chan([], []) && s.action == Chan([], [])
    && s.consumed == [] && !s.initial && s.loop == Loop(false, None, [], map[]) && s.submitted == map[]
  }

  predicate ListensForAdd(s: State) {
    !s.cancelled && !s.phase.Created?
  }

  predicate ListensForDel(s: State) {
    !s.cancelled && !s.phase.Created? && !s.phase.AddSubscribed?
  }

  predicate Enabled(s: State, e: Event) {
    !s.panicked &&
    match e
    case SubscribeAdd => s.phase == Created
    case SubscribeDel => s.phase == AddSubscribed
    case Check => s.phase == BothSubscribed
    case VrfCreated(name) => name !in s.vrfs
    case VrfRemoved(name) => name in s.vrfs
    case Cancel => s.phase.Running? || s.phase.Exited?
    case Submit(req) =>
      && (s.phase.Running? || s.phase.Exited?)
      && req.id !in s.submitted
      && (req.action.Stop? ==> s.cancelled)
    case CloseDone(id) =>
      id in s.submitted && s.submitted[id].Stop? && id in s.loop.ret && id !in s.closers
    case TakeAdd => s.phase.Running? && s.vrfAdd.buffer != []
    case TakeDel => s.phase.Running? && s.vrfDel.buffer != []
    case TakeAction(_) => s.phase.Running? && s.action.buffer != []
    case TakeDone => s.phase.Running? && s.done
  }

  /** The loop receives a message and handles it. */
  function Consume(s: State, m: Message): State {
    s.(loop := Handle(s.loop, |s.consumed|, m), consumed := s.consumed + [m])
  }

  function Apply(s: State, e: Event): State
    requires Enabled(s, e)
  {
    match e
    case SubscribeAdd => s.(phase := AddSubscribed)
    case SubscribeDel => s.(phase := BothSubscribed)
    case Check =>
      var found := s.checker && s.vrf in s.vrfs;
      s.(phase := Running, initial := found, loop := s.loop.(vrfSeen := found))
    case VrfCreated(name) =>
      s.(vrfs := s.vrfs + {name},
         vrfAdd := if ListensForAdd(s) && name == s.vrf then s.vrfAdd.Send(Note) else s.vrfAdd)
    case VrfRemoved(name) =>
      s.(vrfs := s.vrfs - {name},
         vrfDel := if ListensForDel(s) && name == s.vrf then s.vrfDel.Send(Note) else s.vrfDel)
    case Cancel => s.(cancelled := true)
    case Submit(req) => s.(action := s.action.Send(req), submitted := s.submitted[req.id := req.action])
    case CloseDone(id) =>
      if s.done then s.(panicked := true) else s.(done := true, closers := s.closers + {id})
    case TakeAdd => Consume(s.(vrfAdd := s.vrfAdd.Receive()), Added)
    case TakeDel => Consume(s.(vrfDel := s.vrfDel.Receive()), Deleted)
    case TakeAction(err) =>
      Consume(s.(action := s.action.Receive()), Accepted(s.action.buffer[0], err))
    case TakeDone => s.(phase := Exited)
  }

  /** `es` can happen from `s`, one after another. */
  predicate Legal(s: State, es: seq<Event>)
    decreases es
  {
    es == [] || (Enabled(s, es[0]) && Legal(Apply(s, es[0]), es[1..]))
  }

  function Exec(s: State, es: seq<Event>): State
    requires Legal(s, es)
    decreases es
  {
    if es == [] then s else Exec(Apply(s, es[0]), es[1..])
  }

  // ---------------------------------------------------------------- conservation

  ghost predicate Waiting(q: seq<Request>, id: nat) {
    exists i :: 0 <= i < |q| && q[i].id == id
  }

  /**
   `q` are the calls buffered or blocked.  Every submitted call is waiting there or
   answered, never both, and waits once.
   */
  ghost predicate Conserved(q: seq<Request>, submitted: map<nat, Action>, ret: map<nat, seq<Error>>) {
    && (forall id :: id in submitted ==> id in ret || Waiting(q, id))
    && (forall i :: 0 <= i < |q| ==> q[i].id !in ret)
    && (forall i :: 0 <= i < |q| ==> q[i].id in submitted && submitted[q[i].id] == q[i].action)
    && ret.Keys <= submitted.Keys
    && (forall i, j :: 0 <= i < j < |q| ==> q[i].id != q[j].id)
    && |submitted| == |q| + |ret|
  }

  ghost predicate ChannelsValid(s: State) {
    s.vrfAdd.Valid() && s.vrfDel.Valid() && s.action.Valid()
  }

  /** Before the loop starts nothing has been received or submitted. */
  ghost predicate NotStarted(s: State) {
    !s.phase.Running? && !s.phase.Exited? ==>
      s.consumed == [] && s.loop.ret == map[] && s.loop.calls == [] && s.loop.action == None
      && s.submitted == map[] && !s.cancelled && !s.done && !s.initial && !s.loop.vrfSeen
  }

  ghost predicate Inv(s: State) {
    && ChannelsValid(s)
    && NotStarted(s)
    && Follows(s.initial, s.consumed, s.loop)
    && Conserved(s.action.All(), s.submitted, s.loop.ret)
  }

  lemma InitInv(s: State)
    requires Init(s)
    ensures Inv(s)
  {
  }

  lemma SubmitConserves(q: seq<Request>, submitted: map<nat, Action>, ret: map<nat, seq<Error>>, req: Request)
    requires Conserved(q, submitted, ret) && req.id !in submitted
    ensures Conserved(q + [req], submitted[req.id := req.action], ret)
  {
    var q', submitted' := q + [req], submitted[req.id := req.action];
    assert forall i :: 0 <= i < |q'| ==> q'[i] == if i < |q| then q[i] else req;
    assert req.id !in ret;
    forall id | id in submitted' && id !in ret
      ensures Waiting(q', id)
    {
      if id == req.id {
        assert q'[|q|].id == id;
      } else {
        assert Waiting(q, id);
        var i :| 0 <= i < |q| && q[i].id == id;
        assert q'[i].id == id;
      }
    }
    forall i, j | 0 <= i < j < |q'|
      ensures q'[i].id != q'[j].id
    {
      assert q[i].id in submitted;
    }
  }

  lemma TakeConserves(q: seq<Request>, submitted: map<nat, Action>, ret: map<nat, seq<Error>>, sent: seq<Error>)
    requires Conserved(q, submitted, ret) && q != []
    ensures Conserved(q[1..], submitted, ret[q[0].id := sent])
  {
  }

  lemma ConsumeInv(s: State, m: Message)
    requires Inv(s) && s.phase.Running?
    requires m.Accepted? ==> m.req.id !in s.loop.ret
    ensures Follows(s.initial, s.consumed + [m], Handle(s.loop, |s.consumed|, m))
  {
    HandleFollows(s.initial, s.consumed, s.loop, m);
  }

  lemma TakeActionInv(s: State, err: Error)
    requires Inv(s) && Enabled(s, TakeAction(err))
    ensures Inv(Apply(s, TakeAction(err)))
  {
    var req := s.action.buffer[0];
    var q := s.action.All();
    assert q[0] == req && q[1..] == s.action.Receive().All();
    TakeConserves(q, s.submitted, s.loop.ret, Handle(s.loop, |s.consumed|, Accepted(req, err)).ret[req.id]);
    ConsumeInv(s, Accepted(req, err));
  }

  lemma SubmitInv(s: State, req: Request)
    requires Inv(s) && Enabled(s, Submit(req))
    ensures Inv(Apply(s, Submit(req)))
  {
    SubmitConserves(s.action.All(), s.submitted, s.loop.ret, req);
  }

  lemma TakeVrfInv(s: State, e: Event)
    requires Inv(s) && Enabled(s, e) && (e.TakeAdd? || e.TakeDel?)
    ensures Inv(Apply(s, e))
  {
    var m := if e.TakeAdd? then Added else Deleted;
    ConsumeInv(s, m);
  }

  lemma StartInv(s: State, e: Event)
    requires Inv(s) && Enabled(s, e)
    requires e.SubscribeAdd? || e.SubscribeDel? || e.Check?
    ensures Inv(Apply(s, e))
  {
  }

  lemma OutsideInv(s: State, e: Event)
    requires Inv(s) && Enabled(s, e)
    requires e.VrfCreated? || e.VrfRemoved? || e.Cancel? || e.CloseDone? || e.TakeDone?
    ensures Inv(Apply(s, e))
  {
  }

  lemma StepInv(s: State, e: Event)
    requires Inv(s) && Enabled(s, e)
    ensures Inv(Apply(s, e))
  {
    match e
    case TakeAdd => TakeVrfInv(s, e);
    case TakeDel => TakeVrfInv(s, e);
    case TakeAction(err) => TakeActionInv(s, err);
    case Submit(req) => SubmitInv(s, req);
    case SubscribeAdd => StartInv(s, e);
    case SubscribeDel => StartInv(s, e);
    case Check => StartInv(s, e);
    case _ => OutsideInv(s, e);
  }

  lemma {:induction false} RunInv(s: State, es: seq<Event>)
    requires Inv(s) && Legal(s, es)
    ensures Inv(Exec(s, es))
    decreases es
  {
    if es != [] {
      StepInv(s, es[0]);
      RunInv(Apply(s, es[0]), es[1..]);
    }
  }
}
