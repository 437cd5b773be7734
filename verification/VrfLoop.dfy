/**
 The run loop of a process that may only run while its VRF exists
 (internal/process/process.go).  The loop sees one message at a time; which one
 is the choice of `select`.  This module gives the meaning of a sequence of
 consumed messages and proves the loop against it.
 */
module VrfLoop {
  import opened Wrappers

  datatype Action = Start | Stop | Reload | Restart | Signal(sig: int)

  /** A nil error is None. */
  type Error = Option<string>

  /** A call's message; `id` names the caller's own reply channel. */
  datatype Request = Request(id: nat, action: Action)

  /** What the loop takes from a channel; `err` is what the process answers if it is called. */
  datatype Message = Added | Deleted | Accepted(req: Request, err: Error)

  /** A call of the underlying process, made while handling message number `at`. */
  datatype Call = Call(at: nat, action: Action)

  /** What the VRF messages consumed so far say about the VRF's existence. */
  function Fact(initial: bool, ms: seq<Message>): bool {
    if ms == [] then initial
    else match ms[|ms| - 1]
      case Added => true
      case Deleted => false
      case Accepted(_, _) => Fact(initial, ms[..|ms| - 1])
  }

  /** The last action accepted, whatever it was. */
  function LastAction(ms: seq<Message>): Option<Action> {
    if ms == [] then None
    else if ms[|ms| - 1].Accepted? then Some(ms[|ms| - 1].req.action)
    else LastAction(ms[..|ms| - 1])
  }

  /** The call of the process that message `i` should cause, if any. */
  function CallAt(initial: bool, ms: seq<Message>, i: nat): Option<Action>
    requires i < |ms|
  {
    match ms[i]
    case Added => LastAction(ms[..i])
    case Deleted => None
    case Accepted(req, _) => if Fact(initial, ms[..i]) then Some(req.action) else None
  }

  /** The reply to the call accepted as message `i`: nil when it was only remembered. */
  function ReplyAt(initial: bool, ms: seq<Message>, i: nat): Error
    requires i < |ms| && ms[i].Accepted?
  {
    if Fact(initial, ms[..i]) then ms[i].err else None
  }

  /** `calls` holds exactly the calls the messages should cause, in order. */
  ghost predicate CallsMatch(initial: bool, ms: seq<Message>, calls: seq<Call>) {
    && (forall k :: 0 <= k < |calls| ==> calls[k].at < |ms|)
    && (forall k :: 0 <= k < |calls| ==> CallAt(initial, ms, calls[k].at) == Some(calls[k].action))
    && (forall i :: 0 <= i < |ms| && CallAt(initial, ms, i).Some?
                    ==> Call(i, CallAt(initial, ms, i).value) in calls)
    && (forall j, k :: 0 <= j < k < |calls| ==> calls[j].at < calls[k].at)
  }

  /** Each accepted call was sent its one reply, and nobody else was sent any. */
  ghost predicate RepliesMatch(initial: bool, ms: seq<Message>, ret: map<nat, seq<Error>>) {
    && (forall i :: 0 <= i < |ms| && ms[i].Accepted?
                    ==> ms[i].req.id in ret && ret[ms[i].req.id] == [ReplyAt(initial, ms, i)])
    && (forall id :: id in ret ==> exists i :: 0 <= i < |ms| && ms[i].Accepted? && ms[i].req.id == id)
  }

  /** Every accepted call has an id, and so a reply channel, of its own. */
  ghost predicate DistinctIds(ms: seq<Message>) {
    forall i, j :: 0 <= i < j < |ms| && ms[i].Accepted? && ms[j].Accepted? ==> ms[i].req.id != ms[j].req.id
  }

  /** The loop's variables, with everything it has sent. */
  datatype Loop = Loop(vrfSeen: bool, action: Option<Action>, calls: seq<Call>, ret: map<nat, seq<Error>>)

  /** One iteration of the loop, handling message number `at`. */
  function Handle(l: Loop, at: nat, m: Message): Loop {
    match m
    case Added =>
      l.(vrfSeen := true,
         calls := if l.action.Some? then l.calls + [Call(at, l.action.value)] else l.calls)
    case Deleted =>
      l.(vrfSeen := false)
    case Accepted(req, err) =>
      var l1 := l.(action := Some(req.action));
      var l2 := if l.vrfSeen then l1.(calls := l.calls + [Call(at, req.action)]) else l1;
      var reply := if l.vrfSeen then err else None;
      l2.(ret := l.ret[req.id := (if req.id in l.ret then l.ret[req.id] else []) + [reply]])
  }

  /** The loop has done what the messages say. */
  ghost predicate Follows(initial: bool, ms: seq<Message>, l: Loop) {
    && l.vrfSeen == Fact(initial, ms)
    && l.action == LastAction(ms)
    && CallsMatch(initial, ms, l.calls)
    && RepliesMatch(initial, ms, l.ret)
  }

  lemma {:induction false} PrefixSame(initial: bool, ms: seq<Message>, m: Message)
    ensures (ms + [m])[..|ms|] == ms
    ensures forall i :: 0 <= i < |ms| ==> CallAt(initial, ms + [m], i) == CallAt(initial, ms, i)
    ensures forall i :: 0 <= i < |ms| && ms[i].Accepted? ==> ReplyAt(initial, ms + [m], i) == ReplyAt(initial, ms, i)
  {
    forall i | 0 <= i <= |ms|
      ensures (ms + [m])[..i] == ms[..i]
    {
    }
  }

  lemma CallsExtend(initial: bool, ms: seq<Message>, l: Loop, m: Message)
    requires Follows(initial, ms, l)
    ensures CallsMatch(initial, ms + [m], Handle(l, |ms|, m).calls)
  {
    PrefixSame(initial, ms, m);
    var ms', calls' := ms + [m], Handle(l, |ms|, m).calls;
    assert CallAt(initial, ms', |ms|).Some? <==> |calls'| == |l.calls| + 1;
    forall i | 0 <= i < |ms'| && CallAt(initial, ms', i).Some?
      ensures Call(i, CallAt(initial, ms', i).value) in calls'
    {
      if i < |ms| {
        assert CallAt(initial, ms', i) == CallAt(initial, ms, i);
        assert Call(i, CallAt(initial, ms, i).value) in l.calls;
      } else {
        assert calls'[|l.calls|] == Call(i, CallAt(initial, ms', i).value);
      }
    }
  }

  lemma RepliesExtend(initial: bool, ms: seq<Message>, l: Loop, m: Message)
    requires Follows(initial, ms, l)
    requires m.Accepted? ==> m.req.id !in l.ret
    ensures RepliesMatch(initial, ms + [m], Handle(l, |ms|, m).ret)
  {
    PrefixSame(initial, ms, m);
    var ms', ret' := ms + [m], Handle(l, |ms|, m).ret;
    forall i | 0 <= i < |ms'| && ms'[i].Accepted?
      ensures ms'[i].req.id in ret' && ret'[ms'[i].req.id] == [ReplyAt(initial, ms', i)]
    {
      if i < |ms| {
        assert ms'[i] == ms[i];
        assert ReplyAt(initial, ms', i) == ReplyAt(initial, ms, i);
      }
    }
    forall id | id in ret'
      ensures exists i :: 0 <= i < |ms'| && ms'[i].Accepted? && ms'[i].req.id == id
    {
      if id in l.ret {
        var i :| 0 <= i < |ms| && ms[i].Accepted? && ms[i].req.id == id;
        assert ms'[i] == ms[i];
      } else {
        assert ms'[|ms|].Accepted?;
      }
    }
  }

  /** Handling one more message keeps the loop in step with the meaning of the messages. */
  lemma HandleFollows(initial: bool, ms: seq<Message>, l: Loop, m: Message)
    requires Follows(initial, ms, l)
    requires m.Accepted? ==> m.req.id !in l.ret
    ensures Follows(initial, ms + [m], Handle(l, |ms|, m))
  {
    PrefixSame(initial, ms, m);
    CallsExtend(initial, ms, l, m);
    RepliesExtend(initial, ms, l, m);
  }

  /** What `Fact` means: an add that no delete follows, or no VRF message and the VRF was there at first. */
  lemma {:induction false} FactMeaning(initial: bool, ms: seq<Message>)
    ensures Fact(initial, ms) <==>
            || (exists i :: 0 <= i < |ms| && ms[i].Added? && forall j :: i < j < |ms| ==> !ms[j].Deleted?)
            || (initial && forall j :: 0 <= j < |ms| ==> !ms[j].Deleted?)
  {
    if ms != [] {
      var n := |ms| - 1;
      var pre := ms[..n];
      FactMeaning(initial, pre);
      if ms[n].Accepted? {
        assert forall i :: 0 <= i < n ==> pre[i] == ms[i];
        if i :| 0 <= i < |ms| && ms[i].Added? && forall j :: i < j < |ms| ==> !ms[j].Deleted? {
          assert pre[i].Added? && forall j :: i < j < n ==> !pre[j].Deleted?;
        }
        if i :| 0 <= i < n && pre[i].Added? && forall j :: i < j < n ==> !pre[j].Deleted? {
          assert ms[i].Added? && forall j :: i < j < |ms| ==> !ms[j].Deleted?;
        }
      }
    }
  }

  /** No call of the process is made while the last VRF fact consumed is "absent". */
  lemma NoCallWhileAbsent(initial: bool, ms: seq<Message>, calls: seq<Call>, k: nat)
    requires CallsMatch(initial, ms, calls) && k < |calls|
    ensures calls[k].at < |ms| && Fact(initial, ms[..calls[k].at + 1])
  {
    var i := calls[k].at;
    assert CallAt(initial, ms, i) == Some(calls[k].action);
    assert ms[..i + 1][..i] == ms[..i];
  }

  /** Where the last accepted action was accepted. */
  lemma {:induction false} LastActionAt(ms: seq<Message>) returns (i: nat)
    requires LastAction(ms).Some?
    ensures i < |ms| && ms[i].Accepted? && LastAction(ms) == Some(ms[i].req.action)
    ensures forall j :: i < j < |ms| ==> !ms[j].Accepted?
  {
    if ms[|ms| - 1].Accepted? {
      i := |ms| - 1;
    } else {
      i := LastActionAt(ms[..|ms| - 1]);
      assert ms[..|ms| - 1][i] == ms[i];
      forall j | i < j < |ms|
        ensures !ms[j].Accepted?
      {
        if j < |ms| - 1 {
          assert ms[..|ms| - 1][j] == ms[j];
        }
      }
    }
  }

  lemma {:induction false} LastActionStays(ms: seq<Message>, i: nat, j: nat)
    requires i < j <= |ms| && ms[i].Accepted?
    requires forall k :: i < k < j ==> !ms[k].Accepted?
    ensures LastAction(ms[..j]) == Some(ms[i].req.action)
    decreases j
  {
    assert ms[..j][..j - 1] == ms[..j - 1];
    if j > i + 1 {
      LastActionStays(ms, i, j - 1);
    }
  }

  /** The action remembered was carried out after it was accepted, or no call could be made since. */
  ghost predicate CarriedOut(ms: seq<Message>, calls: seq<Call>) {
    LastAction(ms).Some? ==>
      exists i :: 0 <= i < |ms| && ms[i].Accepted? && LastAction(ms) == Some(ms[i].req.action)
                  && (forall j :: i < j < |ms| ==> !ms[j].Accepted?)
                  && exists k :: 0 <= k < |calls| && calls[k].at >= i && calls[k].action == ms[i].req.action
  }

  /** While the VRF is known to exist, the last accepted action has been executed since its acceptance. */
  lemma {:induction false} SeenMeansCarriedOut(initial: bool, ms: seq<Message>, calls: seq<Call>)
    requires CallsMatch(initial, ms, calls)
    requires Fact(initial, ms)
    ensures CarriedOut(ms, calls)
  {
    if LastAction(ms).Some? {
      var i := LastActionAt(ms);
      var at := WhenCarriedOut(initial, ms, i);
      var c := Call(at, CallAt(initial, ms, at).value);
      assert c in calls;
      var k :| 0 <= k < |calls| && calls[k] == c;
    }
  }

  /** The message that carries out the action accepted at `i`: itself, or an add after it. */
  lemma WhenCarriedOut(initial: bool, ms: seq<Message>, i: nat) returns (at: nat)
    requires i < |ms| && ms[i].Accepted? && Fact(initial, ms)
    requires forall j :: i < j < |ms| ==> !ms[j].Accepted?
    ensures i <= at < |ms| && CallAt(initial, ms, at) == Some(ms[i].req.action)
  {
    if Fact(initial, ms[..i]) {
      at := i;
    } else {
      FactMeaning(initial, ms);
      FactMeaning(initial, ms[..i]);
      assert forall j :: 0 <= j < i ==> ms[..i][j] == ms[j];
      assert !(initial && forall j :: 0 <= j < |ms| ==> !ms[j].Deleted?);
      at :| 0 <= at < |ms| && ms[at].Added? && forall j :: at < j < |ms| ==> !ms[j].Deleted?;
      LastActionStays(ms, i, at);
    }
  }

  /** Stop is final: once it is the last accepted action, every further call is Stop. */
  lemma StopIsFinal(initial: bool, ms: seq<Message>, calls: seq<Call>, i: nat, k: nat)
    requires CallsMatch(initial, ms, calls)
    requires i < |ms| && ms[i].Accepted? && ms[i].req.action.Stop?
    requires forall j :: i < j < |ms| ==> !ms[j].Accepted?
    requires k < |calls| && calls[k].at >= i
    ensures calls[k].action == Stop
  {
    var at := calls[k].at;
    assert CallAt(initial, ms, at) == Some(calls[k].action);
    if at > i {
      LastActionStays(ms, i, at);
    }
  }

  // ------------------------------------------------------------ every call and every reply

  /** Message `i` is the last call accepted before message `n`. */
  predicate LastAcceptedBefore(ms: seq<Message>, i: nat, n: nat) {
    i < n <= |ms| && ms[i].Accepted? && forall j :: i < j < n ==> !ms[j].Accepted?
  }

  /** The messages before `n` say that the VRF exists. */
  predicate PresentBefore(initial: bool, ms: seq<Message>, n: nat)
    requires n <= |ms|
  {
    || (exists i :: 0 <= i < n && ms[i].Added? && forall j :: i < j < n ==> !ms[j].Deleted?)
    || (initial && forall j :: 0 <= j < n ==> !ms[j].Deleted?)
  }

  lemma PresentIsFact(initial: bool, ms: seq<Message>, n: nat)
    requires n <= |ms|
    ensures PresentBefore(initial, ms, n) <==> Fact(initial, ms[..n])
  {
    FactMeaning(initial, ms[..n]);
    if i :| 0 <= i < n && ms[i].Added? && forall j :: i < j < n ==> !ms[j].Deleted? {
      assert ms[..n][i].Added?;
    }
    if i :| 0 <= i < n && ms[..n][i].Added? && forall j :: i < j < n ==> !ms[..n][j].Deleted? {
      assert forall j :: i < j < n ==> !ms[j].Deleted? by {
        assert forall j :: i < j < n ==> ms[..n][j] == ms[j];
      }
    }
  }

  lemma {:induction false} NoneAccepted(ms: seq<Message>, n: nat)
    requires n <= |ms| && LastAction(ms[..n]).None?
    ensures forall i :: 0 <= i < n ==> !ms[i].Accepted?
  {
    if n > 0 {
      assert ms[..n][..n - 1] == ms[..n - 1];
      NoneAccepted(ms, n - 1);
    }
  }

  /** What is called while handling message `at`: the action accepted last on an add, and one just accepted while present. */
  predicate CallDue(initial: bool, ms: seq<Message>, at: nat, a: Action)
    requires at < |ms|
  {
    || (ms[at].Added? && exists i :: 0 <= i < at && LastAcceptedBefore(ms, i, at) && ms[i].req.action == a)
    || (ms[at].Accepted? && ms[at].req.action == a && PresentBefore(initial, ms, at))
  }

  lemma DueIsCallAt(initial: bool, ms: seq<Message>, at: nat, a: Action)
    requires at < |ms|
    ensures CallDue(initial, ms, at, a) <==> CallAt(initial, ms, at) == Some(a)
  {
    PresentIsFact(initial, ms, at);
    if ms[at].Added? {
      if LastAction(ms[..at]).Some? {
        var k := LastActionAt(ms[..at]);
        assert forall j :: k < j < at ==> !ms[..at][j].Accepted? && ms[..at][j] == ms[j];
        assert LastAcceptedBefore(ms, k, at);
      } else {
        NoneAccepted(ms, at);
      }
      if i :| 0 <= i < at && LastAcceptedBefore(ms, i, at) && ms[i].req.action == a {
        LastActionStays(ms, i, at);
      }
    }
  }

  /**
   A call is logged exactly where one is due: on every add the action accepted last, if any,
   even while the VRF is known to exist, and an accepted action while it is.
   */
  lemma CallsExactly(initial: bool, ms: seq<Message>, calls: seq<Call>, at: nat, a: Action)
    requires CallsMatch(initial, ms, calls)
    ensures Call(at, a) in calls <==> at < |ms| && CallDue(initial, ms, at, a)
  {
    if at < |ms| {
      DueIsCallAt(initial, ms, at, a);
    }
  }

  /** The reply to a call is what the process answered if the VRF was known to exist, and nil if not. */
  lemma RepliesExactly(initial: bool, ms: seq<Message>, ret: map<nat, seq<Error>>, i: nat)
    requires RepliesMatch(initial, ms, ret) && i < |ms| && ms[i].Accepted?
    ensures ms[i].req.id in ret
    ensures ret[ms[i].req.id] == if PresentBefore(initial, ms, i) then [ms[i].err] else [None]
  {
    PresentIsFact(initial, ms, i);
  }

  /** The goroutine's variables. */
  class RunLoop {
    var vrfSeen: bool
    var action: Option<Action>

    constructor (vrfExists: bool)
      ensures vrfSeen == vrfExists && action == None
    {
      vrfSeen, action := vrfExists, None;
    }

    /** The messages `select` hands to the loop, until it returns. */
    method Run(selected: seq<Message>) returns (calls: seq<Call>, ret: map<nat, seq<Error>>)
      requires DistinctIds(selected)
      requires action == None
      modifies this
      ensures vrfSeen == Fact(old(vrfSeen), selected)
      ensures action == LastAction(selected)
      ensures CallsMatch(old(vrfSeen), selected, calls)
      ensures RepliesMatch(old(vrfSeen), selected, ret)
    {
      calls, ret := [], map[];
      var n := 0;
      ghost var initial := vrfSeen;
      while n < |selected|
        invariant 0 <= n <= |selected|
        invariant Follows(initial, selected[..n], Loop(vrfSeen, action, calls, ret))
        decreases |selected| - n
      {
        var m := selected[n];
        ghost var before := Loop(vrfSeen, action, calls, ret);
        match m {
          case Added =>
            vrfSeen := true;
            if action.Some? {
              calls := calls + [Call(n, action.value)];
            }
          case Deleted =>
            vrfSeen := false;
          case Accepted(req, err) =>
            var reply := None;
            action := Some(req.action);
            if vrfSeen {
              calls := calls + [Call(n, req.action)];
              reply := err;
            }
            // every call made its own channel, so nothing was sent on it before
            assert [reply] == [] + [reply];
            ret := ret[req.id := [reply]];
        }
        assert m.Accepted? ==> m.req.id !in before.ret;
        assert Loop(vrfSeen, action, calls, ret) == Handle(before, n, m);
        HandleFollows(initial, selected[..n], before, m);
        assert selected[..n + 1] == selected[..n] + [m];
        n := n + 1;
      }
      assert selected[..n] == selected;
    }
  }
}
