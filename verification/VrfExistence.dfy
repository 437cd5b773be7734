/**
 What the loop believes about its VRF against the VRF's real existence.  Adds and
 deletes travel on separate channels, so their order is not kept: one theorem says
 exactly when a creation can be lost, and others name the environments in which belief
 and existence agree.
 */
module VrfExistence {
  import opened Wrappers
  import opened VrfLoop
  import opened VrfProtocol
  import opened VrfGuarantees
  import opened VrfClients

  predicate Started(s: State) {
    s.phase.Running? || s.phase.Exited?
  }

  /** The VRF exists, no delete is unconsumed, and the loop knows or is about to be told. */
  ghost predicate Announced(s: State) {
    && s.checker
    && s.vrf in s.vrfs
    && s.vrfDel.All() == []
    && (Started(s) ==> s.loop.vrfSeen || s.vrfAdd.All() != [])
  }

  /**
   Creating the VRF is never missed: before the subscription the existence check sees it,
   after it a notification is sent.
   */
  lemma CreationAnnounced(s: State)
    requires Inv(s) && s.checker && !s.cancelled && s.vrfDel.All() == []
    requires Enabled(s, VrfCreated(s.vrf))
    ensures Announced(Apply(s, VrfCreated(s.vrf)))
  {
  }

  lemma AnnouncedStep(s: State, e: Event)
    requires ChannelsValid(s) && Announced(s) && Enabled(s, e) && e != VrfRemoved(s.vrf)
    ensures Announced(Apply(s, e)) && Apply(s, e).vrf == s.vrf
  {
    match e {
      case VrfCreated(_) =>
      case VrfRemoved(name) => assert name != s.vrf;
      case TakeAdd => assert Apply(s, e).loop.vrfSeen;
      case _ =>
    }
  }

  lemma {:induction false} AnnouncedRun(s: State, es: seq<Event>)
    requires Inv(s) && Announced(s) && Legal(s, es)
    requires VrfRemoved(s.vrf) !in es
    ensures Announced(Exec(s, es)) && Inv(Exec(s, es))
    decreases es
  {
    if es != [] {
      assert es[0] in es;
      AnnouncedStep(s, es[0]);
      StepInv(s, es[0]);
      AnnouncedRun(Apply(s, es[0]), es[1..]);
    }
  }

  lemma {:induction false} VrfFixed(s: State, es: seq<Event>)
    requires Legal(s, es)
    ensures Exec(s, es).vrf == s.vrf && Exec(s, es).checker == s.checker
    decreases es
  {
    if es != [] {
      VrfFixed(Apply(s, es[0]), es[1..]);
    }
  }

  /** With everything drained an announced VRF is seen, and the last accepted action has been executed. */
  lemma AnnouncedAtRest(t: State)
    requires Inv(t) && Announced(t) && t.phase.Running? && Pending(t) == 0
    ensures t.loop.vrfSeen && CarriedOut(t.consumed, t.loop.calls)
  {
    SeenMeansCarriedOut(t.initial, t.consumed, t.loop.calls);
  }

  /**
   No VRF creation is lost: in every interleaving in which the VRF comes to exist while no
   delete is unconsumed and is not removed afterwards, once everything is drained before
   shutdown the VRF is seen and the last accepted action has been executed since it was accepted.
   */
  lemma NoLostCreation(s: State, before: seq<Event>, after: seq<Event>)
    requires Init(s) && s.checker && Legal(s, before)
    requires var m := Exec(s, before);
             && !m.cancelled && m.vrfDel.All() == [] && Enabled(m, VrfCreated(m.vrf))
             && Legal(Apply(m, VrfCreated(m.vrf)), after) && VrfRemoved(m.vrf) !in after
    ensures var t := Exec(Apply(Exec(s, before), VrfCreated(Exec(s, before).vrf)), after);
            t.phase.Running? && Pending(t) == 0 ==> t.loop.vrfSeen && CarriedOut(t.consumed, t.loop.calls)
  {
    InitInv(s);
    RunInv(s, before);
    VrfFixed(s, before);
    var m := Exec(s, before);
    CreationAnnounced(m);
    StepInv(m, VrfCreated(m.vrf));
    AnnouncedRun(Apply(m, VrfCreated(m.vrf)), after);
    var t := Exec(Apply(m, VrfCreated(m.vrf)), after);
    if t.phase.Running? && Pending(t) == 0 {
      AnnouncedAtRest(t);
    }
  }

  /** The same for a VRF that was there from the start. */
  lemma NoMissedVrf(s: State, es: seq<Event>)
    requires Init(s) && s.checker && s.vrf in s.vrfs && Legal(s, es) && VrfRemoved(s.vrf) !in es
    ensures var t := Exec(s, es);
            t.phase.Running? && Pending(t) == 0 ==> t.loop.vrfSeen && CarriedOut(t.consumed, t.loop.calls)
  {
    InitInv(s);
    AnnouncedRun(s, es);
    if Exec(s, es).phase.Running? && Pending(Exec(s, es)) == 0 {
      AnnouncedAtRest(Exec(s, es));
    }
  }

  /** The VRF changes only while no notification of an earlier change is unconsumed. */
  predicate Patient(s: State, e: Event) {
    (e == VrfCreated(s.vrf) || e == VrfRemoved(s.vrf)) ==> s.vrfAdd.All() == [] && s.vrfDel.All() == []
  }

  predicate PatientRun(s: State, es: seq<Event>)
    requires Legal(s, es)
    decreases es
  {
    es == [] || (Patient(s, es[0]) && PatientRun(Apply(s, es[0]), es[1..]))
  }

  /** At most one notification is on its way, and it tells the truth. */
  ghost predicate Truthful(s: State) {
    && s.checker && !s.cancelled
    && |s.vrfAdd.All()| + |s.vrfDel.All()| <= 1
    && (s.vrfAdd.All() != [] ==> s.vrf in s.vrfs)
    && (s.vrfDel.All() != [] ==> s.vrf !in s.vrfs)
    && (Started(s) && s.vrfAdd.All() == [] && s.vrfDel.All() == [] ==> (s.loop.vrfSeen <==> s.vrf in s.vrfs))
  }

  lemma TruthfulTake(s: State, e: Event)
    requires ChannelsValid(s) && Truthful(s) && Enabled(s, e) && (e.TakeAdd? || e.TakeDel?)
    ensures Truthful(Apply(s, e))
  {
  }

  lemma TruthfulChange(s: State, e: Event)
    requires ChannelsValid(s) && NotStarted(s) && Truthful(s) && Enabled(s, e) && Patient(s, e)
    requires e.VrfCreated? || e.VrfRemoved?
    ensures Truthful(Apply(s, e))
  {
  }

  lemma TruthfulStep(s: State, e: Event)
    requires ChannelsValid(s) && NotStarted(s) && Truthful(s) && Enabled(s, e) && Patient(s, e) && !e.Cancel?
    ensures Truthful(Apply(s, e))
  {
    match e
    case TakeAdd => TruthfulTake(s, e);
    case TakeDel => TruthfulTake(s, e);
    case VrfCreated(_) => TruthfulChange(s, e);
    case VrfRemoved(_) => TruthfulChange(s, e);
    case _ =>
  }

  /**
   When every notification is consumed before the next change, the loop's belief agrees with
   the VRF's real existence, both ways, whenever no notification is on its way.
   */
  lemma {:induction false} BeliefIsTrueAtRest(s: State, es: seq<Event>)
    requires Inv(s) && Truthful(s) && Legal(s, es) && PatientRun(s, es) && Cancel !in es
    ensures var t := Exec(s, es);
            && Truthful(t)
            && (Started(t) && t.vrfAdd.All() == [] && t.vrfDel.All() == [] ==>
                  (t.loop.vrfSeen <==> t.vrf in t.vrfs))
    decreases es
  {
    if es != [] {
      assert es[0] in es;
      TruthfulStep(s, es[0]);
      StepInv(s, es[0]);
      BeliefIsTrueAtRest(Apply(s, es[0]), es[1..]);
    }
  }

  /** A new process with a checker starts truthful, whether or not its VRF exists. */
  lemma InitTruthful(s: State)
    requires Init(s) && s.checker
    ensures Inv(s) && Truthful(s)
  {
  }

  // ------------------------------------------------------------ when a creation is lost

  /**
   With everything drained, before shutdown and without the VRF being removed, the loop can
   still believe that it does not exist.
   */
  ghost predicate CanBeLost(s: State) {
    exists es :: Legal(s, es) && VrfRemoved(s.vrf) !in es
                 && Exec(s, es).phase.Running? && Pending(Exec(s, es)) == 0 && !Exec(s, es).loop.vrfSeen
  }

  /** Nothing is notified before it is subscribed to. */
  ghost predicate SilentUntilSubscribed(s: State) {
    (s.phase.Created? ==> s.vrfAdd.All() == []) && (s.phase.Created? || s.phase.AddSubscribed? ==> s.vrfDel.All() == [])
  }

  lemma {:induction false} RunSilent(s: State, es: seq<Event>)
    requires SilentUntilSubscribed(s) && Legal(s, es)
    ensures SilentUntilSubscribed(Exec(s, es))
    decreases es
  {
    if es != [] {
      RunSilent(Apply(s, es[0]), es[1..]);
    }
  }

  /** The loop may leave the deletes for last. */
  lemma TakeOther(s: State) returns (e: Event)
    requires ChannelsValid(s) && s.phase.Running? && !s.panicked && (s.vrfAdd.All() != [] || s.action.All() != [])
    ensures Enabled(s, e) && (e.TakeAdd? || e.TakeAction?)
    ensures var t := Apply(s, e);
            && t.phase.Running? && !t.panicked && t.vrfDel == s.vrfDel && t.vrf == s.vrf
            && ChannelsValid(t) && Pending(t) == Pending(s) - 1
  {
    e := if s.vrfAdd.buffer != [] then TakeAdd else TakeAction(None);
    IterationRemovesOne(s, e);
  }

  lemma {:induction false} TakeOthers(s: State) returns (es: seq<Event>, t: State)
    requires ChannelsValid(s) && s.phase.Running? && !s.panicked
    ensures Legal(s, es) && t == Exec(s, es) && forall e :: e in es ==> LoopEvent(e)
    ensures t.phase.Running? && !t.panicked && t.vrfDel == s.vrfDel && t.vrf == s.vrf && ChannelsValid(t)
    ensures t.vrfAdd.All() == [] && t.action.All() == []
    decreases Pending(s)
  {
    if s.vrfAdd.All() == [] && s.action.All() == [] {
      es, t := [], s;
    } else {
      var e := TakeOther(s);
      var rest;
      rest, t := TakeOthers(Apply(s, e));
      RunOn(s, e, rest);
      es := [e] + rest;
    }
  }

  lemma TakeOneDel(s: State)
    requires ChannelsValid(s) && s.phase.Running? && !s.panicked && s.vrfDel.All() != []
    ensures Enabled(s, TakeDel)
    ensures var t := Apply(s, TakeDel);
            && ChannelsValid(t) && t.phase.Running? && !t.panicked && !t.loop.vrfSeen
            && t.vrfAdd == s.vrfAdd && t.action == s.action && t.vrfDel.All() == s.vrfDel.All()[1..]
  {
  }

  lemma {:induction false} TakeDels(s: State) returns (es: seq<Event>)
    requires ChannelsValid(s) && s.phase.Running? && !s.panicked && s.vrfAdd.All() == [] && s.action.All() == []
    requires s.vrfDel.All() != [] || !s.loop.vrfSeen
    ensures Legal(s, es) && forall e :: e in es ==> LoopEvent(e)
    ensures var t := Exec(s, es); t.phase.Running? && Pending(t) == 0 && !t.loop.vrfSeen
    decreases |s.vrfDel.All()|
  {
    if s.vrfDel.All() == [] {
      es := [];
    } else {
      TakeOneDel(s);
      var rest := TakeDels(Apply(s, TakeDel));
      RunOn(s, TakeDel, rest);
      es := [TakeDel] + rest;
    }
  }

  /** With a delete unconsumed, whatever else is buffered or blocked, the belief can end wrong. */
  lemma DeleteTakenLast(s: State)
    requires ChannelsValid(s) && s.phase.Running? && !s.panicked && s.vrfDel.All() != []
    ensures CanBeLost(s)
  {
    var others, m := TakeOthers(s);
    var dels := TakeDels(m);
    RunsTogether(s, others, dels);
    assert !LoopEvent(VrfRemoved(s.vrf));
  }

  lemma DeleteTakenAfterCheck(s: State)
    requires ChannelsValid(s) && s.phase.BothSubscribed? && !s.panicked && s.vrfDel.All() != []
    ensures CanBeLost(s)
  {
    var s1 := Apply(s, Check);
    DeleteTakenLast(s1);
    var es :| Legal(s1, es) && VrfRemoved(s1.vrf) !in es
              && Exec(s1, es).phase.Running? && Pending(Exec(s1, es)) == 0 && !Exec(s1, es).loop.vrfSeen;
    RunOn(s, Check, es);
    assert VrfRemoved(s.vrf) !in [Check] + es;
  }

  /**
   Over every run from the start: when the VRF comes to exist before shutdown, its creation
   can be lost exactly when a notification of an earlier removal is still unconsumed.
   */
  lemma CreationLostExactly(s: State, before: seq<Event>)
    requires Init(s) && s.checker && Legal(s, before)
    requires var m := Exec(s, before); !m.cancelled && !m.phase.Exited? && Enabled(m, VrfCreated(m.vrf))
    ensures var m := Exec(s, before); CanBeLost(Apply(m, VrfCreated(m.vrf))) <==> m.vrfDel.All() != []
  {
    InitInv(s);
    RunInv(s, before);
    RunSilent(s, before);
    VrfFixed(s, before);
    var m := Exec(s, before);
    var n := Apply(m, VrfCreated(m.vrf));
    StepInv(m, VrfCreated(m.vrf));
    if m.vrfDel.All() != [] {
      if n.phase.Running? {
        DeleteTakenLast(n);
      } else {
        DeleteTakenAfterCheck(n);
      }
    } else if CanBeLost(n) {
      var es :| Legal(n, es) && VrfRemoved(n.vrf) !in es
                && Exec(n, es).phase.Running? && Pending(Exec(n, es)) == 0 && !Exec(n, es).loop.vrfSeen;
      NoLostCreation(s, before, es);
      assert false;
    }
  }

  /** And that happens: a run from the start that ends where a creation can be lost. */
  lemma CreationLostBehindDelete(s: State) returns (before: seq<Event>)
    requires Init(s) && s.checker
    ensures Legal(s, before)
    ensures var m := Exec(s, before);
            && m.phase.Running? && !m.cancelled && Enabled(m, VrfCreated(m.vrf))
            && CanBeLost(Apply(m, VrfCreated(m.vrf)))
  {
    var s1 := Apply(s, SubscribeAdd);
    var s2 := Apply(s1, SubscribeDel);
    var s3 := Apply(s2, Check);
    TwoEvents(s, SubscribeAdd, SubscribeDel);
    OneEvent(s2, Check);
    RunsTogether(s, [SubscribeAdd, SubscribeDel], [Check]);
    var start := [SubscribeAdd, SubscribeDel] + [Check];
    var gone := [VrfRemoved(s.vrf)];
    if s.vrf in s3.vrfs {
      OneEvent(s3, VrfRemoved(s.vrf));
    } else {
      TwoEvents(s3, VrfCreated(s.vrf), VrfRemoved(s.vrf));
      gone := [VrfCreated(s.vrf), VrfRemoved(s.vrf)];
    }
    RunsTogether(s, start, gone);
    before := start + gone;
    assert Exec(s, before).vrfDel.All() != [];
    CreationLostExactly(s, before);
  }
}
