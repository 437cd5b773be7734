/**
 What a run of `Set`s on a forwarding instance keeps: every watcher is closed at most
 once, the open ones are those the configuration calls for, and the process is used
 linearly, exactly when nothing is configured again after a delete.
 */
module ForwardingGuarantees {
  import opened Wrappers
  import opened VrfLoop
  import opened VrfClients
  import opened ForwardingData
  import opened DnsmasqFiles
  import F = ForwardingConfig
  import opened ForwardingConfig

  /** An update that got as far as the main file. */
  const WRITES := {EnvFail, RestartFail, Success}
  /** An update that got as far as the watchers. */
  const APPLIES := {RestartFail, Success}

  // ------------------------------------------------------------ ownership

  /** The watchers started and not closed. */
  function Live(w: World): set<nat> {
    set k | 0 <= k < |w.started| && k !in w.closed
  }

  function Slot(watcher: Option<nat>): set<nat> {
    if watcher.Some? then {watcher.value} else {}
  }

  function LiveKinds(w: World): set<Kind> {
    set k | k in Live(w) :: w.started[k]
  }

  ghost predicate OnePerKind(w: World) {
    forall j, k :: j in Live(w) && k in Live(w) && w.started[j] == w.started[k] ==> j == k
  }

  /** No watcher was closed twice, or before it was started. */
  ghost predicate ClosedOnce(w: World) {
    && (forall i :: 0 <= i < |w.closed| ==> w.closed[i] < |w.started|)
    && (forall i, j :: 0 <= i < j < |w.closed| ==> w.closed[i] != w.closed[j])
  }

  /** What a configuration calls for. */
  function Wanted(c: ConfigData): set<Kind> {
    {HostsReload}
    + (if c.NsDerived() then {} else {ResolvReload})
    + (if c.dhcpInterfaces == [] then {} else {DhcpLeases(c.dhcpInterfaces)})
    + (if c.system then {SystemResolv} else {})
  }

  ghost predicate Holds(w: World, watcher: Option<nat>, kind: Kind) {
    watcher.Some? ==> watcher.value in Live(w) && w.started[watcher.value] == kind
  }

  /** The fields hold the open watchers, and nothing else does. */
  ghost predicate Owned(w: World, interfaces: seq<string>) {
    && !w.panicked && ClosedOnce(w)
    && Live(w) == Slot(w.resolv) + Slot(w.hosts) + Slot(w.dhcp) + Slot(w.system)
    && Holds(w, w.resolv, ResolvReload) && Holds(w, w.hosts, HostsReload)
    && Holds(w, w.dhcp, DhcpLeases(interfaces)) && Holds(w, w.system, SystemResolv)
  }

  ghost predicate Fits(w: World, c: ConfigData) {
    && w.hosts.Some? && (w.resolv.Some? <==> !c.NsDerived())
    && (w.dhcp.Some? <==> c.dhcpInterfaces != []) && (w.system.Some? <==> c.system)
  }

  lemma CloseLive(w: World, watcher: Option<nat>)
    requires !w.panicked && ClosedOnce(w) && (watcher.Some? ==> watcher.value in Live(w))
    ensures !Close(w, watcher).panicked && ClosedOnce(Close(w, watcher))
    ensures Live(Close(w, watcher)) == Live(w) - Slot(watcher)
  {
  }

  lemma StartLive(w: World, w': World, kind: Kind)
    requires ClosedOnce(w) && w'.started == w.started + [kind] && w'.closed == w.closed
    ensures ClosedOnce(w') && Live(w') == Live(w) + {|w.started|}
  {
  }

  lemma SetResolvOwned(w: World, c: ConfigData, interfaces: seq<string>)
    requires Owned(w, interfaces)
    ensures var w' := SetResolv(w, c);
            && Owned(w', interfaces) && (w'.resolv.Some? <==> !c.NsDerived())
            && w'.(resolv := w.resolv, started := w.started, closed := w.closed) == w
  {
    var w' := SetResolv(w, c);
    if c.NsDerived() {
      CloseLive(w, w.resolv);
      assert Live(w') == Live(Close(w, w.resolv));
    } else if w.resolv.None? {
      StartLive(w, w', ResolvReload);
    }
  }

  lemma SetHostsOwned(w: World, interfaces: seq<string>)
    requires Owned(w, interfaces)
    ensures var w' := SetHosts(w);
            && Owned(w', interfaces) && w'.hosts.Some?
            && w'.(hosts := w.hosts, started := w.started) == w
  {
  }

  lemma SetDhcpOwned(w: World, before: seq<string>, interfaces: seq<string>)
    requires Owned(w, before)
    ensures var w' := SetDhcp(w, interfaces);
            && Owned(w', interfaces) && (w'.dhcp.Some? <==> interfaces != [])
            && w'.(dhcp := w.dhcp, started := w.started, closed := w.closed) == w
  {
    var w1 := Close(w, w.dhcp);
    CloseLive(w, w.dhcp);
    if interfaces != [] {
      StartLive(w1, SetDhcp(w, interfaces), DhcpLeases(interfaces));
    }
  }

  lemma SetSystemOwned(w: World, interfaces: seq<string>, system: bool)
    requires Owned(w, interfaces)
    ensures var w' := SetSystem(w, system);
            && Owned(w', interfaces) && (w'.system.Some? <==> system)
            && w'.(system := w.system, started := w.started, closed := w.closed) == w
  {
    var w1 := Close(w, w.system);
    CloseLive(w, w.system);
    if system {
      StartLive(w1, SetSystem(w, system), SystemResolv);
    }
  }

  lemma ApplyOwned(w: World, interfaces: seq<string>, c: ConfigData)
    requires Owned(w, interfaces)
    ensures var t := F.Apply(w, c);
            && Owned(t, c.dhcpInterfaces) && Fits(t, c)
            && t.calls == w.calls + [Restart] && t.applied == w.applied && t.current == w.current
            && t.mainFile == w.mainFile
  {
    SetResolvOwned(w, c, interfaces);
    var w1 := SetResolv(w, c);
    SetHostsOwned(w1, interfaces);
    var w2 := SetHosts(w1);
    SetDhcpOwned(w2, interfaces, c.dhcpInterfaces);
    var w3 := SetDhcp(w2, c.dhcpInterfaces);
    SetSystemOwned(w3, c.dhcpInterfaces, c.system);
    var w4 := SetSystem(w3, c.system);
    assert Live(Ask(w4, Restart)) == Live(w4);
  }

  // ------------------------------------------------------------ phases of a run

  /** Never configured: nothing was started or called. */
  ghost predicate Untouched(w: World) {
    && w.started == [] && w.closed == [] && w.calls == [] && w.current == Some(EMPTY)
    && w.resolv.None? && w.hosts.None? && w.dhcp.None? && w.system.None?
  }

  ghost predicate Alive(w: World) {
    && !w.panicked && w.current.Some? && Stop !in w.calls
    && (if w.applied.Some? then Owned(w, w.applied.value.dhcpInterfaces) && Fits(w, w.applied.value)
        else Untouched(w))
  }

  ghost predicate Deleted(w: World) {
    && !w.panicked && w.current.None? && ClosedOnce(w) && Live(w) == {}
    && w.calls != [] && w.calls[|w.calls| - 1] == Stop && Stop !in w.calls[..|w.calls| - 1]
  }

  /** A closed watcher was closed again, or `Set` called the process after its Stop. */
  predicate Broken(w: World) {
    w.panicked || !StopOnlyLast(w.calls)
  }

  lemma AliveOwned(w: World) returns (interfaces: seq<string>)
    requires Alive(w)
    ensures Owned(w, interfaces)
  {
    interfaces := if w.applied.Some? then w.applied.value.dhcpInterfaces else [];
  }

  /** Ownership is about the watchers alone. */
  lemma OwnedAlike(w: World, w': World, interfaces: seq<string>)
    requires Owned(w, interfaces)
    requires w'.started == w.started && w'.closed == w.closed && w'.panicked == w.panicked
    requires w'.resolv == w.resolv && w'.hosts == w.hosts && w'.dhcp == w.dhcp && w'.system == w.system
    ensures Owned(w', interfaces)
  {
    assert Live(w') == Live(w);
  }

  lemma UpdateApplies(p: Paths, w: World, c: ConfigData, ending: Ending)
    requires Alive(w) && (ending.RestartFail? || ending.Success?)
    ensures var t := Update(p, w, c, ending);
            && Owned(t, c.dhcpInterfaces) && Fits(t, c) && t.applied == Some(c)
            && t.calls == w.calls + [Restart] && t.mainFile == Some(WriteForwardingConfig(p, c))
            && t.current == if ending.Success? then Some(c) else w.current
  {
    var interfaces := AliveOwned(w);
    var w1 := w.(mainFile := Some(WriteForwardingConfig(p, c))).(applied := Some(c));
    OwnedAlike(w, w1, interfaces);
    ApplyOwned(w1, interfaces, c);
    var t := F.Apply(w1, c);
    OwnedAlike(t, t.(current := Some(c)), c.dhcpInterfaces);
  }

  lemma UpdateAlive(p: Paths, w: World, c: ConfigData, ending: Ending)
    requires Alive(w)
    ensures Alive(Update(p, w, c, ending))
  {
    if ending.RestartFail? || ending.Success? {
      UpdateApplies(p, w, c, ending);
    } else {
      assert Live(Update(p, w, c, ending)) == Live(w);
    }
  }

  lemma CloseBoth(w: World, interfaces: seq<string>)
    requires Owned(w, interfaces)
    ensures var w' := Close(Close(w, w.resolv), w.hosts);
            && !w'.panicked && ClosedOnce(w') && Live(w') == Slot(w.dhcp) + Slot(w.system)
            && w'.(closed := w.closed) == w
  {
    CloseLive(w, w.resolv);
    CloseLive(Close(w, w.resolv), w.hosts);
  }

  lemma CloseTheRest(w: World)
    requires !w.panicked && ClosedOnce(w) && Live(w) == Slot(w.dhcp) + Slot(w.system)
    requires w.dhcp.Some? ==> w.dhcp != w.system
    ensures var w' := SetSystem(SetDhcp(w, []), false);
            && !w'.panicked && ClosedOnce(w') && Live(w') == {} && w'.calls == w.calls
  {
    CloseLive(w, w.dhcp);
    var w1 := SetDhcp(w, []);
    assert Live(w1) == Live(Close(w, w.dhcp)) == Slot(w.system);
    CloseLive(w1, w1.system);
    assert Live(SetSystem(w1, false)) == Live(Close(w1, w1.system));
  }

  lemma DeleteDeletes(w: World)
    requires Alive(w)
    ensures Deleted(Delete(w))
  {
    var interfaces := AliveOwned(w);
    CloseBoth(w, interfaces);
    var w1 := Close(Close(w, w.resolv), w.hosts);
    CloseTheRest(w1);
    var w2 := SetSystem(SetDhcp(w1, []), false);
    var t := Ask(w2, Stop).(mainFile := None, current := None);
    assert Delete(w) == t && Live(t) == Live(w2);
    assert t.calls[..|t.calls| - 1] == w.calls;
  }

  /** An update that reaches the watchers. */
  predicate Effective(op: SetOp) {
    op.conf.Some? && (op.ending.RestartFail? || op.ending.Success?)
  }

  lemma ApplyCalls(w: World, c: ConfigData)
    ensures F.Apply(w, c).calls == if F.Apply(w, c).panicked then w.calls else w.calls + [Restart]
  {
  }

  lemma DeleteKeepsCalls(w: World)
    ensures w.calls <= Delete(w).calls
  {
  }

  lemma CallsGrow(p: Paths, w: World, op: SetOp)
    ensures w.calls <= Set(p, w, op).calls
    ensures w.panicked ==> Set(p, w, op).panicked
  {
    if op.conf.Some? {
      ApplyCalls(w.(mainFile := Some(WriteForwardingConfig(p, op.conf.value)), applied := op.conf), op.conf.value);
    } else {
      DeleteKeepsCalls(w);
    }
  }

  lemma BrokenStays(p: Paths, w: World, op: SetOp)
    requires Broken(w)
    ensures Broken(Set(p, w, op))
  {
    CallsGrow(p, w, op);
    if !w.panicked {
      var i :| 0 <= i < |w.calls| - 1 && w.calls[i].Stop?;
      assert Set(p, w, op).calls[i].Stop?;
    }
  }

  lemma DeletedUpdate(p: Paths, w: World, op: SetOp)
    requires Deleted(w) && Effective(op)
    ensures Broken(Set(p, w, op))
  {
    var c := op.conf.value;
    var w1 := w.(mainFile := Some(WriteForwardingConfig(p, c)), applied := Some(c));
    ApplyCalls(w1, c);
    var t := F.Apply(w1, c);
    if !t.panicked {
      assert t.calls[|w.calls| - 1].Stop?;
    }
  }

  lemma DeletedStep(p: Paths, w: World, op: SetOp)
    requires Deleted(w)
    ensures if Effective(op) then Broken(Set(p, w, op)) else Deleted(Set(p, w, op))
  {
    if Effective(op) {
      DeletedUpdate(p, w, op);
    } else {
      assert Live(Set(p, w, op)) == Live(w);
    }
  }

  predicate HasDelete(ops: seq<SetOp>) {
    exists i :: 0 <= i < |ops| && ops[i].conf.None?
  }

  /** Some update gets as far as the watchers after a delete. */
  predicate Reused(ops: seq<SetOp>) {
    exists i, j :: 0 <= i < j < |ops| && ops[i].conf.None? && Effective(ops[j])
  }

  lemma LastOp(ops: seq<SetOp>)
    requires ops != []
    ensures var pre, op := ops[..|ops| - 1], ops[|ops| - 1];
            && (HasDelete(ops) <==> HasDelete(pre) || op.conf.None?)
            && (Reused(ops) <==> Reused(pre) || (HasDelete(pre) && Effective(op)))
  {
  }

  lemma {:induction false} RunPhase(p: Paths, ops: seq<SetOp>)
    ensures if Reused(ops) then Broken(Run(p, ops))
            else if HasDelete(ops) then Deleted(Run(p, ops))
            else Alive(Run(p, ops))
  {
    if ops != [] {
      var pre, op := ops[..|ops| - 1], ops[|ops| - 1];
      RunPhase(p, pre);
      LastOp(ops);
      var w := Run(p, pre);
      if Reused(pre) {
        BrokenStays(p, w, op);
      } else if HasDelete(pre) {
        DeletedStep(p, w, op);
      } else if op.conf.None? {
        DeleteDeletes(w);
      } else {
        UpdateAlive(p, w, op.conf.value, op.ending);
      }
    }
  }

  // ------------------------------------------------------------ guarantees

  /**
   Over every run with no update after its delete: no close panics, no watcher is closed
   twice, the open watchers are one of each kind the last applied configuration calls
   for, and none is open once the configuration was deleted.
   */
  lemma WatcherOwnership(p: Paths, ops: seq<SetOp>)
    requires !Reused(ops)
    ensures var w := Run(p, ops);
            && !w.panicked && ClosedOnce(w) && OnePerKind(w)
            && LiveKinds(w) == if HasDelete(ops) || w.applied.None? then {} else Wanted(w.applied.value)
  {
    RunPhase(p, ops);
    var w := Run(p, ops);
    if !HasDelete(ops) && w.applied.Some? {
      KindsOwned(w, w.applied.value);
    }
  }

  lemma KindsOwned(w: World, c: ConfigData)
    requires Owned(w, c.dhcpInterfaces) && Fits(w, c)
    ensures LiveKinds(w) == Wanted(c) && OnePerKind(w)
  {
  }

  /** The reload watcher and the system watcher, both on resolv.conf, are never open together. */
  lemma NeverBothOnResolv(p: Paths, ops: seq<SetOp>)
    requires !Reused(ops)
    ensures !(ResolvReload in LiveKinds(Run(p, ops)) && SystemResolv in LiveKinds(Run(p, ops)))
  {
    WatcherOwnership(p, ops);
  }

  /** `Set` calls nothing after its Stop and no close panics exactly when no update follows a delete. */
  lemma LinearUnlessReused(p: Paths, ops: seq<SetOp>)
    ensures !Broken(Run(p, ops)) <==> !Reused(ops)
  {
    RunPhase(p, ops);
  }

  // ------------------------------------------------------------ configured again after a delete

  lemma CloseKeepsFields(w: World, watcher: Option<nat>)
    ensures var w' := Close(w, watcher);
            w'.resolv == w.resolv && w'.hosts == w.hosts && w'.dhcp == w.dhcp && w'.system == w.system
    ensures !w.panicked && watcher.Some? ==> Close(w, watcher).panicked || watcher.value in Close(w, watcher).closed
    ensures w.closed <= Close(w, watcher).closed
  {
  }

  /** What a delete leaves in the fields: the closed reload watchers, and nothing of the others. */
  lemma DeleteLeaves(w: World, c: ConfigData)
    requires Alive(w) && w.applied == Some(c)
    ensures var d := Delete(w);
            && !d.panicked && d.current.None? && d.calls == w.calls + [Stop]
            && d.dhcp.None? && d.system.None? && d.resolv == w.resolv && d.hosts == w.hosts
            && d.hosts.Some? && d.hosts.value in d.closed
            && (d.resolv.Some? <==> !c.NsDerived()) && (d.resolv.Some? ==> d.resolv.value in d.closed)
            && (forall i :: 0 <= i < |d.closed| ==> d.closed[i] < |d.started|)
  {
    DeleteDeletes(w);
    var w1 := Close(w, w.resolv);
    var w2 := Close(w1, w1.hosts);
    CloseKeepsFields(w, w.resolv);
    CloseKeepsFields(w1, w1.hosts);
    CloseKeepsFields(w2, w2.dhcp);
    var w3 := SetDhcp(w2, []);
    CloseKeepsFields(w3, w3.system);
  }

  /** An update of what a delete left. */
  lemma UpdateAfterDelete(d: World, c: ConfigData)
    requires !d.panicked && d.dhcp.None? && d.system.None? && d.hosts.Some? && (d.resolv.Some? ==> d.resolv.value in d.closed)
    ensures var t := F.Apply(d, c);
            && (t.panicked <==> d.resolv.Some? && c.NsDerived())
            && t.hosts == d.hosts && t.closed == d.closed && (!t.panicked ==> t.calls == d.calls + [Restart])
            && d.started <= t.started && HostsReload !in t.started[|d.started|..]
  {
  }

  /** A deleted object configured again: `d` is what the delete left. */
  ghost predicate ReusedFrom(w: World, d: World, c: ConfigData, t: World)
    requires w.applied.Some?
  {
    && (t.panicked <==> !w.applied.value.NsDerived() && c.NsDerived())
    && (!t.panicked ==> t.calls == w.calls + [Stop, Restart])
    && t.hosts.Some? && t.hosts.value in t.closed
    && Live(d) == {} && t.closed == d.closed && d.started <= t.started && HostsReload !in t.started[|d.started|..]
  }

  lemma UpdateOfDeleted(p: Paths, w: World, c: ConfigData, ending: Ending)
    requires Alive(w) && w.applied.Some? && ending in APPLIES
    ensures ReusedFrom(w, Delete(w), c, Update(p, Delete(w), c, ending))
  {
    DeleteLeaves(w, w.applied.value);
    DeleteDeletes(w);
    UpdatesDeleted(p, Delete(w), c, ending);
    assert w.calls + [Stop] + [Restart] == w.calls + [Stop, Restart];
  }

  lemma UpdatesDeleted(p: Paths, d: World, c: ConfigData, ending: Ending)
    requires !d.panicked && d.dhcp.None? && d.system.None? && d.hosts.Some? && (d.resolv.Some? ==> d.resolv.value in d.closed)
    requires ending in APPLIES
    ensures var t := Update(p, d, c, ending);
            && (t.panicked <==> d.resolv.Some? && c.NsDerived())
            && t.hosts == d.hosts && t.closed == d.closed && (!t.panicked ==> t.calls == d.calls + [Restart])
            && d.started <= t.started && HostsReload !in t.started[|d.started|..]
  {
    UpdateAfterDelete(d.(mainFile := Some(WriteForwardingConfig(p, c))).(applied := Some(c)), c);
  }

  lemma DeletesAndSets(p: Paths, w: World, c: ConfigData, ending: Ending)
    requires Alive(w) && w.applied.Some?
    ensures Set(p, w, SetOp(None, Success)) == Delete(w)
    ensures Set(p, Delete(w), SetOp(Some(c), ending)) == Update(p, Delete(w), c, ending)
  {
    DeleteLeaves(w, w.applied.value);
  }

  lemma RunAlive(p: Paths, ops: seq<SetOp>)
    requires !HasDelete(ops)
    ensures Alive(Run(p, ops))
  {
    RunPhase(p, ops);
    assert !Reused(ops);
  }

  /**
   Configured again after its delete an instance panics exactly when it then takes its servers
   from the configuration and before did not: the reload watcher of resolv.conf is closed
   again.  If it does not panic `Set` restarts the stopped process, and the hosts file is
   watched no more.
   */
  lemma ReusePanicsExactly(p: Paths, ops: seq<SetOp>, c: ConfigData, ending: Ending)
    requires !HasDelete(ops) && Run(p, ops).applied.Some? && ending in APPLIES
    ensures var w := Run(p, ops); var t := Set(p, Set(p, w, SetOp(None, Success)), SetOp(Some(c), ending));
            && (t.panicked <==> !w.applied.value.NsDerived() && c.NsDerived())
            && (!t.panicked ==> t.calls == w.calls + [Stop, Restart])
            && HostsReload !in LiveKinds(t)
  {
    RunAlive(p, ops);
    var w := Run(p, ops);
    DeletesAndSets(p, w, c, ending);
    UpdateOfDeleted(p, w, c, ending);
    NothingOpenWas(Delete(w), Update(p, Delete(w), c, ending));
  }

  lemma NothingOpenWas(d: World, t: World)
    requires Live(d) == {} && d.started <= t.started && t.closed == d.closed && HostsReload !in t.started[|d.started|..]
    ensures HostsReload !in LiveKinds(t)
  {
    assert forall k :: k in Live(t) && k < |d.started| ==> k in Live(d);
    forall k | k in Live(t)
      ensures t.started[k] != HostsReload
    {
      assert t.started[k] == t.started[|d.started|..][k - |d.started|];
    }
  }

  /** And deleting it a second time always panics: the hosts watcher is closed again. */
  lemma SecondDeletePanics(p: Paths, ops: seq<SetOp>, c: ConfigData)
    requires !HasDelete(ops) && Run(p, ops).applied.Some?
    ensures var d := Set(p, Run(p, ops), SetOp(None, Success));
            Set(p, Set(p, d, SetOp(Some(c), Success)), SetOp(None, Success)).panicked
  {
    RunAlive(p, ops);
    var w := Run(p, ops);
    DeletesAndSets(p, w, c, Success);
    UpdateOfDeleted(p, w, c, Success);
    var t := Update(p, Delete(w), c, Success);
    if !t.panicked {
      ClosedAgain(t);
    }
  }

  lemma ClosedAgain(t: World)
    requires !t.panicked && t.hosts.Some? && t.hosts.value in t.closed
    ensures Delete(t).panicked
  {
    CloseKeepsFields(t, t.resolv);
  }

  // ------------------------------------------------------------ incremental and rebuild

  predicate AllSucceed(ops: seq<SetOp>) {
    forall i :: 0 <= i < |ops| ==> ops[i].ending.Success?
  }

  /** What was applied is what is stored, and the main file is its rendering. */
  ghost predicate InStep(p: Paths, w: World) {
    w.current.Some? && w.applied.Some? ==>
      && w.applied == w.current
      && w.mainFile == Some(WriteForwardingConfig(p, w.current.value))
  }

  lemma {:induction false} SuccessInStep(p: Paths, ops: seq<SetOp>)
    requires AllSucceed(ops) && !Reused(ops)
    ensures InStep(p, Run(p, ops))
    ensures !HasDelete(ops) && Run(p, ops).applied.None? ==> Run(p, ops).mainFile.None?
    ensures ops != [] ==> Run(p, ops).current == ops[|ops| - 1].conf
    ensures HasDelete(ops) ==> Run(p, ops).mainFile.None?
  {
    if ops != [] {
      var pre, op := ops[..|ops| - 1], ops[|ops| - 1];
      assert forall i :: 0 <= i < |pre| ==> pre[i] == ops[i];
      LastOp(ops);
      SuccessInStep(p, pre);
      RunPhase(p, pre);
      RunPhase(p, ops);
      var w := Run(p, pre);
      if !HasDelete(pre) && op.conf.Some? {
        UpdateApplies(p, w, op.conf.value, op.ending);
      }
    }
  }

  // ------------------------------------------------------------ what is in force

  /** The last update, given with a configuration other than the one stored, that ended in one of these ways. */
  function LastUpdate(p: Paths, ops: seq<SetOp>, endings: set<Ending>): Option<SetOp> {
    if ops == [] then None
    else
      var pre, op := ops[..|ops| - 1], ops[|ops| - 1];
      if op.conf.Some? && op.conf != Run(p, pre).current && op.ending in endings then Some(op)
      else LastUpdate(p, pre, endings)
  }

  /** What an update leaves, however it ends. */
  lemma UpdateLeaves(p: Paths, w: World, op: SetOp)
    requires Alive(w) && op.conf.Some?
    ensures var t, attempted := Set(p, w, op), op.conf != w.current;
            && t.current == (if attempted && op.ending.Success? then op.conf else w.current)
            && t.applied == (if attempted && op.ending in APPLIES then op.conf else w.applied)
            && t.mainFile == if attempted && op.ending in WRITES then Some(WriteForwardingConfig(p, op.conf.value))
                             else w.mainFile
  {
    if op.ending in APPLIES {
      UpdateApplies(p, w, op.conf.value, op.ending);
    }
  }

  /** The configuration stored is that of the last update that got as far, exactly if this ended well. */
  lemma {:induction false} StoredExactly(p: Paths, ops: seq<SetOp>, endings: set<Ending>)
    requires !HasDelete(ops) && Success in endings
    ensures var last := LastUpdate(p, ops, endings);
            && (last.Some? ==> last.value.conf.Some? && last.value.ending in endings
                               && (Run(p, ops).current == last.value.conf <==> last.value.ending.Success?))
            && (last.None? ==> Run(p, ops).current == Some(EMPTY))
  {
    if ops != [] {
      var pre, op := ops[..|ops| - 1], ops[|ops| - 1];
      LastOp(ops);
      RunPhase(p, pre);
      StoredExactly(p, pre, endings);
      UpdateLeaves(p, Run(p, pre), op);
    }
  }

  lemma {:induction false} LeftByLast(p: Paths, ops: seq<SetOp>)
    requires !HasDelete(ops)
    ensures var applied, written := LastUpdate(p, ops, APPLIES), LastUpdate(p, ops, WRITES);
            && Run(p, ops).applied == (if applied.Some? then applied.value.conf else None)
            && (written.Some? ==> written.value.conf.Some?)
            && Run(p, ops).mainFile == if written.Some? then Some(WriteForwardingConfig(p, written.value.conf.value)) else None
  {
    if ops != [] {
      var pre, op := ops[..|ops| - 1], ops[|ops| - 1];
      LastOp(ops);
      RunPhase(p, pre);
      LeftByLast(p, pre);
      UpdateLeaves(p, Run(p, pre), op);
    }
  }

  /**
   Over every run without a delete, whatever fails and recovers: the open watchers are those
   of the last update that reached them, and its configuration is the one stored exactly
   when it ended in success.
   */
  lemma AppliedExactly(p: Paths, ops: seq<SetOp>)
    requires !HasDelete(ops) && LastUpdate(p, ops, APPLIES).Some?
    ensures var w, last := Run(p, ops), LastUpdate(p, ops, APPLIES).value;
            && w.applied == last.conf && last.conf.Some? && LiveKinds(w) == Wanted(last.conf.value)
            && (w.applied == w.current <==> last.ending.Success?)
  {
    StoredExactly(p, ops, APPLIES);
    LeftByLast(p, ops);
    WatcherOwnership(p, ops);
  }

  /**
   And the main file is the rendering of the last update that got as far as it, whose
   configuration is the one stored exactly when neither the environment file nor the
   restart failed.
   */
  lemma MainFileExactly(p: Paths, ops: seq<SetOp>)
    requires !HasDelete(ops) && LastUpdate(p, ops, WRITES).Some?
    ensures var w, last := Run(p, ops), LastUpdate(p, ops, WRITES).value;
            && last.conf.Some? && w.mainFile == Some(WriteForwardingConfig(p, last.conf.value))
            && (last.conf == w.current <==> !last.ending.EnvFail? && !last.ending.RestartFail?)
  {
    StoredExactly(p, ops, WRITES);
    LeftByLast(p, ops);
  }

  /** A later success makes good what failed before: then main file and watchers are those of what is stored. */
  lemma {:induction false} SuccessCoversBoth(p: Paths, ops: seq<SetOp>)
    ensures var written, applied := LastUpdate(p, ops, WRITES), LastUpdate(p, ops, APPLIES);
            && (written.Some? && written.value.ending.Success? ==> applied == written)
            && (written.None? ==> applied.None?)
  {
    if ops != [] {
      SuccessCoversBoth(p, ops[..|ops| - 1]);
    }
  }

  /** Two objects hold the same configuration, main file and kinds of open watchers. */
  ghost predicate Agree(w: World, w': World) {
    w.current == w'.current && w.mainFile == w'.mainFile && LiveKinds(w) == LiveKinds(w')
  }

  /** One update of a new object, which takes the empty configuration for the one it has. */
  lemma FromScratch(p: Paths, c: ConfigData)
    ensures var once := [SetOp(Some(c), Success)];
            && !HasDelete(once) && Run(p, once).current == Some(c)
            && Run(p, once).mainFile == (if c == EMPTY then None else Some(WriteForwardingConfig(p, c)))
            && LiveKinds(Run(p, once)) == if c == EMPTY then {} else Wanted(c)
  {
    var once := [SetOp(Some(c), Success)];
    assert !HasDelete(once) && once[..0] == [] && Run(p, []) == NEW;
    RunPhase(p, []);
    UpdateLeaves(p, NEW, once[0]);
    assert Run(p, once) == Set(p, Run(p, once[..0]), once[0]);
    WatcherOwnership(p, once);
  }

  /**
   If the last update that got as far as the main file succeeded, whatever failed before it,
   the object is as one update from scratch leaves it, except that a new object takes the
   empty configuration for the one it has and so ignores it.
   */
  lemma IncrementalEqualsRebuild(p: Paths, ops: seq<SetOp>, c: ConfigData)
    requires !HasDelete(ops) && Run(p, ops).current == Some(c)
    requires var last := LastUpdate(p, ops, WRITES); last.Some? ==> last.value.ending.Success?
    ensures Agree(Run(p, ops), Run(p, [SetOp(Some(c), Success)])) <==> c != EMPTY || LastUpdate(p, ops, WRITES).None?
  {
    FromScratch(p, c);
    StoredExactly(p, ops, WRITES);
    LeftByLast(p, ops);
    SuccessCoversBoth(p, ops);
    WatcherOwnership(p, ops);
  }

  /**
   When the environment file or the restart fails, going back to the configuration before it
   changes nothing: it is still the one stored, so the main file, and after a failed restart
   the watchers too, stay those of the failed update.
   */
  lemma FailedUpdateSticks(p: Paths, w: World, a: ConfigData, b: ConfigData, failure: Ending, ending: Ending)
    requires Alive(w) && w.current == Some(a) && b != a && (failure.EnvFail? || failure.RestartFail?)
    ensures var t := Set(p, Set(p, w, SetOp(Some(b), failure)), SetOp(Some(a), ending));
            && t.current == Some(a) && t.mainFile == Some(WriteForwardingConfig(p, b))
            && (failure.RestartFail? ==> LiveKinds(t) == Wanted(b))
  {
    UpdateLeaves(p, w, SetOp(Some(b), failure));
    if failure.RestartFail? {
      UpdateApplies(p, w, b, RestartFail);
      KindsOwned(Update(p, w, b, RestartFail), b);
    }
  }
}
