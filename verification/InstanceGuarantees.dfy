/**
 What a run of top-level `Set`s keeps: which instances there are, which object each has,
 and when an object is configured again after its delete.
 */
module InstanceGuarantees {
  import opened Wrappers
  import opened Instances
  import ForwardingData
  import F = ForwardingConfig
  import G = ForwardingGuarantees
  import P = ForwardingProcess
  import VrfClients
  import VrfLoop
  import VrfProtocol

  /** `states[i + 1]` is `states[i]` after `Set(confs[i])`. */
  ghost predicate Trace<C>(states: seq<World<C>>, confs: seq<Option<TopConfig<C>>>) {
    && |states| == |confs| + 1
    && states[0] == World(map[], [])
    && forall i :: 0 <= i < |confs| ==> Step(states[i], confs[i], states[i + 1])
  }

  // ------------------------------------------------------------ what is listed

  /** The instances are those the configuration names, the default one if it is configured. */
  lemma {:induction false} NamesListed<C>(default: Option<C>, ris: seq<RoutingInstance<C>>, n: string)
    ensures n in Listed(default, ris) <==>
            (default.Some? && n == "default") || exists i :: 0 <= i < |ris| && ris[i].name == n
  {
    if ris != [] {
      var pre, last := ris[..|ris| - 1], ris[|ris| - 1];
      NamesListed(default, pre, n);
      if i :| 0 <= i < |pre| && pre[i].name == n {
        assert ris[i].name == n;
      }
      if i :| 0 <= i < |ris| && ris[i].name == n {
        assert i < |pre| ==> pre[i].name == n;
      }
    }
  }

  /** Routing instances have different names, and none is called "default". */
  predicate DistinctNames<C>(ris: seq<RoutingInstance<C>>) {
    && (forall i :: 0 <= i < |ris| ==> ris[i].name != "default")
    && (forall i, j :: 0 <= i < j < |ris| ==> ris[i].name != ris[j].name)
  }

  /** So each gets its own configuration. */
  lemma {:induction false} EachItsOwn<C>(default: Option<C>, ris: seq<RoutingInstance<C>>)
    requires DistinctNames(ris)
    ensures forall i :: 0 <= i < |ris| ==> ris[i].name in Listed(default, ris) && Listed(default, ris)[ris[i].name] == ris[i].conf
    ensures "default" in Listed(default, ris) <==> default.Some?
    ensures default.Some? ==> Listed(default, ris)["default"] == default
  {
    if ris != [] {
      var pre := ris[..|ris| - 1];
      EachItsOwn(default, pre);
      forall i | 0 <= i < |ris|
        ensures ris[i].name in Listed(default, ris) && Listed(default, ris)[ris[i].name] == ris[i].conf
      {
        assert i < |pre| ==> pre[i] == ris[i];
      }
    }
  }

  /** What `conf` says of instance `n`: its last entry of that name, else the default if it is that. */
  ghost predicate SaidOf<C>(conf: TopConfig<C>, n: string, c: Option<C>) {
    || (exists i :: 0 <= i < |conf.instances| && conf.instances[i] == RoutingInstance(n, c)
                    && forall j :: i < j < |conf.instances| ==> conf.instances[j].name != n)
    || (n == "default" && conf.default == c && c.Some?
        && forall i :: 0 <= i < |conf.instances| ==> conf.instances[i].name != n)
  }

  lemma {:induction false} ListedIsSaid<C>(default: Option<C>, ris: seq<RoutingInstance<C>>, n: string)
    requires n in Listed(default, ris)
    ensures SaidOf(TopConfig(default, ris), n, Listed(default, ris)[n])
  {
    if ris != [] {
      var k := |ris| - 1;
      if ris[k].name != n {
        ListedIsSaid(default, ris[..k], n);
        assert forall i :: 0 <= i < k ==> ris[..k][i] == ris[i];
      }
    }
  }

  /** The object of instance `n` was last given `c`. */
  ghost predicate LastGiven<C>(w: World<C>, n: string, c: Option<C>) {
    n in w.objs && w.objs[n] < |w.history| && var h := w.history[w.objs[n]]; h != [] && h[|h| - 1] == c
  }

  /**
   One `Set`, from whatever there was: there is an object for each name configured, the default
   included, and the last thing each was given is what the configuration says of it.
   */
  lemma SetReaches<C>(before: World<C>, conf: Option<TopConfig<C>>, after: World<C>)
    requires Step(before, conf, after)
    ensures conf.None? ==> after.objs == map[]
    ensures conf.Some? ==> forall n :: n in after.objs <==>
              (n == "default" && conf.value.default.Some?) || exists i :: 0 <= i < |conf.value.instances| && conf.value.instances[i].name == n
    ensures conf.Some? ==> forall n :: n in after.objs ==> exists c :: LastGiven(after, n, c) && SaidOf(conf.value, n, c)
  {
    if conf.Some? {
      var default, ris := conf.value.default, conf.value.instances;
      forall n
        ensures n in after.objs <==>
          (n == "default" && default.Some?) || exists i :: 0 <= i < |ris| && ris[i].name == n
      {
        NamesListed(default, ris, n);
      }
      forall n | n in after.objs
        ensures exists c :: LastGiven(after, n, c) && SaidOf(conf.value, n, c)
      {
        LastSet(before, conf, after, n);
        ListedIsSaid(default, ris, n);
        assert LastGiven(after, n, Wanted(conf)[n]);
      }
    }
  }

  /** With different names each instance so gets its own configuration, the default included. */
  lemma SetReachesEach<C>(before: World<C>, conf: TopConfig<C>, after: World<C>)
    requires Step(before, Some(conf), after) && DistinctNames(conf.instances)
    ensures "default" in after.objs <==> conf.default.Some?
    ensures conf.default.Some? ==> LastGiven(after, "default", conf.default)
    ensures forall i :: 0 <= i < |conf.instances| ==> LastGiven(after, conf.instances[i].name, conf.instances[i].conf)
  {
    EachItsOwn(conf.default, conf.instances);
    forall n | n in after.objs
      ensures LastGiven(after, n, Wanted(Some(conf))[n])
    {
      LastSet(before, Some(conf), after, n);
    }
  }

  // ------------------------------------------------------------ objects

  /**
   After every `Set` there is one object for each instance named, different instances have
   different objects, those kept have the one they had, and a new one was never used before.
   */
  lemma Reconciled<C>(states: seq<World<C>>, confs: seq<Option<TopConfig<C>>>, i: nat)
    requires Trace(states, confs) && i < |confs|
    ensures var before, after := states[i], states[i + 1];
            && after.objs.Keys == Wanted(confs[i]).Keys && Injective(after.objs)
            && (forall n :: n in before.objs && n in after.objs ==> after.objs[n] == before.objs[n])
            && (forall n, j :: n in after.objs && n !in before.objs && 0 <= j <= i ==> after.objs[n] !in states[j].objs.Values)
  {
    assert Step(states[i], confs[i], states[i + 1]);
    forall n, j | n in states[i + 1].objs && n !in states[i].objs && 0 <= j <= i
      ensures states[i + 1].objs[n] !in states[j].objs.Values
    {
      HistoryGrows(states, confs, j, i);
      assert Numbered(states[j]) by {
        if j < |confs| {
          assert Step(states[j], confs[j], states[j + 1]);
        }
      }
    }
  }

  lemma {:induction false} HistoryGrows<C>(states: seq<World<C>>, confs: seq<Option<TopConfig<C>>>, i: nat, j: nat)
    requires Trace(states, confs) && i <= j <= |confs|
    ensures |states[i].history| <= |states[j].history|
    ensures forall k :: 0 <= k < |states[i].history| ==> states[i].history[k] <= states[j].history[k]
    decreases j
  {
    if i < j {
      HistoryGrows(states, confs, i, j - 1);
      StepGrows(states[j - 1], confs[j - 1], states[j]);
    }
  }

  lemma StepGrows<C>(before: World<C>, conf: Option<TopConfig<C>>, after: World<C>)
    requires Step(before, conf, after)
    ensures forall k :: 0 <= k < |before.history| ==> before.history[k] <= after.history[k]
  {
  }

  /** A dropped object gets exactly one more `Set`, the deleting one, and is never used again. */
  lemma {:induction false} DroppedOnce<C>(states: seq<World<C>>, confs: seq<Option<TopConfig<C>>>, i: nat, j: nat, n: string)
    requires Trace(states, confs) && i < j <= |confs|
    requires n in states[i].objs && n !in Wanted(confs[i])
    ensures states[i].objs[n] < |states[i].history| <= |states[j].history|
    ensures states[i].objs[n] !in states[j].objs.Values
    ensures states[j].history[states[i].objs[n]] == states[i].history[states[i].objs[n]] + [None]
    decreases j
  {
    var k := states[i].objs[n];
    assert Step(states[j - 1], confs[j - 1], states[j]);
    HistoryGrows(states, confs, i, j - 1);
    if j == i + 1 {
      InjectiveAt(states, confs, i);
      NotKept(states[i], Wanted(confs[i]), states[j], n);
    } else {
      DroppedOnce(states, confs, i, j - 1, n);
      forall m | m in states[j].objs
        ensures states[j].objs[m] != k
      {
        assert m in states[j - 1].objs ==> states[j - 1].objs[m] in states[j - 1].objs.Values;
      }
    }
  }

  lemma InjectiveAt<C>(states: seq<World<C>>, confs: seq<Option<TopConfig<C>>>, i: nat)
    requires Trace(states, confs) && i <= |confs|
    ensures Injective(states[i].objs)
  {
    if i > 0 {
      assert Step(states[i - 1], confs[i - 1], states[i]);
    }
  }

  // ------------------------------------------------------------ configured after a delete

  /** An object was given a configuration after a deleting `Set`. */
  predicate Reused<C>(history: seq<Option<C>>) {
    exists a, b :: 0 <= a < b < |history| && history[a].None? && history[b].Some?
  }

  ghost predicate SomeReused<C>(w: World<C>) {
    exists k :: 0 <= k < |w.history| && Reused(w.history[k])
  }

  /** The instance is in the configurations from `i` up to `j`. */
  ghost predicate ListedIn<C>(confs: seq<Option<TopConfig<C>>>, i: nat, j: nat, n: string)
    requires j <= |confs|
  {
    forall k :: i <= k < j ==> n in Wanted(confs[k])
  }

  /** An instance stays listed while its service is unconfigured and later configured. */
  ghost predicate RevivedAs<C>(confs: seq<Option<TopConfig<C>>>, i: nat, j: nat, n: string) {
    && i < j < |confs|
    && ListedIn(confs, i, j + 1, n)
    && Wanted(confs[i])[n].None? && Wanted(confs[j])[n].Some?
  }

  ghost predicate Revived<C>(confs: seq<Option<TopConfig<C>>>) {
    exists i: nat, j: nat, n: string :: RevivedAs(confs, i, j, n)
  }

  lemma StepKept<C>(before: World<C>, conf: Option<TopConfig<C>>, after: World<C>, n: string)
    requires Step(before, conf, after) && n in Wanted(conf) && n in before.objs
    ensures n in after.objs && after.objs[n] == before.objs[n]
    ensures before.objs[n] < |before.history| <= |after.history|
    ensures after.history[before.objs[n]] == before.history[before.objs[n]] + [Wanted(conf)[n]]
  {
  }

  lemma StepMade<C>(before: World<C>, conf: Option<TopConfig<C>>, after: World<C>, n: string)
    requires Step(before, conf, after) && n in Wanted(conf) && n !in before.objs
    ensures n in after.objs && |before.history| <= after.objs[n] < |after.history|
    ensures after.history[after.objs[n]] == [Wanted(conf)[n]]
  {
  }

  lemma LastSet<C>(before: World<C>, conf: Option<TopConfig<C>>, after: World<C>, n: string)
    requires Step(before, conf, after) && n in Wanted(conf)
    ensures n in after.objs && after.objs[n] < |after.history|
    ensures var h := after.history[after.objs[n]]; h != [] && h[|h| - 1] == Wanted(conf)[n]
  {
  }

  lemma {:induction false} KeptThrough<C>(states: seq<World<C>>, confs: seq<Option<TopConfig<C>>>, i: nat, j: nat, n: string)
    requires Trace(states, confs) && i <= j < |confs| && ListedIn(confs, i, j + 1, n)
    ensures n in states[i + 1].objs && n in states[j + 1].objs && states[j + 1].objs[n] == states[i + 1].objs[n]
    decreases j
  {
    Reconciled(states, confs, j);
    if i < j {
      KeptThrough(states, confs, i, j - 1, n);
    }
  }

  lemma ObjectsNumbered<C>(states: seq<World<C>>, confs: seq<Option<TopConfig<C>>>, i: nat, n: string)
    requires Trace(states, confs) && i < |confs| && n in states[i + 1].objs
    ensures states[i + 1].objs[n] < |states[i + 1].history|
  {
    assert Step(states[i], confs[i], states[i + 1]);
  }

  /** An object in use from step `i` to step `j` has before its `Set` at `j` what it had after the one at `i`. */
  lemma GrowsAfter<C>(states: seq<World<C>>, confs: seq<Option<TopConfig<C>>>, i: nat, j: nat, n: string)
    requires Trace(states, confs) && i < j < |confs| && ListedIn(confs, i, j + 1, n)
    ensures n in states[i + 1].objs && n in states[j].objs && states[j].objs[n] == states[i + 1].objs[n]
    ensures states[j].objs[n] < |states[i + 1].history| <= |states[j].history|
    ensures states[i + 1].history[states[j].objs[n]] <= states[j].history[states[j].objs[n]]
  {
    KeptThrough(states, confs, i, j - 1, n);
    ObjectsNumbered(states, confs, i, n);
    HistoryGrows(states, confs, i + 1, j);
  }

  lemma RevivedIsReused<C>(states: seq<World<C>>, confs: seq<Option<TopConfig<C>>>, i: nat, j: nat, n: string)
    requires Trace(states, confs) && RevivedAs(confs, i, j, n)
    ensures SomeReused(states[|confs|])
  {
    LastSet(states[i], confs[i], states[i + 1], n);
    GrowsAfter(states, confs, i, j, n);
    StepKept(states[j], confs[j], states[j + 1], n);
    HistoryGrows(states, confs, j + 1, |confs|);
    var obj := states[j].objs[n];
    var all := states[|confs|].history[obj];
    LastTwo(states[i + 1].history[obj], states[j].history[obj], Wanted(confs[j])[n], all);
    assert Reused(all);
  }

  lemma LastTwo<C>(early: seq<Option<C>>, later: seq<Option<C>>, last: Option<C>, all: seq<Option<C>>)
    requires early != [] && early <= later && later + [last] <= all
    requires early[|early| - 1].None? && last.Some?
    ensures Reused(all)
  {
    var a, b := |early| - 1, |later|;
    assert all[a] == (later + [last])[a] == early[a] && all[b] == (later + [last])[b];
  }

  /** How an object in use came to have a deleting `Set` behind it. */
  lemma {:induction false} DeletedButListed<C>(states: seq<World<C>>, confs: seq<Option<TopConfig<C>>>, j: nat, n: string, a: nat)
      returns (i: nat)
    requires Trace(states, confs) && j <= |confs| && n in states[j].objs
    requires states[j].objs[n] < |states[j].history| && a < |states[j].history[states[j].objs[n]]|
    requires states[j].history[states[j].objs[n]][a].None?
    ensures i < j && ListedIn(confs, i, j, n) && n in Wanted(confs[i]) && Wanted(confs[i])[n].None?
    decreases j
  {
    assert j > 0;
    var before, conf, after := states[j - 1], confs[j - 1], states[j];
    assert Step(before, conf, after);
    LastSet(before, conf, after, n);
    if a == |after.history[after.objs[n]]| - 1 {
      i := j - 1;
    } else {
      if n !in before.objs {
        StepMade(before, conf, after, n);
      }
      StepKept(before, conf, after, n);
      i := DeletedButListed(states, confs, j - 1, n, a);
    }
  }

  lemma {:induction false} ReusedIsRevived<C>(states: seq<World<C>>, confs: seq<Option<TopConfig<C>>>, j: nat, obj: nat)
    requires Trace(states, confs) && j <= |confs|
    requires obj < |states[j].history| && Reused(states[j].history[obj])
    ensures Revived(confs)
    decreases j
  {
    assert j > 0;
    var before, conf, after := states[j - 1], confs[j - 1], states[j];
    assert Step(before, conf, after);
    if obj < |before.history| && Reused(before.history[obj]) {
      ReusedIsRevived(states, confs, j - 1, obj);
    } else {
      var n, a := ReusedNow(before, conf, after, obj);
      var i := DeletedButListed(states, confs, j - 1, n, a);
      assert RevivedAs(confs, i, j - 1, n);
    }
  }

  /** The step at which an object is first configured after its delete. */
  lemma ReusedNow<C>(before: World<C>, conf: Option<TopConfig<C>>, after: World<C>, obj: nat) returns (n: string, a: nat)
    requires Step(before, conf, after) && obj < |after.history| && Reused(after.history[obj])
    requires obj < |before.history| ==> !Reused(before.history[obj])
    ensures n in before.objs && before.objs[n] == obj < |before.history|
    ensures a < |before.history[obj]| && before.history[obj][a].None?
    ensures n in Wanted(conf) && Wanted(conf)[n].Some?
  {
    NewNotReused(before, conf, after);
    assert obj in before.objs.Values;
    n :| n in before.objs && before.objs[n] == obj;
    a := ReusedByLast(before.history[obj], Added(before, Wanted(conf), n)[0]);
    assert after.history[obj] == before.history[obj] + [Added(before, Wanted(conf), n)[0]];
  }

  lemma NewNotReused<C>(before: World<C>, conf: Option<TopConfig<C>>, after: World<C>)
    requires Step(before, conf, after)
    ensures forall k :: |before.history| <= k < |after.history| ==> !Reused(after.history[k])
  {
    forall k | |before.history| <= k < |after.history|
      ensures |after.history[k]| == 1
    {
      assert k in after.objs.Values;
      var m :| m in after.objs && after.objs[m] == k;
      StepNew(before, conf, after, m);
    }
  }

  lemma StepNew<C>(before: World<C>, conf: Option<TopConfig<C>>, after: World<C>, n: string)
    requires Step(before, conf, after) && n in after.objs && |before.history| <= after.objs[n]
    ensures after.history[after.objs[n]] == [Wanted(conf)[n]]
  {
  }

  lemma ReusedByLast<C>(h: seq<Option<C>>, last: Option<C>) returns (a: nat)
    ensures Reused(h + [last]) ==> Reused(h) || (a < |h| && h[a].None? && last.Some?)
  {
    a := 0;
    if i, j :| 0 <= i < j < |h + [last]| && (h + [last])[i].None? && (h + [last])[j].Some? {
      a := i;
      assert j < |h| ==> h[i].None? && h[j].Some?;
    }
  }

  /**
   Some object is configured again after its delete exactly when some instance is listed
   without the service, and, staying listed, with it later.
   */
  lemma ReusedExactlyWhenRevived<C>(states: seq<World<C>>, confs: seq<Option<TopConfig<C>>>)
    requires Trace(states, confs)
    ensures SomeReused(states[|confs|]) <==> Revived(confs)
  {
    if SomeReused(states[|confs|]) {
      var k :| 0 <= k < |states[|confs|].history| && Reused(states[|confs|].history[k]);
      ReusedIsRevived(states, confs, |confs|, k);
    }
    if Revived(confs) {
      var i: nat, j: nat, n: string :| RevivedAs(confs, i, j, n);
      RevivedIsReused(states, confs, i, j, n);
    }
  }

  /** Every instance listed has the service configured. */
  ghost predicate AllConfigured<C>(confs: seq<Option<TopConfig<C>>>) {
    forall i, n :: 0 <= i < |confs| && n in Wanted(confs[i]) ==> Wanted(confs[i])[n].Some?
  }

  /** Then no object gets a `Set` after its delete. */
  lemma DeleteIsLast<C>(states: seq<World<C>>, confs: seq<Option<TopConfig<C>>>, k: nat, a: nat)
    requires Trace(states, confs) && AllConfigured(confs)
    requires k < |states[|confs|].history| && a < |states[|confs|].history[k]| && states[|confs|].history[k][a].None?
    ensures a == |states[|confs|].history[k]| - 1 && k !in states[|confs|].objs.Values
  {
    DeleteLastAt(states, confs, |confs|, k, a);
  }

  lemma {:induction false} DeleteLastAt<C>(states: seq<World<C>>, confs: seq<Option<TopConfig<C>>>, j: nat, k: nat, a: nat)
    requires Trace(states, confs) && AllConfigured(confs) && j <= |confs|
    requires k < |states[j].history| && a < |states[j].history[k]| && states[j].history[k][a].None?
    ensures a == |states[j].history[k]| - 1 && k !in states[j].objs.Values
    decreases j
  {
    if k in states[j].objs.Values {
      var n :| n in states[j].objs && states[j].objs[n] == k;
      var i := DeletedButListed(states, confs, j, n, a);
      assert false;
    }
    assert Step(states[j - 1], confs[j - 1], states[j]);
    if a != |states[j].history[k]| - 1 {
      assert k < |states[j - 1].history|;
      if k in states[j - 1].objs.Values {
        var n :| n in states[j - 1].objs && states[j - 1].objs[n] == k;
        assert states[j].history[k] == states[j - 1].history[k] + Added(states[j - 1], Wanted(confs[j - 1]), n);
        DeleteLastAt(states, confs, j - 1, k, a);
        assert false;
      } else {
        DeleteLastAt(states, confs, j - 1, k, a);
      }
    }
  }

  // ------------------------------------------------------------ forwarding objects

  /** An object's `Set`s, with how each ended. */
  ghost predicate Carries(ops: seq<F.SetOp>, history: seq<Option<ForwardingData.ConfigData>>) {
    |ops| == |history| && forall i :: 0 <= i < |ops| ==> ops[i].conf == history[i]
  }

  lemma ReuseCarried(ops: seq<F.SetOp>, history: seq<Option<ForwardingData.ConfigData>>)
    requires Carries(ops, history)
    ensures G.Reused(ops) ==> Reused(history)
  {
  }

  /** However the updates end, no forwarding object closes a watcher twice, or itself calls its process after Stop. */
  lemma ForwardingLinear(states: seq<World<ForwardingData.ConfigData>>, confs: seq<Option<TopConfig<ForwardingData.ConfigData>>>,
                         k: nat, p: ForwardingData.Paths, ops: seq<F.SetOp>)
    requires Trace(states, confs) && !Revived(confs)
    requires k < |states[|confs|].history| && Carries(ops, states[|confs|].history[k])
    ensures !G.Broken(F.Run(p, ops))
  {
    ReusedExactlyWhenRevived(states, confs);
    ReuseCarried(ops, states[|confs|].history[k]);
    G.LinearUnlessReused(p, ops);
  }

  /**
   So a call of an object's process can be left waiting for ever exactly when something other
   than the object's `Set` (a handler, a state read, a reset) calls it after `Set`'s Stop.
   */
  lemma ForwardingServedExactly(states: seq<World<ForwardingData.ConfigData>>,
                                confs: seq<Option<TopConfig<ForwardingData.ConfigData>>>,
                                k: nat, p: ForwardingData.Paths, ops: seq<F.SetOp>,
                                s: VrfProtocol.State, order: seq<VrfLoop.Request>, mine: set<nat>)
    requires Trace(states, confs) && !Revived(confs)
    requires k < |states[|confs|].history| && Carries(ops, states[|confs|].history[k])
    requires VrfProtocol.Init(s) && P.Mixed(order, mine, F.Run(p, ops).calls)
    ensures P.CanLeaveWaiting(s, order, mine) <==> P.OtherAfterStop(order, mine)
    ensures !VrfClients.CanPanic(s, order)
  {
    ReusedExactlyWhenRevived(states, confs);
    ReuseCarried(ops, states[|confs|].history[k]);
    P.InstanceServedExactly(p, ops, s, order, mine);
  }

  /** An object's process has been stopped exactly when its instance is listed without the service. */
  lemma StoppedExactlyWithoutService(states: seq<World<ForwardingData.ConfigData>>,
                                     confs: seq<Option<TopConfig<ForwardingData.ConfigData>>>,
                                     n: string, p: ForwardingData.Paths, ops: seq<F.SetOp>)
    requires Trace(states, confs) && confs != [] && !Revived(confs) && n in Wanted(confs[|confs| - 1])
    requires n in states[|confs|].objs && states[|confs|].objs[n] < |states[|confs|].history|
    requires Carries(ops, states[|confs|].history[states[|confs|].objs[n]])
    ensures VrfLoop.Stop in F.Run(p, ops).calls <==> Wanted(confs[|confs| - 1])[n].None?
    ensures !G.Reused(ops)
  {
    var last := |confs| - 1;
    var h := states[|confs|].history[states[|confs|].objs[n]];
    ReusedExactlyWhenRevived(states, confs);
    ReuseCarried(ops, h);
    assert Step(states[last], confs[last], states[last + 1]);
    LastSet(states[last], confs[last], states[last + 1], n);
    assert !Reused(h);
    assert G.HasDelete(ops) <==> h[|h| - 1].None? by {
      if h[|h| - 1].None? {
        assert ops[|h| - 1].conf.None?;
      }
    }
    G.RunPhase(p, ops);
  }

  /**
   A state read, or a reset, of an instance in the map: while nobody else has called after
   Stop, it can end in a call left waiting for ever exactly when the instance is listed
   without forwarding.
   */
  lemma ReadReachesStopped(states: seq<World<ForwardingData.ConfigData>>,
                           confs: seq<Option<TopConfig<ForwardingData.ConfigData>>>,
                           n: string, p: ForwardingData.Paths, ops: seq<F.SetOp>,
                           s: VrfProtocol.State, order: seq<VrfLoop.Request>, mine: set<nat>, read: VrfLoop.Request)
    requires Trace(states, confs) && confs != [] && !Revived(confs) && n in Wanted(confs[|confs| - 1])
    requires n in states[|confs|].objs && states[|confs|].objs[n] < |states[|confs|].history|
    requires Carries(ops, states[|confs|].history[states[|confs|].objs[n]])
    requires VrfProtocol.Init(s) && P.Mixed(order, mine, F.Run(p, ops).calls) && !P.OtherAfterStop(order, mine)
    requires VrfClients.OwnChannels(order + [read]) && read.id !in mine && !read.action.Stop?
    ensures P.CanLeaveWaiting(s, order + [read], mine) <==> Wanted(confs[|confs| - 1])[n].None?
  {
    StoppedExactlyWithoutService(states, confs, n, p, ops);
    P.OneMoreCall(p, ops, s, order, mine, read);
  }

  /** The first `Set`, of one routing instance without the service. */
  lemma OneWithoutService<C>(n: string) returns (states: seq<World<C>>, confs: seq<Option<TopConfig<C>>>)
    ensures Trace(states, confs) && confs == [Some(TopConfig(None, [RoutingInstance(n, None)]))]
    ensures |states| == 2 && states[1] == World(map[n := 0], [[None]])
  {
    var ris: seq<RoutingInstance<C>> := [RoutingInstance(n, None)];
    confs := [Some(TopConfig(None, ris))];
    assert ris[..|ris| - 1] == [];
    assert Wanted(confs[0]) == Listed(None, ris[..|ris| - 1])[n := None] == map[n := None];
    states := [World(map[], []), World(map[n := 0], [[None]])];
    assert n in states[1].objs && states[1].objs[n] == 0;
    assert Step(states[0], confs[0], states[1]);
  }

  lemma DeletedAtOnce(p: ForwardingData.Paths) returns (ops: seq<F.SetOp>)
    ensures ops == [F.SetOp(None, F.Success)] && G.HasDelete(ops) && !G.Reused(ops)
    ensures F.Run(p, ops).started == [] && F.Run(p, ops).calls == [VrfLoop.Stop]
  {
    ops := [F.SetOp(None, F.Success)];
    assert ops[..|ops| - 1] == [] && F.Run(p, []) == F.NEW && ops[0].conf.None?;
    assert F.Run(p, ops) == F.Delete(F.NEW);
  }

  /**
   And that is ordinary: a routing instance configured without forwarding is at once stopped,
   before any watcher was started, and the next state read calls the stopped process.
   */
  lemma ReadOfUnconfigured(n: string, p: ForwardingData.Paths, s: VrfProtocol.State, sig: int)
      returns (states: seq<World<ForwardingData.ConfigData>>, confs: seq<Option<TopConfig<ForwardingData.ConfigData>>>,
               ops: seq<F.SetOp>, order: seq<VrfLoop.Request>, mine: set<nat>)
    requires VrfProtocol.Init(s)
    ensures Trace(states, confs) && confs == [Some(TopConfig(None, [RoutingInstance(n, None)]))]
    ensures |states| == 2 && states[1] == World(map[n := 0], [[None]]) && Carries(ops, [None])
    ensures F.Run(p, ops).started == [] && F.Run(p, ops).calls == [VrfLoop.Stop]
    ensures VrfClients.Actions(order) == [VrfLoop.Stop, VrfLoop.Signal(sig)] && P.Mixed(order, mine, F.Run(p, ops).calls)
    ensures P.CanLeaveWaiting(s, order, mine)
  {
    states, confs := OneWithoutService(n);
    ops := DeletedAtOnce(p);
    order, mine := P.LateCallLeftWaiting(p, ops, s, VrfLoop.Signal(sig));
    StopThenSignal(order, mine, sig);
  }

  lemma StopThenSignal(order: seq<VrfLoop.Request>, mine: set<nat>, sig: int)
    requires P.Mixed(order, mine, [VrfLoop.Stop]) && |order| == 2 && order[1].action == VrfLoop.Signal(sig)
    ensures VrfClients.Actions(order) == [VrfLoop.Stop, VrfLoop.Signal(sig)]
  {
    P.StopMade(order, mine, [VrfLoop.Stop]);
  }

  /** And when they all succeed some object does exactly when an instance was revived. */
  lemma ForwardingBreaksWhenRevived(states: seq<World<ForwardingData.ConfigData>>,
                                    confs: seq<Option<TopConfig<ForwardingData.ConfigData>>>,
                                    ps: seq<ForwardingData.Paths>, ops: seq<seq<F.SetOp>>)
    requires Trace(states, confs) && |ps| == |ops| == |states[|confs|].history|
    requires forall k :: 0 <= k < |ops| ==> Carries(ops[k], states[|confs|].history[k]) && G.AllSucceed(ops[k])
    ensures (exists k :: 0 <= k < |ops| && G.Broken(F.Run(ps[k], ops[k]))) <==> Revived(confs)
  {
    ReusedExactlyWhenRevived(states, confs);
    forall k | 0 <= k < |ops|
      ensures G.Broken(F.Run(ps[k], ops[k])) <==> Reused(states[|confs|].history[k])
    {
      G.LinearUnlessReused(ps[k], ops[k]);
      SameReuse(ops[k], states[|confs|].history[k]);
    }
    if SomeReused(states[|confs|]) {
      var k :| 0 <= k < |states[|confs|].history| && Reused(states[|confs|].history[k]);
      assert G.Broken(F.Run(ps[k], ops[k]));
    }
  }

  lemma SameReuse(ops: seq<F.SetOp>, history: seq<Option<ForwardingData.ConfigData>>)
    requires Carries(ops, history) && G.AllSucceed(ops)
    ensures G.Reused(ops) <==> Reused(history)
  {
  }
}
