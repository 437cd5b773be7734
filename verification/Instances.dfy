/**
 The top level (config.go): one object per routing instance, kept, made and dropped as
 the configuration names them.  Forwarding and dynamic DNS are reconciled alike, so the
 type of an instance's configuration is a parameter.
 */
module Instances {
  import opened Wrappers

  datatype RoutingInstance<C> = RoutingInstance(name: string, conf: Option<C>)

  datatype TopConfig<C> = TopConfig(default: Option<C>, instances: seq<RoutingInstance<C>>)

  /** The configuration each instance should get; a routing instance may have none of this service. */
  function Listed<C>(default: Option<C>, instances: seq<RoutingInstance<C>>): map<string, Option<C>> {
    if instances == [] then
      if default.Some? then map["default" := default] else map[]
    else
      var last := instances[|instances| - 1];
      Listed(default, instances[..|instances| - 1])[last.name := last.conf]
  }

  function Wanted<C>(conf: Option<TopConfig<C>>): map<string, Option<C>> {
    if conf.Some? then Listed(conf.value.default, conf.value.instances) else map[]
  }

  /** The objects by name, and the `Set`s each was given, by number. */
  datatype World<C> = World(objs: map<string, nat>, history: seq<seq<Option<C>>>)

  /** The objects of `before` after `done` of them were looked at: those not wanted got a deleting `Set`. */
  ghost predicate Dropped<C>(before: World<C>, wanted: map<string, Option<C>>, done: set<string>, history: seq<seq<Option<C>>>)
    requires Numbered(before)
  {
    && |history| == |before.history|
    && (forall n :: n in before.objs ==>
          history[before.objs[n]] ==
            before.history[before.objs[n]] + if n in done && n !in wanted then [None] else [])
    && (forall k :: 0 <= k < |history| && k !in before.objs.Values ==> history[k] == before.history[k])
  }

  /** After `done` of the instances wanted were given their configuration. */
  ghost predicate Given<C>(before: World<C>, wanted: map<string, Option<C>>, done: set<string>,
                           dropped: seq<seq<Option<C>>>, t: World<C>)
    requires Numbered(before) && |dropped| == |before.history| && done <= wanted.Keys
  {
    && t.objs.Keys == done && Numbered(t) && Injective(t.objs)
    && |dropped| <= |t.history|
    && (forall n :: n in done && n in before.objs ==>
          t.objs[n] == before.objs[n] && t.history[t.objs[n]] == dropped[t.objs[n]] + [wanted[n]])
    && (forall n :: n in done && n !in before.objs ==>
          |dropped| <= t.objs[n] && t.history[t.objs[n]] == [wanted[n]])
    && (forall k :: 0 <= k < |dropped| && k !in t.objs.Values ==> t.history[k] == dropped[k])
    && (forall k :: |dropped| <= k < |t.history| ==> k in t.objs.Values)
  }

  ghost predicate Numbered<C>(w: World<C>) {
    forall n :: n in w.objs ==> w.objs[n] < |w.history|
  }

  /** What one `Set` adds to an object's history. */
  function Added<C>(before: World<C>, wanted: map<string, Option<C>>, n: string): seq<Option<C>> {
    [if n in wanted then wanted[n] else None]
  }

  /** Everything one `Set` does, in whatever order the maps are walked. */
  ghost predicate Step<C>(before: World<C>, conf: Option<TopConfig<C>>, t: World<C>) {
    var wanted := Wanted(conf);
    && Numbered(before) && Numbered(t) && Injective(t.objs)
    && t.objs.Keys == wanted.Keys && |before.history| <= |t.history|
    && (forall n :: n in before.objs ==>
          t.history[before.objs[n]] == before.history[before.objs[n]] + Added(before, wanted, n))
    && (forall k :: 0 <= k < |before.history| && k !in before.objs.Values ==> t.history[k] == before.history[k])
    && (forall n :: n in wanted && n in before.objs ==> t.objs[n] == before.objs[n])
    && (forall n :: n in wanted && n !in before.objs ==>
          |before.history| <= t.objs[n] && t.history[t.objs[n]] == [wanted[n]])
    && (forall k :: |before.history| <= k < |t.history| ==> k in t.objs.Values)
  }

  lemma BothLoops<C>(before: World<C>, conf: Option<TopConfig<C>>, dropped: seq<seq<Option<C>>>, t: World<C>)
    requires Numbered(before) && Injective(before.objs)
    requires Dropped(before, Wanted(conf), before.objs.Keys, dropped)
    requires Given(before, Wanted(conf), Wanted(conf).Keys, dropped, t)
    ensures Step(before, conf, t)
  {
    var wanted := Wanted(conf);
    forall n | n in before.objs
      ensures t.history[before.objs[n]] == before.history[before.objs[n]] + Added(before, wanted, n)
    {
      if n !in wanted {
        NotKept(before, wanted, t, n);
      }
    }
    forall k | 0 <= k < |before.history| && k !in before.objs.Values
      ensures t.history[k] == before.history[k]
    {
      forall n | n in t.objs
        ensures t.objs[n] != k
      {
        assert n in before.objs ==> before.objs[n] in before.objs.Values;
      }
    }
  }

  lemma NotKept<C>(before: World<C>, wanted: map<string, Option<C>>, t: World<C>, n: string)
    requires Numbered(before) && Injective(before.objs) && n in before.objs && n !in wanted
    requires t.objs.Keys == wanted.Keys
    requires forall m :: m in wanted && m in before.objs ==> t.objs[m] == before.objs[m]
    requires forall m :: m in wanted && m !in before.objs ==> |before.history| <= t.objs[m]
    ensures before.objs[n] !in t.objs.Values
  {
  }

  lemma ValuesMore(objs: map<string, nat>, n: string, obj: nat)
    requires n !in objs
    ensures objs[n := obj].Values == objs.Values + {obj}
  {
    var objs' := objs[n := obj];
    assert n in objs' && objs'[n] == obj;
    forall k | k in objs.Values
      ensures k in objs'.Values
    {
      var m :| m in objs && objs[m] == k;
      assert m in objs' && objs'[m] == k;
    }
  }

  lemma NotGiven<C>(before: World<C>, done: set<string>, t: World<C>, n: string, obj: nat)
    requires Numbered(before) && Injective(before.objs) && n !in done && t.objs.Keys == done && Numbered(t)
    requires forall m :: m in done && m in before.objs ==> t.objs[m] == before.objs[m]
    requires forall m :: m in done && m !in before.objs ==> |before.history| <= t.objs[m]
    requires if n in before.objs then obj == before.objs[n] else obj == |t.history|
    ensures obj !in t.objs.Values
  {
  }

  lemma KeepOneMore<C>(before: World<C>, wanted: map<string, Option<C>>, done: set<string>,
                       dropped: seq<seq<Option<C>>>, t: World<C>, n: string)
    requires Numbered(before) && Injective(before.objs) && |dropped| == |before.history|
    requires done <= wanted.Keys && n in wanted && n !in done && n in before.objs
    requires Given(before, wanted, done, dropped, t)
    ensures var obj := before.objs[n];
            Given(before, wanted, done + {n}, dropped,
                  World(t.objs[n := obj], t.history[obj := t.history[obj] + [wanted[n]]]))
  {
    var obj := before.objs[n];
    NotGiven(before, done, t, n, obj);
    ValuesMore(t.objs, n, obj);
    var history := t.history[obj := t.history[obj] + [wanted[n]]];
    forall m | m in t.objs
      ensures t.objs[m] != obj && history[t.objs[m]] == t.history[t.objs[m]]
    {
      assert t.objs[m] in t.objs.Values;
    }
  }

  lemma MakeOneMore<C>(before: World<C>, wanted: map<string, Option<C>>, done: set<string>,
                       dropped: seq<seq<Option<C>>>, t: World<C>, n: string)
    requires Numbered(before) && Injective(before.objs) && |dropped| == |before.history|
    requires done <= wanted.Keys && n in wanted && n !in done && n !in before.objs
    requires Given(before, wanted, done, dropped, t)
    ensures Given(before, wanted, done + {n}, dropped,
                  World(t.objs[n := |t.history|], t.history + [[wanted[n]]]))
  {
    ValuesMore(t.objs, n, |t.history|);
  }

  lemma DropOneMore<C>(before: World<C>, wanted: map<string, Option<C>>, done: set<string>,
                       history: seq<seq<Option<C>>>, n: string)
    requires Numbered(before) && Injective(before.objs) && n in before.objs && n !in done
    requires Dropped(before, wanted, done, history)
    ensures Dropped(before, wanted, done + {n},
                    if n in wanted then history else history[before.objs[n] := history[before.objs[n]] + [None]])
  {
  }

  // ------------------------------------------------------------ the object

  /** The instances of one service. */
  class Config<C(==)> {
    var instances: map<string, nat>
    var history: seq<seq<Option<C>>>

    ghost function Abs(): World<C>
      reads this
    {
      World(instances, history)
    }

    constructor ()
      ensures Abs() == World(map[], [])
    {
      instances, history := map[], [];
    }

    method WantedInstances(conf: Option<TopConfig<C>>) returns (wanted: map<string, Option<C>>)
      ensures wanted == Wanted(conf)
    {
      wanted := map[];
      if conf.Some? {
        if conf.value.default.Some? {
          wanted := wanted["default" := conf.value.default];
        }
        var ris := conf.value.instances;
        var n := 0;
        while n < |ris|
          invariant 0 <= n <= |ris| && wanted == Listed(conf.value.default, ris[..n])
        {
          assert ris[..n + 1][..n] == ris[..n];
          wanted := wanted[ris[n].name := ris[n].conf];
          n := n + 1;
        }
        assert ris[..n] == ris;
      }
    }

    method DeleteUnwanted(wanted: map<string, Option<C>>)
      requires Numbered(Abs()) && Injective(instances)
      modifies this`history
      ensures Dropped(old(Abs()), wanted, instances.Keys, history)
    {
      var done: set<string> := {};
      ghost var before := Abs();
      while done != instances.Keys
        invariant done <= instances.Keys
        invariant Dropped(before, wanted, done, history)
        decreases instances.Keys - done
      {
        SomeLeft(done, instances.Keys);
        var n :| n in instances.Keys - done;
        DropOneMore(before, wanted, done, history, n);
        if n !in wanted {
          history := history[instances[n] := history[instances[n]] + [None]];
        }
        done := done + {n};
      }
    }

    method GiveOne(ghost before: World<C>, wanted: map<string, Option<C>>, ghost done: set<string>,
                   ghost dropped: seq<seq<Option<C>>>, n: string, objs: map<string, nat>) returns (objs': map<string, nat>)
      requires instances == before.objs && Numbered(before) && Injective(instances) && |dropped| == |before.history|
      requires done <= wanted.Keys && n in wanted && n !in done
      requires Given(before, wanted, done, dropped, World(objs, history))
      modifies this`history
      ensures Given(before, wanted, done + {n}, dropped, World(objs', history))
    {
      var obj: nat;
      if n in instances {
        KeepOneMore(before, wanted, done, dropped, World(objs, history), n);
        obj := instances[n];
        history := history[obj := history[obj] + [wanted[n]]];
      } else {
        MakeOneMore(before, wanted, done, dropped, World(objs, history), n);
        obj := |history|;
        history := history + [[wanted[n]]];
      }
      objs' := objs[n := obj];
    }

    method SetWanted(wanted: map<string, Option<C>>, ghost before: World<C>)
      requires instances == before.objs && Numbered(before) && Injective(instances)
      requires Dropped(before, wanted, before.objs.Keys, history)
      modifies this
      ensures Given(before, wanted, wanted.Keys, old(history), Abs())
    {
      var objs: map<string, nat> := map[];
      var done: set<string> := {};
      ghost var dropped := history;
      while done != wanted.Keys
        invariant done <= wanted.Keys && instances == before.objs
        invariant Given(before, wanted, done, dropped, World(objs, history))
        decreases wanted.Keys - done
      {
        SomeLeft(done, wanted.Keys);
        var n :| n in wanted.Keys - done;
        objs := GiveOne(before, wanted, done, dropped, n, objs);
        done := done + {n};
      }
      instances := objs;
    }

    /** `Set`, for one service. */
    method Sync(conf: Option<TopConfig<C>>)
      requires Numbered(Abs()) && Injective(instances)
      modifies this
      ensures Step(old(Abs()), conf, Abs())
    {
      ghost var before := Abs();
      var wanted := WantedInstances(conf);
      DeleteUnwanted(wanted);
      ghost var dropped := history;
      SetWanted(wanted, before);
      BothLoops(before, conf, dropped, Abs());
    }
  }
}
