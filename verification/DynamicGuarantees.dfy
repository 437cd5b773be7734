/**
 What any run of `Set`s of dynamic DNS keeps: which processes run, how they are
 used, and which files there are (internal/dynamic/config.go).
 */
module DynamicGuarantees {
  import opened Wrappers
  import opened VrfLoop
  import opened VrfProtocol
  import opened VrfClients
  import opened DynamicFiles
  import opened DynamicConfig

  /** One `Set`; the date only goes into the files' comments. */
  datatype SetOp = SetOp(conf: Option<seq<Interface>>, date: string)

  /** A new object, with none of the files it would write lying about. */
  ghost predicate Fresh(d: Dirs, s: World) {
    && s.config == [] && s.running == map[] && s.log == [] && s.made == []
    && forall n :: ConfFile(d, n) !in s.files && EnvFile(d, n) !in s.files
  }

  ghost predicate Trace(d: Dirs, instance: string, states: seq<World>, sets: seq<SetOp>) {
    && |states| == |sets| + 1
    && forall i :: 0 <= i < |sets| ==> Step(d, instance, states[i], sets[i].conf, sets[i].date, states[i + 1])
  }

  // ------------------------------------------------------------ processes

  /** Stop is the last call of a process. */
  ghost predicate StopIsLast(log: seq<ProcCall>) {
    forall i, j :: 0 <= i < j < |log| && log[i].action.Stop? ==> log[j].pid != log[i].pid
  }

  /** The running processes are exactly the configured interfaces', each its own, and none was stopped. */
  ghost predicate Linear(s: World) {
    && s.running.Keys == ByName(s.config).Keys
    && Injective(s.running) && Numbered(s.running, s.made)
    && (forall n :: n in s.running ==> s.made[s.running[n]] == Unit(n))
    && (forall i :: 0 <= i < |s.log| ==> s.log[i].pid < |s.made|)
    && (forall n :: n in s.running ==> ProcCall(s.running[n], Stop) !in s.log)
    && StopIsLast(s.log)
  }

  lemma {:induction false} NoRepeat(calls: seq<ProcCall>, all: set<ProcCall>)
    requires multiset(calls) == multiset(all)
    ensures forall i, j :: 0 <= i < j < |calls| ==> calls[i] != calls[j]
    ensures forall c :: c in calls <==> c in all
  {
    forall i, j | 0 <= i < j < |calls|
      ensures calls[i] != calls[j]
    {
      assert calls == calls[..i] + [calls[i]] + calls[i + 1..j] + [calls[j]] + calls[j + 1..];
      assert multiset(calls)[calls[i]] <= 1;
    }
    forall c
      ensures c in calls <==> c in all
    {
      assert c in calls <==> c in multiset(calls);
    }
  }

  /** Each of these calls is of `a`, on the process of one of `names`, and of each only once. */
  lemma CallsAre(calls: seq<ProcCall>, names: set<string>, procs: map<string, nat>, a: Action)
    requires OnceEach(calls, names, procs, a)
    ensures forall i :: 0 <= i < |calls| ==> calls[i].action == a && exists n :: n in names && procs[n] == calls[i].pid
    ensures forall i, j :: 0 <= i < j < |calls| ==> calls[i].pid != calls[j].pid
    ensures forall n :: n in names ==> ProcCall(procs[n], a) in calls
  {
    NoRepeat(calls, CallsOn(names, procs, a));
    forall i | 0 <= i < |calls|
      ensures calls[i].action == a && exists n :: n in names && procs[n] == calls[i].pid
    {
      assert calls[i] in CallsOn(names, procs, a);
    }
    forall i, j | 0 <= i < j < |calls|
      ensures calls[i].pid != calls[j].pid
    {
      assert calls[i].action == calls[j].action;
    }
    forall n | n in names
      ensures ProcCall(procs[n], a) in calls
    {
      assert ProcCall(procs[n], a) in CallsOn(names, procs, a);
    }
  }

  lemma NameOf(calls: seq<ProcCall>, names: set<string>, procs: map<string, nat>, a: Action, i: nat) returns (n: string)
    requires OnceEach(calls, names, procs, a) && i < |calls|
    ensures n in names && procs[n] == calls[i].pid
  {
    CallsAre(calls, names, procs, a);
    assert calls[i].action == a;
    n :| n in names && procs[n] == calls[i].pid;
  }

  /** Stops of processes not stopped before, and then calls of others: Stop stays each process's last call. */
  lemma StopsGoLast(log: seq<ProcCall>, stops: seq<ProcCall>, reloads: seq<ProcCall>)
    requires StopIsLast(log)
    requires forall i :: 0 <= i < |stops| ==> forall k :: 0 <= k < |log| && log[k].action.Stop? ==> log[k].pid != stops[i].pid
    requires forall i, j :: 0 <= i < j < |stops| ==> stops[i].pid != stops[j].pid
    requires forall i :: 0 <= i < |reloads| ==> !reloads[i].action.Stop?
    requires forall i :: 0 <= i < |reloads| ==> forall k :: 0 <= k < |log| && log[k].action.Stop? ==> log[k].pid != reloads[i].pid
    requires forall i, j :: 0 <= i < |stops| && 0 <= j < |reloads| ==> stops[i].pid != reloads[j].pid
    ensures StopIsLast(log + stops + reloads)
  {
  }

  lemma StoppedBefore(s: World)
    requires Linear(s)
    ensures forall n, k :: n in s.running && 0 <= k < |s.log| && s.log[k].action.Stop? ==> s.log[k].pid != s.running[n]
  {
  }

  /** The processes running after a step were never stopped and are not those the step stops. */
  lemma ProcessesApart(s: World, names: set<string>, procs: map<string, nat>, made: seq<string>)
    requires Linear(s) && Processes(names, s, procs, made)
    ensures Injective(procs) && Numbered(procs, made)
    ensures forall n :: n in procs ==> made[procs[n]] == Unit(n)
    ensures forall n, k :: n in procs && 0 <= k < |s.log| && s.log[k].action.Stop? ==> s.log[k].pid != procs[n]
    ensures forall n, m :: n in procs && m in s.running && m !in names ==> procs[n] != s.running[m]
  {
  }

  lemma LogKeepsStopLast(s: World, procs: map<string, nat>, made: seq<string>, names: set<string>,
                         stops: seq<ProcCall>, reloads: seq<ProcCall>, gone: set<string>, changed: set<string>)
    requires Linear(s) && Processes(names, s, procs, made)
    requires gone == s.running.Keys - names && changed <= names
    requires OnceEach(stops, gone, s.running, Stop) && OnceEach(reloads, changed, procs, Reload)
    ensures StopIsLast(s.log + stops + reloads)
  {
    CallsAre(stops, gone, s.running, Stop);
    CallsAre(reloads, changed, procs, Reload);
    StoppedBefore(s);
    ProcessesApart(s, names, procs, made);
    forall i, j | 0 <= i < |stops| && 0 <= j < |reloads|
      ensures stops[i].pid != reloads[j].pid
    {
      var m := NameOf(stops, gone, s.running, Stop, i);
      var n := NameOf(reloads, changed, procs, Reload, j);
    }
    StopsGoLast(s.log, stops, reloads);
  }

  lemma LogNumbered(s: World, procs: map<string, nat>, made: seq<string>, names: set<string>,
                    stops: seq<ProcCall>, reloads: seq<ProcCall>, gone: set<string>, changed: set<string>)
    requires Linear(s) && Processes(names, s, procs, made)
    requires gone == s.running.Keys - names && changed <= names
    requires OnceEach(stops, gone, s.running, Stop) && OnceEach(reloads, changed, procs, Reload)
    ensures var log := s.log + stops + reloads;
            && (forall i :: 0 <= i < |log| ==> log[i].pid < |made|)
            && (forall n :: n in procs ==> ProcCall(procs[n], Stop) !in log)
  {
    CallsAre(stops, gone, s.running, Stop);
    CallsAre(reloads, changed, procs, Reload);
    ProcessesApart(s, names, procs, made);
    forall n | n in procs
      ensures ProcCall(procs[n], Stop) !in s.log + stops + reloads
    {
      var c := ProcCall(procs[n], Stop);
      assert c !in s.log;
      assert c !in stops;
      assert c !in reloads;
    }
  }

  /** A step keeps the use of processes linear, whatever is configured. */
  lemma StepLinear(d: Dirs, instance: string, s: World, op: SetOp, t: World)
    requires Linear(s) && Step(d, instance, s, op.conf, op.date, t)
    ensures Linear(t)
  {
    var before, after := ByName(s.config), ByName(Interfaces(op.conf));
    var gone, changed := Gone(before, after), Changed(before, after);
    var stops, reloads := CalledParts(s.log, t.log, gone, s.running, changed, t.running);
    ProcessesApart(s, after.Keys, t.running, t.made);
    LogKeepsStopLast(s, t.running, t.made, after.Keys, stops, reloads, gone, changed);
    LogNumbered(s, t.running, t.made, after.Keys, stops, reloads, gone, changed);
  }

  /** Over any run of `Set`s each process is stopped at most once and never used again. */
  lemma {:induction false} RunLinear(d: Dirs, instance: string, states: seq<World>, sets: seq<SetOp>)
    requires Trace(d, instance, states, sets) && Fresh(d, states[0])
    ensures forall i :: 0 <= i <= |sets| ==> Linear(states[i])
  {
    if sets != [] {
      var n := |sets| - 1;
      var earlier := states[..n + 1];
      RunLinear(d, instance, earlier, sets[..n]);
      assert forall i :: 0 <= i <= n ==> states[i] == earlier[i];
      assert Linear(earlier[n]) && states[n] == earlier[n];
      StepLinear(d, instance, states[n], sets[n], states[n + 1]);
    }
  }

  /** An interface added again gets a process that was never called. */
  lemma ReaddedIsFresh(d: Dirs, instance: string, s: World, op: SetOp, t: World, n: string)
    requires Linear(s) && Step(d, instance, s, op.conf, op.date, t)
    requires n in t.running && n !in s.running
    ensures |s.made| <= t.running[n]
    ensures forall i :: 0 <= i < |s.log| ==> s.log[i].pid != t.running[n]
  {
  }

  // ------------------------------------------------------------ files

  /** No interface is configured that reads like a missing one. */
  predicate NoZero(intfs: seq<Interface>) {
    ZERO !in ByName(intfs).Values
  }

  /** An interface that reads like a missing one is only noticed where there was one of its name. */
  predicate Noticed(before: map<string, Interface>, intfs: seq<Interface>) {
    NoZero(intfs) || "" in before
  }

  /** `text` is the interface's file, whenever it was written. */
  ghost predicate Renders(d: Dirs, text: string, intf: Interface) {
    exists date :: text == ConfText(d, date, intf)
  }

  /** Interface `n` has its files, up to date, exactly if it is configured. */
  ghost predicate FileMatch(d: Dirs, instance: string, m: map<string, Interface>, files: map<string, string>, n: string) {
    if n in m
    then && ConfFile(d, n) in files && Renders(d, files[ConfFile(d, n)], m[n])
         && EnvFile(d, n) in files && files[EnvFile(d, n)] == EnvText(d, instance, n)
    else ConfFile(d, n) !in files && EnvFile(d, n) !in files
  }

  ghost predicate FilesMatch(d: Dirs, instance: string, m: map<string, Interface>, files: map<string, string>) {
    forall n :: FileMatch(d, instance, m, files, n)
  }

  lemma WithoutKeeps(files: map<string, string>, d: Dirs, names: set<string>, n: string)
    requires n !in names
    ensures !Belongs(d, names, ConfFile(d, n)) && !Belongs(d, names, EnvFile(d, n))
  {
    forall m | m in names
      ensures ConfFile(d, n) !in Files(d, m) && EnvFile(d, n) !in Files(d, m)
    {
      PathsApart(d, n, m);
      PathsApart(d, m, n);
    }
  }

  lemma WithoutDrops(files: map<string, string>, d: Dirs, names: set<string>, n: string)
    requires n in names
    ensures Belongs(d, names, ConfFile(d, n)) && Belongs(d, names, EnvFile(d, n))
  {
  }

  lemma NotWritten(d: Dirs, names: set<string>, n: string)
    requires n !in names
    ensures !Written(d, names, ConfFile(d, n)) && !Written(d, names, EnvFile(d, n))
  {
    forall m | m in names
      ensures ConfFile(d, n) != ConfFile(d, m) && ConfFile(d, n) != EnvFile(d, m)
      ensures EnvFile(d, n) != ConfFile(d, m) && EnvFile(d, n) != EnvFile(d, m)
    {
      PathsApart(d, n, m);
      PathsApart(d, m, n);
    }
  }

  /** An interface's files after a step that does not delete the configuration. */
  lemma StepFile(d: Dirs, instance: string, s: World, op: SetOp, t: World, n: string)
    requires op.conf.Some? && Noticed(ByName(s.config), op.conf.value)
    requires FilesMatch(d, instance, ByName(s.config), s.files) && Step(d, instance, s, op.conf, op.date, t)
    ensures FileMatch(d, instance, ByName(op.conf.value), t.files, n)
  {
    var before, after := ByName(s.config), ByName(op.conf.value);
    var gone, changed := Gone(before, after), Changed(before, after);
    assert FileMatch(d, instance, before, s.files, n);
    ByNameAgrees(op.conf.value);
    if n in changed {
      assert t.files[ConfFile(d, n)] == ConfText(d, op.date, after[n]);
    } else {
      NotWritten(d, changed, n);
      if n in after {
        assert after[n] in after.Values;
        WithoutKeeps(s.files, d, gone, n);
      } else if n in before {
        WithoutDrops(s.files, d, gone, n);
      }
    }
  }

  lemma DeletedFile(d: Dirs, instance: string, before: map<string, Interface>, files: map<string, string>, n: string)
    requires FileMatch(d, instance, before, files, n)
    ensures FileMatch(d, instance, map[], Cleaned(Without(files, d, before.Keys), d), n)
  {
  }

  /** An interface with no name and no services is not written where there was none of its name. */
  lemma UnnoticedNotWritten(d: Dirs, instance: string, s: World, op: SetOp, t: World)
    requires op.conf.Some? && !Noticed(ByName(s.config), op.conf.value)
    requires FilesMatch(d, instance, ByName(s.config), s.files) && Step(d, instance, s, op.conf, op.date, t)
    ensures !FileMatch(d, instance, ByName(op.conf.value), t.files, "")
  {
    var before, after := ByName(s.config), ByName(op.conf.value);
    ByNameAgrees(op.conf.value);
    assert FileMatch(d, instance, before, s.files, "");
    var n :| n in after && after[n] == ZERO;
    assert n == "" && "" !in Changed(before, after);
    NotWritten(d, Changed(before, after), "");
  }

  /**
   A step leaves exactly the files of the configuration it sets, exactly when the configuration
   has no interface with no name and no services, or there was one of no name before.
   */
  lemma StepFiles(d: Dirs, instance: string, s: World, op: SetOp, t: World)
    requires FilesMatch(d, instance, ByName(s.config), s.files) && Step(d, instance, s, op.conf, op.date, t)
    ensures FilesMatch(d, instance, ByName(t.config), t.files) <==> Noticed(ByName(s.config), Interfaces(op.conf))
  {
    var before := ByName(s.config);
    if !Noticed(before, Interfaces(op.conf)) {
      UnnoticedNotWritten(d, instance, s, op, t);
    } else {
      forall n
        ensures FileMatch(d, instance, ByName(t.config), t.files, n)
      {
        if op.conf.Some? {
          StepFile(d, instance, s, op, t, n);
        } else {
          assert FileMatch(d, instance, before, s.files, n);
          assert Gone(before, map[]) == before.Keys;
          DeletedFile(d, instance, before, s.files, n);
        }
      }
    }
  }

  /** `p` is in `files` exactly if it is in `files'`, with the same text. */
  predicate SameAt(files: map<string, string>, files': map<string, string>, p: string) {
    (p in files <==> p in files') && (p in files ==> files[p] == files'[p])
  }

  lemma ProcessFileNotOthers(d: Dirs, names: set<string>, n: string)
    ensures Belongs(d, names, PidFile(d, n)) <==> n in names
    ensures Belongs(d, names, CacheFile(d, n)) <==> n in names
    ensures !Written(d, names, PidFile(d, n)) && !Written(d, names, CacheFile(d, n))
  {
    forall m
      ensures PidFile(d, n) in Files(d, m) <==> m == n
      ensures CacheFile(d, n) in Files(d, m) <==> m == n
      ensures PidFile(d, n) != ConfFile(d, m) && PidFile(d, n) != EnvFile(d, m)
      ensures CacheFile(d, n) != ConfFile(d, m) && CacheFile(d, n) != EnvFile(d, m)
    {
      PathsApart(d, m, n);
      ProcessPathsApart(d, n, m);
      ProcessPathsApart(d, m, n);
    }
  }

  /**
   The process and cache files of an interface are removed with it and are otherwise left
   alone; with the configuration those of every interface go.
   */
  lemma StepProcessFiles(d: Dirs, instance: string, s: World, op: SetOp, t: World, n: string)
    requires Step(d, instance, s, op.conf, op.date, t)
    ensures var removed := op.conf.None? || (n in ByName(s.config) && n !in ByName(op.conf.value));
            if removed then PidFile(d, n) !in t.files && CacheFile(d, n) !in t.files
            else SameAt(s.files, t.files, PidFile(d, n)) && SameAt(s.files, t.files, CacheFile(d, n))
  {
    var before, after := ByName(s.config), ByName(Interfaces(op.conf));
    ProcessFileNotOthers(d, Gone(before, after), n);
    ProcessFileNotOthers(d, Changed(before, after), n);
  }

  /** With the configuration everything in the run and cache directories goes, other instances' files too. */
  lemma DeleteCleans(d: Dirs, instance: string, s: World, date: string, t: World, p: string)
    requires Step(d, instance, s, None, date, t)
    requires p == d.run || p == d.cache || d.run + "/" <= p || d.cache + "/" <= p
    ensures p !in t.files
  {
  }

  /** A file of no interface is left alone, unless it is in the directories that go with the configuration. */
  lemma StepOtherFiles(d: Dirs, instance: string, s: World, op: SetOp, t: World, p: string)
    requires Step(d, instance, s, op.conf, op.date, t)
    requires forall n :: p != ConfFile(d, n) && p != EnvFile(d, n) && p != PidFile(d, n) && p != CacheFile(d, n)
    requires op.conf.None? ==> p != d.run && p != d.cache && !(d.run + "/" <= p) && !(d.cache + "/" <= p)
    ensures SameAt(s.files, t.files, p)
  {
  }

  /** No step of a run leaves an interface unnoticed. */
  ghost predicate AllNoticed(states: seq<World>, sets: seq<SetOp>)
    requires |states| == |sets| + 1
  {
    forall i :: 0 <= i < |sets| ==> Noticed(ByName(states[i].config), Interfaces(sets[i].conf))
  }

  lemma {:induction false} RunFiles(d: Dirs, instance: string, states: seq<World>, sets: seq<SetOp>)
    requires Trace(d, instance, states, sets) && Fresh(d, states[0]) && AllNoticed(states, sets)
    ensures FilesMatch(d, instance, ByName(states[|sets|].config), states[|sets|].files)
  {
    if sets != [] {
      var n := |sets| - 1;
      RunFiles(d, instance, states[..n + 1], sets[..n]);
      StepFiles(d, instance, states[n], sets[n], states[n + 1]);
    }
  }

  /** An interface's files are there in both or in neither, and say the same. */
  ghost predicate SameFiles(d: Dirs, files: map<string, string>, files': map<string, string>, n: string) {
    && (ConfFile(d, n) in files <==> ConfFile(d, n) in files')
    && (ConfFile(d, n) in files && ConfFile(d, n) in files' ==>
          exists intf :: Renders(d, files[ConfFile(d, n)], intf) && Renders(d, files'[ConfFile(d, n)], intf))
    && (EnvFile(d, n) in files <==> EnvFile(d, n) in files')
    && (EnvFile(d, n) in files && EnvFile(d, n) in files' ==> files[EnvFile(d, n)] == files'[EnvFile(d, n)])
  }

  /**
   Incremental equals rebuild: after any run of `Set`s the interfaces running and the files
   present, with their texts but for the date, are those of any other run that ends in the
   same configuration, one `Set` on a new object among them.
   */
  lemma IncrementalEqualsRebuild(d: Dirs, instance: string, states: seq<World>, sets: seq<SetOp>,
                                 states': seq<World>, sets': seq<SetOp>)
    requires Trace(d, instance, states, sets) && Fresh(d, states[0]) && sets != []
    requires Trace(d, instance, states', sets') && Fresh(d, states'[0]) && sets' != []
    requires AllNoticed(states, sets) && AllNoticed(states', sets')
    requires Interfaces(sets[|sets| - 1].conf) == Interfaces(sets'[|sets'| - 1].conf)
    ensures states[|sets|].running.Keys == states'[|sets'|].running.Keys
    ensures forall n :: SameFiles(d, states[|sets|].files, states'[|sets'|].files, n)
  {
    RunLinear(d, instance, states, sets);
    RunLinear(d, instance, states', sets');
    RunFiles(d, instance, states, sets);
    RunFiles(d, instance, states', sets');
    LastConfig(d, instance, states, sets);
    LastConfig(d, instance, states', sets');
    var m := ByName(states[|sets|].config);
    var files, files' := states[|sets|].files, states'[|sets'|].files;
    forall n
      ensures SameFiles(d, files, files', n)
    {
      BothMatch(d, instance, m, files, files', n);
    }
  }

  lemma BothMatch(d: Dirs, instance: string, m: map<string, Interface>, files: map<string, string>,
                  files': map<string, string>, n: string)
    requires FilesMatch(d, instance, m, files) && FilesMatch(d, instance, m, files')
    ensures SameFiles(d, files, files', n)
  {
    assert FileMatch(d, instance, m, files, n) && FileMatch(d, instance, m, files', n);
  }

  lemma LastConfig(d: Dirs, instance: string, states: seq<World>, sets: seq<SetOp>)
    requires Trace(d, instance, states, sets) && sets != []
    ensures states[|sets|].config == Interfaces(sets[|sets| - 1].conf)
  {
  }

  // ------------------------------------------------------------ calls

  /** How often a step makes a call. */
  function Count(calls: seq<ProcCall>, c: ProcCall): nat {
    multiset(calls)[c]
  }

  /** One reload for an interface added or changed. */
  function Reloads(before: map<string, Interface>, after: map<string, Interface>, n: string): nat {
    if n in after && (n !in before || before[n] != after[n]) then 1 else 0
  }

  /** One stop for an interface removed. */
  function Stops(after: map<string, Interface>, n: string): nat {
    if n in after then 0 else 1
  }

  /** What a `Set` adds to the log. */
  function NewCalls(s: World, t: World): seq<ProcCall> {
    if |s.log| <= |t.log| then t.log[|s.log|..] else []
  }

  /** Each `Set` reloads once exactly the interfaces added or changed, and stops once exactly those removed. */
  lemma SetCalls(d: Dirs, instance: string, s: World, op: SetOp, t: World)
    requires Linear(s) && Step(d, instance, s, op.conf, op.date, t)
    requires Noticed(ByName(s.config), Interfaces(op.conf))
    ensures s.log <= t.log
    ensures var before, after := ByName(s.config), ByName(Interfaces(op.conf));
            && (forall n :: n in t.running ==>
                 Count(NewCalls(s, t), ProcCall(t.running[n], Reload)) == Reloads(before, after, n))
            && (forall n :: n in s.running ==>
                 Count(NewCalls(s, t), ProcCall(s.running[n], Stop)) == Stops(after, n))
  {
    StepLinear(d, instance, s, op, t);
    var before, after := ByName(s.config), ByName(t.config);
    var stops, reloads := CalledParts(s.log, t.log, Gone(before, after), s.running, Changed(before, after), t.running);
    ByNameAgrees(Interfaces(op.conf));
    LogCounts(ByName(s.config), ByName(t.config), s.running, t.running, stops, reloads);
  }

  lemma CalledParts(log: seq<ProcCall>, log': seq<ProcCall>, gone: set<string>, procs: map<string, nat>,
                    changed: set<string>, procs': map<string, nat>) returns (stops: seq<ProcCall>, reloads: seq<ProcCall>)
    requires Called(log, log', gone, procs, changed, procs')
    ensures log' == log + stops + reloads && log <= log' && log'[|log|..] == stops + reloads
    ensures OnceEach(stops, gone, procs, Stop) && OnceEach(reloads, changed, procs', Reload)
  {
    stops, reloads :| log' == log + stops + reloads
                      && OnceEach(stops, gone, procs, Stop) && OnceEach(reloads, changed, procs', Reload);
    assert log' == log + (stops + reloads);
  }

  lemma LogCounts(before: map<string, Interface>, after: map<string, Interface>, running: map<string, nat>,
                  running': map<string, nat>, stops: seq<ProcCall>, reloads: seq<ProcCall>)
    requires NamesAgree(after) && (ZERO !in after.Values || "" in before)
    requires running.Keys == before.Keys && Injective(running) && running'.Keys == after.Keys && Injective(running')
    requires OnceEach(stops, Gone(before, after), running, Stop)
    requires OnceEach(reloads, Changed(before, after), running', Reload)
    ensures forall n :: n in running' ==>
              Count(stops + reloads, ProcCall(running'[n], Reload)) == Reloads(before, after, n)
    ensures forall n :: n in running ==> Count(stops + reloads, ProcCall(running[n], Stop)) == Stops(after, n)
  {
  }

  /** What is removed is stopped before anything is reloaded. */
  lemma StopsFirst(d: Dirs, instance: string, s: World, op: SetOp, t: World)
    requires Step(d, instance, s, op.conf, op.date, t)
    ensures forall i, j :: 0 <= i < j < |NewCalls(s, t)| && NewCalls(s, t)[j].action.Stop? ==> NewCalls(s, t)[i].action.Stop?
    ensures forall i :: 0 <= i < |NewCalls(s, t)| ==> NewCalls(s, t)[i].action in {Stop, Reload}
  {
    var before, after := ByName(s.config), ByName(Interfaces(op.conf));
    var stops, reloads := CalledParts(s.log, t.log, Gone(before, after), s.running, Changed(before, after), t.running);
    AllOf(stops, Gone(before, after), s.running, Stop);
    AllOf(reloads, Changed(before, after), t.running, Reload);
    assert NewCalls(s, t) == stops + reloads;
  }

  lemma AllOf(calls: seq<ProcCall>, names: set<string>, procs: map<string, nat>, a: Action)
    requires OnceEach(calls, names, procs, a)
    ensures forall i :: 0 <= i < |calls| ==> calls[i].action == a
  {
    CallsAre(calls, names, procs, a);
  }

  /** What process `pid` was asked to do. */
  function CallsTo(log: seq<ProcCall>, pid: nat): seq<Action> {
    if log == [] then []
    else CallsTo(log[..|log| - 1], pid) + if log[|log| - 1].pid == pid then [log[|log| - 1].action] else []
  }

  /** So each process is a client that calls Stop at most once, last. */
  lemma {:induction false} EachClientStopsLast(log: seq<ProcCall>, pid: nat)
    requires StopIsLast(log)
    ensures StopOnlyLast(CallsTo(log, pid))
  {
    if log != [] {
      var n := |log| - 1;
      EachClientStopsLast(log[..n], pid);
      if log[n].pid == pid {
        assert forall i :: 0 <= i < n && log[..n][i].pid == pid ==> !log[..n][i].action.Stop?;
        NoStopYet(log[..n], pid);
      }
    }
  }

  lemma {:induction false} NoStopYet(log: seq<ProcCall>, pid: nat)
    requires forall i :: 0 <= i < |log| && log[i].pid == pid ==> !log[i].action.Stop?
    ensures Stop !in CallsTo(log, pid)
  {
    if log != [] {
      NoStopYet(log[..|log| - 1], pid);
    }
  }

  /**
   Dynamic DNS keeps the discipline its VRF-dependent processes need: after any run of
   `Set`s, the calls made of any one process, one after another, never leave it waiting.
   */
  lemma ProcessesServed(d: Dirs, instance: string, states: seq<World>, sets: seq<SetOp>, pid: nat,
                        p: State, es: seq<Event>)
    requires Trace(d, instance, states, sets) && Fresh(d, states[0])
    requires VrfProtocol.Init(p) && Legal(p, es) && Actions(Calls(es)) <= CallsTo(states[|sets|].log, pid)
    ensures var t := Exec(p, es);
            !t.panicked && (t.phase.Exited? ==> t.loop.ret.Keys == t.submitted.Keys)
  {
    RunLinear(d, instance, states, sets);
    EachClientStopsLast(states[|sets|].log, pid);
    PlannedCallsServed(p, es, CallsTo(states[|sets|].log, pid));
  }
}
