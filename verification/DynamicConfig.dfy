/**
 The dynamic DNS reconciler (internal/dynamic/config.go): each `Set` compares the
 interfaces configured with the new ones, stops and starts their processes and
 rewrites their files.
 */
module DynamicConfig {
  import opened Wrappers
  import opened VrfLoop
  import opened DynamicFiles

  /** A call of the process made as number `pid`. */
  datatype ProcCall = ProcCall(pid: nat, action: Action)

  /** The interfaces by name; of two with one name the last counts. */
  function ByName(intfs: seq<Interface>): map<string, Interface> {
    if intfs == [] then map[]
    else ByName(intfs[..|intfs| - 1])[intfs[|intfs| - 1].name := intfs[|intfs| - 1]]
  }

  /** What a `Set` can change; `made` has the unit of every process made, by number. */
  datatype World = World(
    config: seq<Interface>,
    running: map<string, nat>,
    files: map<string, string>,
    log: seq<ProcCall>,
    made: seq<string>)

  // ------------------------------------------------------------ what a Set does

  /** The interfaces to stop. */
  function Gone(before: map<string, Interface>, after: map<string, Interface>): set<string> {
    before.Keys - after.Keys
  }

  /** `reflect.DeepEqual` against what the old map gives, a missing entry reading as zero. */
  predicate Differs(before: map<string, Interface>, intf: Interface) {
    intf != if intf.name in before then before[intf.name] else ZERO
  }

  /** The interfaces to write and reload. */
  ghost function Changed(before: map<string, Interface>, after: map<string, Interface>): set<string> {
    set n | n in after && Differs(before, after[n])
  }

  predicate NamesAgree(m: map<string, Interface>) {
    forall n :: n in m ==> m[n].name == n
  }

  function CallsOn(names: set<string>, procs: map<string, nat>, a: Action): set<ProcCall> {
    set n | n in names && n in procs :: ProcCall(procs[n], a)
  }

  /** `calls` is one call of `a` on each of the processes of `names`, in some order. */
  ghost predicate OnceEach(calls: seq<ProcCall>, names: set<string>, procs: map<string, nat>, a: Action) {
    names <= procs.Keys && multiset(calls) == multiset(CallsOn(names, procs, a))
  }

  /** `p` is a file of one of `names`. */
  predicate Belongs(d: Dirs, names: set<string>, p: string) {
    exists n :: n in names && p in Files(d, n)
  }

  function Files(d: Dirs, n: string): set<string> {
    {ConfFile(d, n), PidFile(d, n), CacheFile(d, n), EnvFile(d, n)}
  }

  function Without(files: map<string, string>, d: Dirs, names: set<string>): map<string, string> {
    map p | p in files && !Belongs(d, names, p) :: files[p]
  }

  predicate Under(dir: string, p: string) {
    p == dir || dir + "/" <= p
  }

  /** The run and cache directories are removed with the configuration. */
  function Cleaned(files: map<string, string>, d: Dirs): map<string, string> {
    map p | p in files && !Under(d.run, p) && !Under(d.cache, p) :: files[p]
  }

  predicate Written(d: Dirs, names: set<string>, p: string) {
    exists n :: n in names && (p == ConfFile(d, n) || p == EnvFile(d, n))
  }

  /** `after` has the texts of `names`, and is otherwise `before`. */
  ghost predicate WroteAll(d: Dirs, instance: string, date: string, names: set<string>, m: map<string, Interface>,
                           before: map<string, string>, after: map<string, string>)
    requires names <= m.Keys
  {
    && (forall n :: n in names ==> ConfFile(d, n) in after && after[ConfFile(d, n)] == ConfText(d, date, m[n]))
    && (forall n :: n in names ==> EnvFile(d, n) in after && after[EnvFile(d, n)] == EnvText(d, instance, n))
    && (forall p :: p in after ==> Written(d, names, p) || (p in before && after[p] == before[p]))
    && (forall p :: p in before ==> p in after)
  }

  /** Kept interfaces keep their process, new ones get one of their own. */
  ghost predicate Processes(names: set<string>, s: World, procs: map<string, nat>, made: seq<string>) {
    && procs.Keys == names
    && s.made <= made
    && (forall n :: n in names && n in s.running ==> procs[n] == s.running[n])
    && (forall n :: n in names && n !in s.running ==> |s.made| <= procs[n] < |made| && made[procs[n]] == Unit(n))
    && (forall n, m :: n in names && m in names && n != m && n !in s.running && m !in s.running
                       ==> procs[n] != procs[m])
  }

  function Interfaces(conf: Option<seq<Interface>>): seq<Interface> {
    if conf.Some? then conf.value else []
  }

  /** The log grows by one Stop for each of `gone`, then one Reload for each of `changed`. */
  ghost predicate Called(log: seq<ProcCall>, log': seq<ProcCall>, gone: set<string>, procs: map<string, nat>,
                         changed: set<string>, procs': map<string, nat>) {
    exists stops, reloads ::
      && log' == log + stops + reloads
      && OnceEach(stops, gone, procs, Stop) && OnceEach(reloads, changed, procs', Reload)
  }

  /** What one `Set(conf)` does to the files. */
  ghost predicate FilesStep(d: Dirs, instance: string, date: string, before: map<string, Interface>,
                            conf: Option<seq<Interface>>, files: map<string, string>, files': map<string, string>)
  {
    var after := ByName(Interfaces(conf));
    var gone, changed := Gone(before, after), Changed(before, after);
    if conf.Some? then WroteAll(d, instance, date, changed, after, Without(files, d, gone), files')
    else files' == Cleaned(Without(files, d, gone), d)
  }

  /** Everything one `Set(conf)` does, in whatever order the maps are walked. */
  ghost predicate Step(d: Dirs, instance: string, s: World, conf: Option<seq<Interface>>, date: string, t: World) {
    var before, after := ByName(s.config), ByName(Interfaces(conf));
    var gone, changed := Gone(before, after), Changed(before, after);
    && t.config == Interfaces(conf)
    && Processes(after.Keys, s, t.running, t.made)
    && Called(s.log, t.log, gone, s.running, changed, t.running)
    && FilesStep(d, instance, date, before, conf, s.files, t.files)
  }

  // ------------------------------------------------------------ lemmas for the loops

  lemma {:induction false} ByNameAgrees(intfs: seq<Interface>)
    ensures NamesAgree(ByName(intfs))
    ensures forall i :: 0 <= i < |intfs| ==> intfs[i].name in ByName(intfs)
    ensures forall n :: n in ByName(intfs) ==> exists i :: 0 <= i < |intfs| && intfs[i].name == n
  {
    if intfs != [] {
      var k := |intfs| - 1;
      ByNameAgrees(intfs[..k]);
      forall n | n in ByName(intfs)
        ensures exists i :: 0 <= i < |intfs| && intfs[i].name == n
      {
        if n != intfs[k].name {
          var i :| 0 <= i < |intfs[..k]| && intfs[..k][i].name == n;
          assert intfs[i].name == n;
        }
      }
      forall i | 0 <= i < |intfs|
        ensures intfs[i].name in ByName(intfs)
      {
        if i < k {
          assert intfs[..k][i].name in ByName(intfs[..k]);
        }
      }
    }
  }

  /** `intf` is the last interface of name `n`. */
  predicate LastNamed(intfs: seq<Interface>, n: string, intf: Interface) {
    exists i :: 0 <= i < |intfs| && intfs[i] == intf && intf.name == n && NoneAfter(intfs, i, n)
  }

  predicate NoneAfter(intfs: seq<Interface>, i: nat, n: string) {
    forall j :: i < j < |intfs| ==> intfs[j].name != n
  }

  /** What stands under a name is the last interface of it. */
  lemma {:induction false} LastOfName(intfs: seq<Interface>, n: string)
    requires n in ByName(intfs)
    ensures LastNamed(intfs, n, ByName(intfs)[n])
  {
    var k := |intfs| - 1;
    if intfs[k].name == n {
      assert NoneAfter(intfs, k, n);
    } else {
      LastOfName(intfs[..k], n);
      var i :| 0 <= i < k && intfs[..k][i] == ByName(intfs)[n] && intfs[i].name == n && NoneAfter(intfs[..k], i, n);
      OneMoreAfter(intfs, i, n);
    }
  }

  lemma OneMoreAfter(intfs: seq<Interface>, i: nat, n: string)
    requires i < |intfs| - 1 && NoneAfter(intfs[..|intfs| - 1], i, n) && intfs[|intfs| - 1].name != n
    ensures NoneAfter(intfs, i, n)
  {
    forall j | i < j < |intfs| - 1
      ensures intfs[j].name != n
    {
      assert intfs[..|intfs| - 1][j] == intfs[j];
    }
  }

  lemma OnceEachMore(calls: seq<ProcCall>, names: set<string>, procs: map<string, nat>, a: Action, n: string)
    requires OnceEach(calls, names, procs, a) && n in procs && n !in names && Injective(procs)
    ensures OnceEach(calls + [ProcCall(procs[n], a)], names + {n}, procs, a)
  {
  }

  /** The log is the old one and one call of `a` on each of `names`. */
  ghost predicate Logged(before: seq<ProcCall>, log: seq<ProcCall>, names: set<string>, procs: map<string, nat>, a: Action) {
    before <= log && OnceEach(log[|before|..], names, procs, a)
  }

  lemma LoggedMore(before: seq<ProcCall>, log: seq<ProcCall>, names: set<string>, procs: map<string, nat>, a: Action, n: string)
    requires Logged(before, log, names, procs, a) && n in procs && n !in names && Injective(procs)
    ensures Logged(before, log + [ProcCall(procs[n], a)], names + {n}, procs, a)
  {
    OnceEachMore(log[|before|..], names, procs, a, n);
    var c := ProcCall(procs[n], a);
    assert (log + [c])[|before|..] == log[|before|..] + [c];
  }

  lemma LoggedSame(before: seq<ProcCall>, log: seq<ProcCall>, names: set<string>, procs: map<string, nat>,
                   n: string, proc: nat, a: Action)
    requires Logged(before, log, names, procs, a) && n !in names
    ensures Logged(before, log, names, procs[n := proc], a)
  {
  }

  lemma WithoutMore(files: map<string, string>, d: Dirs, names: set<string>, n: string)
    ensures Without(files, d, names + {n}) == Without(files, d, names) - Files(d, n)
  {
  }

  /** Writing one interface's files leaves those of another. */
  lemma WroteOther(d: Dirs, files: map<string, string>, n: string, conf: string, env: string, k: string)
    requires k != n && ConfFile(d, k) in files && EnvFile(d, k) in files
    ensures var files' := files[ConfFile(d, n) := conf][EnvFile(d, n) := env];
            && ConfFile(d, k) in files' && files'[ConfFile(d, k)] == files[ConfFile(d, k)]
            && EnvFile(d, k) in files' && files'[EnvFile(d, k)] == files[EnvFile(d, k)]
  {
    PathsApart(d, n, k);
    PathsApart(d, k, n);
  }

  lemma WrittenMore(d: Dirs, names: set<string>, n: string, p: string)
    ensures Written(d, names + {n}, p) <==> Written(d, names, p) || p == ConfFile(d, n) || p == EnvFile(d, n)
  {
  }

  lemma WroteMore(d: Dirs, instance: string, date: string, names: set<string>, m: map<string, Interface>,
                  before: map<string, string>, after: map<string, string>, n: string)
    requires names <= m.Keys && n in m && n !in names
    requires WroteAll(d, instance, date, names, m, before, after)
    ensures WroteAll(d, instance, date, names + {n}, m, before,
                     after[ConfFile(d, n) := ConfText(d, date, m[n])][EnvFile(d, n) := EnvText(d, instance, n)])
  {
    WroteTexts(d, instance, date, names, m, after, n);
    WroteNothingElse(d, instance, date, names, m, before, after, n, ConfText(d, date, m[n]), EnvText(d, instance, n));
  }

  /** Every interface written has its texts. */
  lemma WroteTexts(d: Dirs, instance: string, date: string, names: set<string>, m: map<string, Interface>,
                   after: map<string, string>, n: string)
    requires names <= m.Keys && n in m && n !in names
    requires forall k :: k in names ==> ConfFile(d, k) in after && after[ConfFile(d, k)] == ConfText(d, date, m[k])
    requires forall k :: k in names ==> EnvFile(d, k) in after && after[EnvFile(d, k)] == EnvText(d, instance, k)
    ensures var after' := after[ConfFile(d, n) := ConfText(d, date, m[n])][EnvFile(d, n) := EnvText(d, instance, n)];
            && (forall k :: k in names + {n} ==> ConfFile(d, k) in after' && after'[ConfFile(d, k)] == ConfText(d, date, m[k]))
            && (forall k :: k in names + {n} ==> EnvFile(d, k) in after' && after'[EnvFile(d, k)] == EnvText(d, instance, k))
  {
    var conf, env := ConfText(d, date, m[n]), EnvText(d, instance, n);
    var after' := after[ConfFile(d, n) := conf][EnvFile(d, n) := env];
    PathsApart(d, n, n);
    forall k | k in names
      ensures ConfFile(d, k) in after' && after'[ConfFile(d, k)] == after[ConfFile(d, k)]
      ensures EnvFile(d, k) in after' && after'[EnvFile(d, k)] == after[EnvFile(d, k)]
    {
      WroteOther(d, after, n, conf, env, k);
    }
  }

  /** Where nothing is written the files are as they were. */
  lemma WroteNothingElse(d: Dirs, instance: string, date: string, names: set<string>, m: map<string, Interface>,
                         before: map<string, string>, after: map<string, string>, n: string, conf: string, env: string)
    requires names <= m.Keys && WroteAll(d, instance, date, names, m, before, after)
    ensures var after' := after[ConfFile(d, n) := conf][EnvFile(d, n) := env];
            && (forall p :: p in after' ==> Written(d, names + {n}, p) || (p in before && after'[p] == before[p]))
            && (forall p :: p in before ==> p in after')
  {
    var after' := after[ConfFile(d, n) := conf][EnvFile(d, n) := env];
    forall p | p in after'
      ensures Written(d, names + {n}, p) || (p in before && after'[p] == before[p])
    {
      WrittenMore(d, names, n, p);
      assert p != ConfFile(d, n) && p != EnvFile(d, n) ==> p in after && after'[p] == after[p];
    }
  }

  /** The interfaces `done` have been stopped. */
  ghost predicate StoppedSoFar(d: Dirs, s: World, done: set<string>, files: map<string, string>, log: seq<ProcCall>) {
    && files == Without(s.files, d, done)
    && Logged(s.log, log, done, s.running, Stop)
  }

  lemma NothingStopped(d: Dirs, s: World)
    ensures StoppedSoFar(d, s, {}, s.files, s.log)
  {
  }

  lemma StopOneMore(d: Dirs, s: World, done: set<string>, files: map<string, string>, log: seq<ProcCall>, n: string)
    requires StoppedSoFar(d, s, done, files, log) && Injective(s.running) && n in s.running && n !in done
    ensures StoppedSoFar(d, s, done + {n}, files - Files(d, n), log + [ProcCall(s.running[n], Stop)])
  {
    LoggedMore(s.log, log, done, s.running, Stop, n);
    WithoutMore(s.files, d, done, n);
  }

  lemma InjectiveMore(names: set<string>, s: World, procs: map<string, nat>, made: seq<string>, n: string, proc: nat)
    requires Processes(names, s, procs, made) && Injective(procs) && Injective(s.running) && n !in names
    requires Numbered(s.running, s.made) && Numbered(procs, made)
    requires proc == if n in s.running then s.running[n] else |made|
    ensures forall m :: m in procs ==> procs[m] != proc
    ensures Injective(procs[n := proc])
  {
  }

  lemma ProcessesMore(names: set<string>, s: World, procs: map<string, nat>, made: seq<string>,
                      n: string, proc: nat, made': seq<string>)
    requires Processes(names, s, procs, made) && Injective(procs) && Injective(s.running) && n !in names
    requires Numbered(s.running, s.made) && Numbered(procs, made)
    requires proc == if n in s.running then s.running[n] else |made|
    requires made' == if n in s.running then made else made + [Unit(n)]
    ensures Processes(names + {n}, s, procs[n := proc], made') && Injective(procs[n := proc])
    ensures Numbered(procs[n := proc], made')
  {
    InjectiveMore(names, s, procs, made, n, proc);
    var procs' := procs[n := proc];
    forall m | m in names
      ensures procs'[m] == procs[m] < |made| && made'[procs[m]] == made[procs[m]]
    {
    }
  }

  ghost predicate Numbered(procs: map<string, nat>, made: seq<string>) {
    forall n :: n in procs ==> procs[n] < |made|
  }

  /** The interfaces `done` have their processes, and those of them that differ were written and reloaded. */
  ghost predicate UpdatedSoFar(d: Dirs, instance: string, date: string, before: map<string, Interface>,
                               after: map<string, Interface>, s: World, done: set<string>, procs: map<string, nat>,
                               made: seq<string>, files: map<string, string>, log: seq<ProcCall>)
  {
    && done <= after.Keys
    && Processes(done, s, procs, made) && Injective(procs) && Numbered(procs, made)
    && Logged(s.log, log, Changed(before, after) * done, procs, Reload)
    && WroteAll(d, instance, date, Changed(before, after) * done, after, s.files, files)
  }

  lemma NothingUpdated(d: Dirs, instance: string, date: string, before: map<string, Interface>,
                       after: map<string, Interface>, s: World)
    ensures UpdatedSoFar(d, instance, date, before, after, s, {}, map[], s.made, s.files, s.log)
  {
  }

  lemma KeepOneMore(d: Dirs, instance: string, date: string, before: map<string, Interface>,
                    after: map<string, Interface>, s: World, done: set<string>, procs: map<string, nat>,
                    made: seq<string>, files: map<string, string>, log: seq<ProcCall>, n: string, proc: nat,
                    made': seq<string>)
    requires UpdatedSoFar(d, instance, date, before, after, s, done, procs, made, files, log)
    requires Injective(s.running) && Numbered(s.running, s.made) && n in after && n !in done
    requires proc == if n in s.running then s.running[n] else |made|
    requires made' == if n in s.running then made else made + [Unit(n)]
    requires !Differs(before, after[n])
    ensures UpdatedSoFar(d, instance, date, before, after, s, done + {n}, procs[n := proc], made', files, log)
  {
    ProcessesMore(done, s, procs, made, n, proc, made');
    assert Changed(before, after) * (done + {n}) == Changed(before, after) * done;
    LoggedSame(s.log, log, Changed(before, after) * done, procs, n, proc, Reload);
  }

  lemma UpdateOneMore(d: Dirs, instance: string, date: string, before: map<string, Interface>,
                      after: map<string, Interface>, s: World, done: set<string>, procs: map<string, nat>,
                      made: seq<string>, files: map<string, string>, log: seq<ProcCall>, n: string, proc: nat,
                      made': seq<string>)
    requires UpdatedSoFar(d, instance, date, before, after, s, done, procs, made, files, log)
    requires Injective(s.running) && Numbered(s.running, s.made) && n in after && n !in done
    requires proc == if n in s.running then s.running[n] else |made|
    requires made' == if n in s.running then made else made + [Unit(n)]
    requires Differs(before, after[n])
    ensures UpdatedSoFar(d, instance, date, before, after, s, done + {n}, procs[n := proc], made',
                         files[ConfFile(d, n) := ConfText(d, date, after[n])][EnvFile(d, n) := EnvText(d, instance, n)],
                         log + [ProcCall(proc, Reload)])
  {
    var changed := Changed(before, after) * done;
    ProcessesMore(done, s, procs, made, n, proc, made');
    assert Changed(before, after) * (done + {n}) == changed + {n};
    LoggedSame(s.log, log, changed, procs, n, proc, Reload);
    LoggedMore(s.log, log, changed, procs[n := proc], Reload, n);
    WroteMore(d, instance, date, changed, after, s.files, files, n);
  }

  /** The object; `None` in `Set` is the deleted configuration. */
  class Config {
    const dirs: Dirs
    const instance: string
    var config: seq<Interface>
    var running: map<string, nat>
    var files: map<string, string>
    var log: seq<ProcCall>
    var made: seq<string>

    constructor (dirs: Dirs, instance: string, files: map<string, string>)
      ensures Valid() && Abs() == World([], map[], files, [], [])
      ensures this.dirs == dirs && this.instance == instance
    {
      this.dirs, this.instance, this.files := dirs, instance, files;
      config, running, log, made := [], map[], [], [];
    }

    function Abs(): World
      reads this
    {
      World(config, running, files, log, made)
    }

    /** Exactly the configured interfaces have a process, each its own. */
    ghost predicate Valid()
      reads this
    {
      running.Keys == ByName(config).Keys && Injective(running) && Numbered(running, made)
    }

    method Set(conf: Option<seq<Interface>>, date: string)
      requires Valid()
      modifies this
      ensures Valid()
      ensures Step(dirs, instance, old(Abs()), conf, date, Abs())
    {
      ghost var s := Abs();
      var newInterfaces := MapOf(Interfaces(conf));
      var oldInterfaces := MapOf(config);
      ByNameAgrees(Interfaces(conf));
      StopInactive(newInterfaces);
      ghost var u := Abs();
      UpdateActive(oldInterfaces, newInterfaces, date);
      ghost var f := files;
      config := Interfaces(conf);
      if conf.None? {
        files := Cleaned(files, dirs);
      }
      SetDone(dirs, instance, s, u, conf, date, f, Abs());
    }

    static method MapOf(intfs: seq<Interface>) returns (m: map<string, Interface>)
      ensures m == ByName(intfs)
    {
      m := map[];
      for i := 0 to |intfs|
        invariant m == ByName(intfs[..i])
      {
        assert intfs[..i + 1][..i] == intfs[..i];
        m := m[intfs[i].name := intfs[i]];
      }
      assert intfs[..|intfs|] == intfs;
    }

    /** The running processes of what the old configuration lists and the new one does not. */
    method GetInactive(wanted: map<string, Interface>) returns (stop: map<string, nat>)
      requires Valid()
      ensures stop.Keys == Gone(ByName(config), wanted)
      ensures forall n :: n in stop ==> n in running && stop[n] == running[n]
    {
      ByNameAgrees(config);
      stop := map[];
      for i := 0 to |config|
        invariant forall n :: n in stop <==> n !in wanted && exists j :: 0 <= j < i && config[j].name == n
        invariant forall n :: n in stop ==> n in running && stop[n] == running[n]
      {
        var n := config[i].name;
        if n !in wanted {
          stop := stop[n := running[n]];
        }
      }
    }

    /** Stops what is configured and no longer wanted. */
    method StopInactive(wanted: map<string, Interface>)
      requires Valid()
      modifies this`files, this`log
      ensures StoppedSoFar(dirs, old(Abs()), Gone(ByName(config), wanted), files, log)
    {
      var stop := GetInactive(wanted);
      StopAll(stop);
    }

    method StopAll(stop: map<string, nat>)
      requires Injective(running) && forall n :: n in stop ==> n in running && stop[n] == running[n]
      modifies this`files, this`log
      ensures StoppedSoFar(dirs, old(Abs()), stop.Keys, files, log)
    {
      ghost var s := Abs();
      var done: set<string> := {};
      NothingStopped(dirs, s);
      while done != stop.Keys
        invariant done <= stop.Keys
        invariant StoppedSoFar(dirs, s, done, files, log)
        decreases stop.Keys - done
      {
        SomeLeft(done, stop.Keys);
        var n :| n in stop.Keys - done;
        StopOne(n, stop[n], s, done);
        done := done + {n};
      }
    }

    method StopOne(n: string, proc: nat, ghost s: World, ghost done: set<string>)
      requires n in s.running && proc == s.running[n] && n !in done && Injective(s.running)
      requires StoppedSoFar(dirs, s, done, files, log)
      modifies this`files, this`log
      ensures StoppedSoFar(dirs, s, done + {n}, files, log)
    {
      StopOneMore(dirs, s, done, files, log, n);
      StopInterface(n, proc);
    }

    method StopInterface(intf: string, proc: nat)
      modifies this`files, this`log
      ensures log == old(log) + [ProcCall(proc, Stop)]
      ensures files == old(files) - Files(dirs, intf)
    {
      log := log + [ProcCall(proc, Stop)];
      files := files - {ConfFile(dirs, intf), PidFile(dirs, intf), CacheFile(dirs, intf), EnvFile(dirs, intf)};
    }

    /** Makes the processes the new interfaces need, and rewrites and reloads what differs. */
    method UpdateActive(before: map<string, Interface>, after: map<string, Interface>, date: string)
      requires Injective(running) && Numbered(running, made) && NamesAgree(after)
      modifies this`running, this`made, this`files, this`log
      ensures UpdatedSoFar(dirs, instance, date, before, after, old(Abs()), after.Keys, running, made, files, log)
    {
      ghost var s := Abs();
      var procs: map<string, nat> := map[];
      var done: set<string> := {};
      NothingUpdated(dirs, instance, date, before, after, s);
      while done != after.Keys
        invariant done <= after.Keys
        invariant running == s.running
        invariant UpdatedSoFar(dirs, instance, date, before, after, s, done, procs, made, files, log)
        decreases after.Keys - done
      {
        SomeLeft(done, after.Keys);
        var n :| n in after.Keys - done;
        procs := UpdateOne(n, before, after, date, s, done, procs);
        done := done + {n};
      }
      running := procs;
    }

    method UpdateOne(n: string, before: map<string, Interface>, after: map<string, Interface>, date: string,
                     ghost s: World, ghost done: set<string>, procs: map<string, nat>) returns (procs': map<string, nat>)
      requires n in after && n !in done && after[n].name == n && running == s.running
      requires Injective(s.running) && Numbered(s.running, s.made)
      requires UpdatedSoFar(dirs, instance, date, before, after, s, done, procs, made, files, log)
      modifies this`made, this`files, this`log
      ensures UpdatedSoFar(dirs, instance, date, before, after, s, done + {n}, procs', made, files, log)
    {
      var intf := after[n];
      ghost var made0 := made;
      var proc := if n in running then running[n] else |made|;
      if n !in running {
        made := made + [Unit(n)];
      }
      procs' := procs[n := proc];
      if Differs(before, intf) {
        UpdateOneMore(dirs, instance, date, before, after, s, done, procs, made0, files, log, n, proc, made);
        UpdateInterface(intf, proc, date);
      } else {
        KeepOneMore(dirs, instance, date, before, after, s, done, procs, made0, files, log, n, proc, made);
      }
    }

    method UpdateInterface(intf: Interface, proc: nat, date: string)
      modifies this`files, this`log
      ensures log == old(log) + [ProcCall(proc, Reload)]
      ensures files == old(files)[ConfFile(dirs, intf.name) := ConfText(dirs, date, intf)]
                                 [EnvFile(dirs, intf.name) := EnvText(dirs, instance, intf.name)]
    {
      files := files[ConfFile(dirs, intf.name) := ConfText(dirs, date, intf)];
      files := files[EnvFile(dirs, intf.name) := EnvText(dirs, instance, intf.name)];
      log := log + [ProcCall(proc, Reload)];
    }
  }

  /** The two halves of a `Set` make one step. */
  lemma SetDone(d: Dirs, instance: string, s: World, u: World, conf: Option<seq<Interface>>, date: string,
                f: map<string, string>, t: World)
    requires var before, after := ByName(s.config), ByName(Interfaces(conf));
             && u == World(s.config, s.running, u.files, u.log, s.made)
             && StoppedSoFar(d, s, Gone(before, after), u.files, u.log)
             && UpdatedSoFar(d, instance, date, before, after, u, after.Keys, t.running, t.made, f, t.log)
    requires t.config == Interfaces(conf) && t.files == if conf.Some? then f else Cleaned(f, d)
    ensures Step(d, instance, s, conf, date, t)
  {
    var before, after := ByName(s.config), ByName(Interfaces(conf));
    var gone, changed := Gone(before, after), Changed(before, after);
    assert changed * after.Keys == changed;
    var stops, reloads := u.log[|s.log|..], t.log[|u.log|..];
    assert t.log == s.log + stops + reloads;
    if conf.None? {
      assert changed == {};
      assert f == Without(s.files, d, gone);
    }
  }
}
