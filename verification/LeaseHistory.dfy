/**
 Where a derived file comes from, over every run, stopped watchers' handlers included
 (internal/forwarding/dhcp.go, system.go, internal/fswatcher/fswatcher.go): which step wrote
 it, and so which files are stale, orphaned or of nobody.
 */
module LeaseHistory {
  import opened Wrappers
  import opened LeaseFiles
  import opened LeaseWatch
  import opened LeaseGuarantees

  // ------------------------------------------------------------ who wrote a file

  function FileOf(fm: Formats, confs: map<string, string>, name: string): Option<string> {
    if ConfFile(fm, name) in confs then Some(confs[ConfFile(fm, name)]) else None
  }

  /** What a handler writes to the file of `name`. */
  function JobText(fm: Formats, job: Job, name: string): Option<string> {
    if job.name == name then Some(Derived(fm, name, job.text)) else None
  }

  /** What the step writes to the file of `name`: a `Set` that finds a lease, or a handler. */
  function Written(fm: Formats, w: World, s: Step, name: string): Option<string>
    requires Enabled(w, s)
  {
    match s
    case SetBegin(names) =>
      if name in names && WatchFile(fm, name) in w.leases then Some(Derived(fm, name, w.leases[WatchFile(fm, name)]))
      else None
    case Finish => JobText(fm, w.current.value.job.value, name)
    case LateFinish(k) => JobText(fm, w.retired[k].job.value, name)
    case _ => None
  }

  /** A `Set` removes the files of the names until then, and the system file always. */
  predicate Clears(fm: Formats, w: World, s: Step, name: string) {
    s.SetBegin? && (name in w.names || (fm.system && name == ""))
  }

  lemma ClearedAt(fm: Formats, w: World, name: string)
    ensures ConfFile(fm, name) in RemovedConfs(fm, w.names) <==> name in w.names || (fm.system && name == "")
  {
    FilesApart(fm);
  }

  lemma SetFile(fm: Formats, w: World, names: seq<string>, name: string)
    requires w.starting.None?
    ensures FileOf(fm, Begun(fm, w, names).confs, name)
            == if name in names && WatchFile(fm, name) in w.leases
               then Some(Derived(fm, name, w.leases[WatchFile(fm, name)]))
               else if Clears(fm, w, SetBegin(names), name) then None else FileOf(fm, w.confs, name)
  {
    DerivedAt(fm, names, w.leases, name);
    ClearedAt(fm, w, name);
    Overlaid(w.confs, RemovedConfs(fm, w.names), DerivedFiles(fm, FileMap(fm, names), w.leases), ConfFile(fm, name));
  }

  lemma Overlaid(before: map<string, string>, removed: set<string>, added: map<string, string>, k: string)
    ensures k in before - removed + added <==> k in added || (k in before && k !in removed)
    ensures k in before - removed + added ==>
              (before - removed + added)[k] == if k in added then added[k] else before[k]
  {
  }

  lemma JobFile(fm: Formats, confs: map<string, string>, job: Job, name: string)
    ensures FileOf(fm, Finished(fm, confs, job), name)
            == if JobText(fm, job, name).Some? then JobText(fm, job, name) else FileOf(fm, confs, name)
  {
    TwoNames(fm, name, job.name);
  }

  lemma StepFile(fm: Formats, w: World, s: Step, name: string)
    requires Enabled(w, s)
    ensures FileOf(fm, LeaseWatch.Apply(fm, w, s).confs, name)
            == if Written(fm, w, s, name).Some? then Written(fm, w, s, name)
               else if Clears(fm, w, s, name) then None else FileOf(fm, w.confs, name)
  {
    match s {
      case SetBegin(names) => SetFile(fm, w, names, name);
      case Finish => JobFile(fm, w.confs, w.current.value.job.value, name);
      case LateFinish(k) => JobFile(fm, w.confs, w.retired[k].job.value, name);
      case _ =>
    }
  }

  /** No step writes or removes the file. */
  predicate Untouched(fm: Formats, w: World, steps: seq<Step>, name: string)
    requires Legal(fm, w, steps)
    decreases steps
  {
    steps == []
    || (Written(fm, w, steps[0], name).None? && !Clears(fm, w, steps[0], name)
        && Untouched(fm, LeaseWatch.Apply(fm, w, steps[0]), steps[1..], name))
  }

  /** Some step writes `text` to the file, and no later one writes or removes it. */
  predicate LastWrote(fm: Formats, w: World, steps: seq<Step>, name: string, text: string)
    requires Legal(fm, w, steps)
    decreases steps
  {
    steps != []
    && var w1 := LeaseWatch.Apply(fm, w, steps[0]);
       || (Written(fm, w, steps[0], name) == Some(text) && Untouched(fm, w1, steps[1..], name))
       || LastWrote(fm, w1, steps[1..], name, text)
  }

  /**
   Over every run from any state, however leases come and go and whichever stopped watchers'
   handlers still write: a file has a text exactly when the last step to write or remove it
   wrote that text, a `Set` or a handler; or there was none, and it had it before.  So a lease
   that is removed keeps its servers until a `Set` removes them.
   */
  lemma {:induction false} FileExactly(fm: Formats, w: World, steps: seq<Step>, name: string, text: string)
    requires Legal(fm, w, steps)
    ensures FileOf(fm, Exec(fm, w, steps).confs, name) == Some(text)
            <==> LastWrote(fm, w, steps, name, text)
                 || (FileOf(fm, w.confs, name) == Some(text) && Untouched(fm, w, steps, name))
    decreases steps
  {
    if steps != [] {
      StepFile(fm, w, steps[0], name);
      FileExactly(fm, LeaseWatch.Apply(fm, w, steps[0]), steps[1..], name, text);
    }
  }

  /** How many handlers have written. */
  function HandlersDone(steps: seq<Step>): nat {
    if steps == [] then 0
    else (if steps[0].Finish? || steps[0].LateFinish? then 1 else 0) + HandlersDone(steps[1..])
  }

  /** dnsmasq is restarted once by every handler that writes, a stopped watcher's too, and by nothing else. */
  lemma {:induction false} RestartForEachHandler(fm: Formats, w: World, steps: seq<Step>)
    requires Legal(fm, w, steps)
    ensures Exec(fm, w, steps).restarts == w.restarts + HandlersDone(steps)
    decreases steps
  {
    if steps != [] {
      RestartForEachHandler(fm, LeaseWatch.Apply(fm, w, steps[0]), steps[1..]);
    }
  }

  // ------------------------------------------------------------ a removed lease

  lemma RemovalTaken(fm: Formats, w: World, file: string) returns (steps: seq<Step>)
    requires w.current.Some? && w.current.value.queue == [] && w.current.value.job.None?
    ensures Legal(fm, w, steps) && NoLateWrites(steps) && RemovalsAnnounced(steps)
    ensures var t := Exec(fm, w, steps);
            && t.names == w.names && t.confs == w.confs && file !in t.leases
            && t.current.Some? && t.current.value.queue == [] && t.current.value.job.None?
  {
    var s1, s2 := Touch(file, None, {Remove}), Take;
    var w1 := LeaseWatch.Apply(fm, w, s1);
    assert !Handled({Remove}) && w1.current.value.queue == [Event(file, {Remove})];
    Prepend(fm, w1, s2, []);
    Prepend(fm, w, s1, [s2]);
    steps := [s1] + [s2];
  }

  /** A new object after `Set` with one name. */
  lemma OneNameSet(fm: Formats, w: World, name: string) returns (steps: seq<Step>, t: World)
    requires Init(fm, w)
    ensures Legal(fm, w, steps) && NoLateWrites(steps) && RemovalsAnnounced(steps) && t == Exec(fm, w, steps)
    ensures t.current == Some(Watcher(FileMap(fm, [name]), [], None)) && t.starting.None? && t.retired == []
    ensures t.names == [name] && (WatchFile(fm, name) in w.leases ==> ConfFile(fm, name) in t.confs)
  {
    var w1 := LeaseWatch.Apply(fm, w, SetBegin([name]));
    SetAt(fm, w, [name], name);
    t := LeaseWatch.Apply(fm, w1, Register);
    Prepend(fm, w1, Register, []);
    Prepend(fm, w, SetBegin([name]), [Register]);
    steps := [SetBegin([name])] + [Register];
  }

  lemma {:induction false} Continued(fm: Formats, w: World, a: seq<Step>, b: seq<Step>)
    requires Legal(fm, w, a) && Legal(fm, Exec(fm, w, a), b)
    ensures Legal(fm, w, a + b) && Exec(fm, w, a + b) == Exec(fm, Exec(fm, w, a), b)
    decreases a
  {
    if a == [] {
      assert a + b == b;
    } else {
      assert (a + b)[1..] == a[1..] + b;
      Continued(fm, LeaseWatch.Apply(fm, w, a[0]), a[1..], b);
    }
  }

  /** And that happens, with every event handled. */
  lemma RemovedLeaseCanHappen(fm: Formats, w: World, name: string) returns (steps: seq<Step>)
    requires Init(fm, w) && WatchFile(fm, name) in w.leases
    ensures Legal(fm, w, steps) && NoLateWrites(steps) && RemovalsAnnounced(steps)
    ensures var t := Exec(fm, w, steps);
            && t.names == [name] && t.current.Some? && t.current.value.queue == [] && t.current.value.job.None?
            && ConfFile(fm, name) in t.confs && WatchFile(fm, name) !in t.leases
  {
    var start, t := OneNameSet(fm, w, name);
    var rest := RemovalTaken(fm, t, WatchFile(fm, name));
    Continued(fm, w, start, rest);
    steps := start + rest;
  }

  // ------------------------------------------------------------ files of nobody

  /** The registered watcher handles what is configured. */
  ghost predicate JobsNamed(fm: Formats, w: World) {
    && (w.current.None? || w.starting.None?)
    && (w.starting.Some? ==> w.starting.value.job.None?)
    && (if Active(w).None? then w.names == []
        else
          && Active(w).value.files == FileMap(fm, w.names)
          && (Active(w).value.job.Some? ==> Active(w).value.job.value.name in w.names))
  }

  lemma StepJobsNamed(fm: Formats, w: World, s: Step)
    requires JobsNamed(fm, w) && Enabled(w, s)
    ensures JobsNamed(fm, LeaseWatch.Apply(fm, w, s))
  {
    FileMapMeans(fm, w.names);
  }

  /** No step removes the file. */
  predicate Uncleared(fm: Formats, w: World, steps: seq<Step>, name: string)
    requires Legal(fm, w, steps)
    decreases steps
  {
    steps == []
    || (!Clears(fm, w, steps[0], name) && Uncleared(fm, LeaseWatch.Apply(fm, w, steps[0]), steps[1..], name))
  }

  predicate WritesLate(w: World, s: Step, name: string)
    requires Enabled(w, s)
  {
    s.LateFinish? && w.retired[s.k].job.value.name == name
  }

  /** A handler of a stopped watcher writes the file, and no later `Set` removes it. */
  predicate LateWrote(fm: Formats, w: World, steps: seq<Step>, name: string)
    requires Legal(fm, w, steps)
    decreases steps
  {
    steps != []
    && var w1 := LeaseWatch.Apply(fm, w, steps[0]);
       (WritesLate(w, steps[0], name) && Uncleared(fm, w1, steps[1..], name)) || LateWrote(fm, w1, steps[1..], name)
  }

  lemma {:induction false} NameStays(fm: Formats, w: World, steps: seq<Step>, name: string)
    requires Legal(fm, w, steps) && name in w.names && Uncleared(fm, w, steps, name)
    ensures name in Exec(fm, w, steps).names
    decreases steps
  {
    if steps != [] {
      NameStays(fm, LeaseWatch.Apply(fm, w, steps[0]), steps[1..], name);
    }
  }

  /** What is written on time is written for a name configured. */
  lemma WrittenOnTime(fm: Formats, w: World, s: Step, name: string)
    requires JobsNamed(fm, w) && Enabled(w, s) && Written(fm, w, s, name).Some? && !s.LateFinish?
    ensures name in LeaseWatch.Apply(fm, w, s).names
  {
  }

  lemma {:induction false} StrayFrom(fm: Formats, w: World, steps: seq<Step>, name: string)
    requires JobsNamed(fm, w) && Legal(fm, w, steps) && name !in Exec(fm, w, steps).names
    ensures FileOf(fm, Exec(fm, w, steps).confs, name).Some?
            <==> LateWrote(fm, w, steps, name) || (FileOf(fm, w.confs, name).Some? && Uncleared(fm, w, steps, name))
    decreases steps
  {
    if steps != [] {
      var s, w1 := steps[0], LeaseWatch.Apply(fm, w, steps[0]);
      StepJobsNamed(fm, w, s);
      StepFile(fm, w, s, name);
      StrayFrom(fm, w1, steps[1..], name);
      if Written(fm, w, s, name).Some? && !s.LateFinish? {
        WrittenOnTime(fm, w, s, name);
        if Uncleared(fm, w1, steps[1..], name) {
          NameStays(fm, w1, steps[1..], name);
        }
      }
    }
  }

  /**
   Over every run from the start: a name not configured has a file exactly when a handler of
   a stopped watcher wrote it and no later `Set` removed it.
   */
  lemma LateHandlerRestoresFile(fm: Formats, w: World, steps: seq<Step>, name: string)
    requires Init(fm, w) && Legal(fm, w, steps) && name !in Exec(fm, w, steps).names
    ensures ConfFile(fm, name) in Exec(fm, w, steps).confs <==> LateWrote(fm, w, steps, name)
  {
    StrayFrom(fm, w, steps, name);
  }

  /** And that can happen: a lease is written, its handler reads it, and the interface is removed. */
  lemma LateHandlerCanHappen(fm: Formats, w: World, name: string, text: string) returns (steps: seq<Step>)
    requires Init(fm, w)
    ensures Legal(fm, w, steps) && NoLateWrites(steps)
    ensures var t := Exec(fm, w, steps);
            && Inv(fm, t) && t.names == [] && Enabled(t, LateFinish(0)) && t.retired[0].job.value.name == name
  {
    var start, t := OneNameSet(fm, w, name);
    FileMapMeans(fm, [name]);
    var rest := HandlerOvertaken(fm, t, name, text);
    Continued(fm, w, start, rest);
    steps := start + rest;
    RunInv(fm, w, steps);
  }

  /** A stopped watcher's loop takes the event of a lease written since, and writes its file. */
  lemma StoppedHandles(fm: Formats, w: World, files: map<string, string>, name: string, text: string) returns (steps: seq<Step>)
    requires w.retired == [Watcher(files, [], None)] && w.current.None?
    requires WatchFile(fm, name) in files && files[WatchFile(fm, name)] == name
    ensures Legal(fm, w, steps)
    ensures var t := Exec(fm, w, steps);
            t.names == w.names && FileOf(fm, t.confs, name) == Some(Derived(fm, name, text))
  {
    var touch := Touch(WatchFile(fm, name), Some(text), {CloseWrite});
    var w2 := LeaseWatch.Apply(fm, w, touch);
    assert w2.retired[0].queue == [Event(WatchFile(fm, name), {CloseWrite})];
    var w3 := LeaseWatch.Apply(fm, w2, LateTake(0));
    assert w3.retired[0].job == Some(Job(name, text));
    Prepend(fm, w3, LateFinish(0), []);
    Prepend(fm, w2, LateTake(0), [LateFinish(0)]);
    Prepend(fm, w, touch, [LateTake(0)] + [LateFinish(0)]);
    steps := [touch] + ([LateTake(0)] + [LateFinish(0)]);
  }

  lemma EventAfterStop(fm: Formats, w: World, name: string, text: string) returns (steps: seq<Step>)
    requires w.current.Some? && w.current.value.queue == [] && w.current.value.job.None? && w.retired == [] && w.starting.None?
    requires WatchFile(fm, name) in w.current.value.files && w.current.value.files[WatchFile(fm, name)] == name
    ensures Legal(fm, w, steps)
    ensures var t := Exec(fm, w, steps);
            t.names == [] && FileOf(fm, t.confs, name) == Some(Derived(fm, name, text))
  {
    var w1 := LeaseWatch.Apply(fm, w, SetBegin([]));
    var rest := StoppedHandles(fm, w1, w.current.value.files, name, text);
    Prepend(fm, w, SetBegin([]), rest);
    steps := [SetBegin([])] + rest;
  }

  /** So even a lease written after the `Set` that removed its interface can bring the file back. */
  lemma LaterLeaseCanHappen(fm: Formats, w: World, name: string, text: string) returns (steps: seq<Step>)
    requires Init(fm, w)
    ensures Legal(fm, w, steps)
    ensures var t := Exec(fm, w, steps);
            t.names == [] && FileOf(fm, t.confs, name) == Some(Derived(fm, name, text))
  {
    var start, t := OneNameSet(fm, w, name);
    FileMapMeans(fm, [name]);
    var rest := EventAfterStop(fm, t, name, text);
    Continued(fm, w, start, rest);
    steps := start + rest;
  }

  lemma HandlerOvertaken(fm: Formats, w: World, name: string, text: string) returns (steps: seq<Step>)
    requires w.current.Some? && w.starting.None? && w.retired == []
    requires w.current.value.queue == [] && w.current.value.job.None?
    requires WatchFile(fm, name) in w.current.value.files && w.current.value.files[WatchFile(fm, name)] == name
    ensures Legal(fm, w, steps) && NoLateWrites(steps)
    ensures var t := Exec(fm, w, steps);
            t.names == [] && Enabled(t, LateFinish(0)) && t.retired[0].job.value.name == name
  {
    var file := WatchFile(fm, name);
    var s1, s2, s3 := Touch(file, Some(text), {CloseWrite}), Take, SetBegin([]);
    var w1 := LeaseWatch.Apply(fm, w, s1);
    assert w1.current.value.queue == [Event(file, {CloseWrite})];
    var w2 := LeaseWatch.Apply(fm, w1, s2);
    assert Handled({CloseWrite}) && w2.current.value.job == Some(Job(name, text));
    var w3 := LeaseWatch.Apply(fm, w2, s3);
    assert w3.retired == [w2.current.value];
    Prepend(fm, w2, s3, []);
    Prepend(fm, w1, s2, [s3]);
    Prepend(fm, w, s1, [s2] + [s3]);
    steps := [s1] + ([s2] + [s3]);
  }

  // ------------------------------------------------------------ stale files

  /** Of the steps that concern the file of `name`, the last is a late write; `late` speaks of the steps before. */
  predicate LateLast(fm: Formats, w: World, steps: seq<Step>, name: string, late: bool)
    requires Legal(fm, w, steps)
    decreases steps
  {
    if steps == [] then late
    else LateLast(fm, LeaseWatch.Apply(fm, w, steps[0]), steps[1..], name, LateAfter(w, steps[0], name, late))
  }

  predicate LateAfter(w: World, s: Step, name: string, late: bool)
    requires Enabled(w, s)
  {
    if WritesLate(w, s, name) then true
    else if s.SetBegin? || (s.Finish? && w.current.value.job.value.name == name) then false
    else late
  }

  /** The lease a handler holds is the one there is, unless changed unannounced or a closing is to be handled. */
  predicate HoldsLease(fm: Formats, w: World, name: string)
    requires Active(w).Some?
  {
    var a, file := Active(w).value, WatchFile(fm, name);
    file in w.leases && file !in w.dirty && !Pending(a.queue, file) && a.job.Some? && a.job.value.name == name ==>
      a.job.value.text == w.leases[file]
  }

  /** The file of a name configured is coherent with its lease, or a late write was last. */
  ghost predicate CoherentOrLate(fm: Formats, w: World, name: string, late: bool) {
    && JobsNamed(fm, w)
    && (w.starting.Some? ==> w.starting.value.queue == [])
    && (name in w.names ==>
          HoldsLease(fm, w, name) && (late || Coherent(fm, w.leases, w.confs, Active(w).value, w.dirty, name)))
  }

  lemma LateFinishKeeps(fm: Formats, w: World, k: nat, name: string, late: bool)
    requires CoherentOrLate(fm, w, name, late) && Enabled(w, LateFinish(k))
    ensures CoherentOrLate(fm, LeaseWatch.Apply(fm, w, LateFinish(k)), name, LateAfter(w, LateFinish(k), name, late))
  {
    TwoNames(fm, name, w.retired[k].job.value.name);
  }

  lemma SetCoherent(fm: Formats, w: World, names: seq<string>, name: string)
    requires w.starting.None? && JobsNamed(fm, w)
    ensures CoherentOrLate(fm, Begun(fm, w, names), name, false)
  {
    DerivedAt(fm, names, w.leases, name);
    StepJobsNamed(fm, w, SetBegin(names));
  }

  lemma FinishKeeps(fm: Formats, w: World, name: string, late: bool)
    requires CoherentOrLate(fm, w, name, late) && Enabled(w, Finish)
    ensures CoherentOrLate(fm, LeaseWatch.Apply(fm, w, Finish), name, LateAfter(w, Finish, name, late))
  {
    StepJobsNamed(fm, w, Finish);
    JobFile(fm, w.confs, w.current.value.job.value, name);
  }

  lemma TouchKeeps(fm: Formats, w: World, file: string, content: Option<string>, ops: set<Op>, name: string, late: bool)
    requires CoherentOrLate(fm, w, name, late)
    ensures CoherentOrLate(fm, Touched(w, file, content, ops), name, late)
  {
    StepJobsNamed(fm, w, Touch(file, content, ops));
    if w.current.Some? {
      PendingMore(w.current.value.queue, Event(file, ops), WatchFile(fm, name));
    }
  }

  lemma TakeKeeps(fm: Formats, w: World, name: string, late: bool)
    requires CoherentOrLate(fm, w, name, late) && Enabled(w, Take)
    ensures CoherentOrLate(fm, LeaseWatch.Apply(fm, w, Take), name, late)
  {
    StepJobsNamed(fm, w, Take);
    FileMapMeans(fm, w.names);
    if name in w.names && !late {
      TakeCoherent(fm, w, name);
    }
  }

  lemma StepCoherentOrLate(fm: Formats, w: World, s: Step, name: string, late: bool)
    requires CoherentOrLate(fm, w, name, late) && Enabled(w, s)
    ensures CoherentOrLate(fm, LeaseWatch.Apply(fm, w, s), name, LateAfter(w, s, name, late))
  {
    match s {
      case Touch(file, content, ops) => TouchKeeps(fm, w, file, content, ops, name, late);
      case Take => TakeKeeps(fm, w, name, late);
      case Finish => FinishKeeps(fm, w, name, late);
      case SetBegin(names) => SetCoherent(fm, w, names, name);
      case Register =>
      case LateTake(_) =>
      case LateFinish(k) => LateFinishKeeps(fm, w, k, name, late);
    }
  }

  lemma {:induction false} RunCoherentOrLate(fm: Formats, w: World, steps: seq<Step>, name: string, late: bool)
    requires CoherentOrLate(fm, w, name, late) && Legal(fm, w, steps)
    ensures CoherentOrLate(fm, Exec(fm, w, steps), name, LateLast(fm, w, steps, name, late))
    decreases steps
  {
    if steps != [] {
      StepCoherentOrLate(fm, w, steps[0], name, late);
      RunCoherentOrLate(fm, LeaseWatch.Apply(fm, w, steps[0]), steps[1..], name, LateAfter(w, steps[0], name, late));
    }
  }

  /**
   Over every run from the start, late writes included: the file of a settled name with a
   lease is the rendering of that lease, or the last write to it came from a handler of a
   stopped watcher.
   */
  lemma CoherentUnlessLate(fm: Formats, w: World, steps: seq<Step>, name: string)
    requires Init(fm, w) && Legal(fm, w, steps)
    ensures var t := Exec(fm, w, steps);
            name in t.names && Settled(fm, t, name) && WatchFile(fm, name) in t.leases
            && !LateLast(fm, w, steps, name, false) ==>
              FileOf(fm, t.confs, name) == Some(Derived(fm, name, t.leases[WatchFile(fm, name)]))
  {
    RunCoherentOrLate(fm, w, steps, name, false);
  }

  /** What a late write leaves: the handler reads, the lease is rewritten, `Set` keeps the name, the handler writes. */
  lemma Overwritten(fm: Formats, w: World, name: string, older: string, newer: string) returns (steps: seq<Step>)
    requires w.current.Some? && w.starting.None? && w.retired == []
    requires w.current.value.queue == [] && w.current.value.job.None?
    requires WatchFile(fm, name) in w.current.value.files && w.current.value.files[WatchFile(fm, name)] == name
    ensures Legal(fm, w, steps)
    ensures var t := Exec(fm, w, steps);
            && t.names == [name] && Settled(fm, t, name) && WatchFile(fm, name) in t.leases
            && t.leases[WatchFile(fm, name)] == newer && FileOf(fm, t.confs, name) == Some(Derived(fm, name, older))
  {
    var file := WatchFile(fm, name);
    var first, w2 := HandlerReads(fm, w, name, older);
    var second, w4 := RewrittenAndSet(fm, w2, name, newer);
    Continued(fm, w, first, second);
    var w5 := LeaseWatch.Apply(fm, w4, LateFinish(0));
    JobFile(fm, w4.confs, Job(name, older), name);
    Prepend(fm, w4, LateFinish(0), []);
    Continued(fm, w, first + second, [LateFinish(0)]);
    steps := first + second + [LateFinish(0)];
  }

  lemma HandlerReads(fm: Formats, w: World, name: string, text: string) returns (steps: seq<Step>, t: World)
    requires w.current.Some? && w.starting.None? && w.retired == []
    requires w.current.value.queue == [] && w.current.value.job.None?
    requires WatchFile(fm, name) in w.current.value.files && w.current.value.files[WatchFile(fm, name)] == name
    ensures Legal(fm, w, steps) && NoLateWrites(steps) && t == Exec(fm, w, steps)
    ensures t.current.Some? && t.current.value.job == Some(Job(name, text)) && t.starting.None? && t.retired == []
  {
    var file := WatchFile(fm, name);
    var w1 := LeaseWatch.Apply(fm, w, Touch(file, Some(text), {CloseWrite}));
    assert Handled({CloseWrite}) && w1.current.value.queue == [Event(file, {CloseWrite})];
    t := LeaseWatch.Apply(fm, w1, Take);
    Prepend(fm, w1, Take, []);
    Prepend(fm, w, Touch(file, Some(text), {CloseWrite}), [Take]);
    steps := [Touch(file, Some(text), {CloseWrite})] + [Take];
  }

  lemma RewrittenAndSet(fm: Formats, w: World, name: string, text: string) returns (steps: seq<Step>, t: World)
    requires w.current.Some? && w.starting.None? && w.retired == []
    ensures Legal(fm, w, steps) && t == Exec(fm, w, steps)
    ensures |t.retired| == 1 && t.retired[0].job == w.current.value.job && t.names == [name] && t.starting.None?
    ensures t.current.Some? && t.current.value.queue == [] && t.current.value.job.None? && t.dirty == {}
    ensures WatchFile(fm, name) in t.leases && t.leases[WatchFile(fm, name)] == text
  {
    var rewrite := Touch(WatchFile(fm, name), Some(text), {CloseWrite});
    var w1 := LeaseWatch.Apply(fm, w, rewrite);
    var w2 := LeaseWatch.Apply(fm, w1, SetBegin([name]));
    t := LeaseWatch.Apply(fm, w2, Register);
    Prepend(fm, w2, Register, []);
    Prepend(fm, w1, SetBegin([name]), [Register]);
    Prepend(fm, w, rewrite, [SetBegin([name])] + [Register]);
    steps := [rewrite] + ([SetBegin([name])] + [Register]);
  }

  /** And that happens: from every start, whatever the two leases say, the older one can be what is left. */
  lemma StaleLeaseCanHappen(fm: Formats, w: World, name: string, older: string, newer: string) returns (steps: seq<Step>)
    requires Init(fm, w)
    ensures Legal(fm, w, steps)
    ensures var t := Exec(fm, w, steps);
            && t.names == [name] && Settled(fm, t, name) && WatchFile(fm, name) in t.leases
            && t.leases[WatchFile(fm, name)] == newer && FileOf(fm, t.confs, name) == Some(Derived(fm, name, older))
  {
    var start, t := OneNameSet(fm, w, name);
    FileMapMeans(fm, [name]);
    var rest := Overwritten(fm, t, name, older, newer);
    Continued(fm, w, start, rest);
    steps := start + rest;
  }

  lemma Prepend(fm: Formats, w: World, s: Step, rest: seq<Step>)
    requires Enabled(w, s) && Legal(fm, LeaseWatch.Apply(fm, w, s), rest)
    ensures Legal(fm, w, [s] + rest)
    ensures Exec(fm, w, [s] + rest) == Exec(fm, LeaseWatch.Apply(fm, w, s), rest)
  {
  }
}
