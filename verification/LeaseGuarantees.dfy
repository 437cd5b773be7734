/**
 The derived files agree with the leases: what every interleaving of lease changes, event
 handling and `Set` keeps, and where it ends.
 */
module LeaseGuarantees {
  import opened Wrappers
  import opened DnsmasqFiles
  import opened EndToEnd
  import opened LeaseFiles
  import opened LeaseWatch

  // ------------------------------------------------------------ the invariant

  /** The watcher of the names configured, registered or about to be. */
  function Active(w: World): Option<Watcher> {
    if w.current.Some? then w.current else w.starting
  }

  /** A closing of `file` is still to be handled. */
  predicate Pending(queue: seq<Event>, file: string) {
    exists i :: 0 <= i < |queue| && queue[i].name == file && Handled(queue[i].ops)
  }

  predicate HasConf(fm: Formats, confs: map<string, string>, name: string, text: string) {
    ConfFile(fm, name) in confs && confs[ConfFile(fm, name)] == Derived(fm, name, text)
  }

  /**
   The file of `name` is derived from its lease as it is now, or the handler holds that
   lease; unless the lease is gone, changed unannounced, or has a closing to be handled.
   */
  predicate Coherent(fm: Formats, leases: map<string, string>, confs: map<string, string>, a: Watcher,
                     dirty: set<string>, name: string)
  {
    var file := WatchFile(fm, name);
    file in leases && file !in dirty && !Pending(a.queue, file) ==>
      if a.job.Some? && a.job.value.name == name then a.job.value.text == leases[file]
      else HasConf(fm, confs, name, leases[file])
  }

  ghost predicate AllCoherent(fm: Formats, leases: map<string, string>, confs: map<string, string>, a: Watcher,
                              dirty: set<string>, names: seq<string>)
  {
    forall n :: n in names ==> Coherent(fm, leases, confs, a, dirty, n)
  }

  /** No derived file but those of the names configured. */
  ghost predicate NoOthers(fm: Formats, confs: map<string, string>, names: seq<string>) {
    forall n :: ConfFile(fm, n) in confs ==> n in names
  }

  ghost predicate Inv(fm: Formats, w: World) {
    && (w.current.None? || w.starting.None?)
    && (w.starting.Some? ==> w.starting.value.queue == [] && w.starting.value.job.None?)
    && NoOthers(fm, w.confs, w.names)
    && (if Active(w).None? then w.names == []
        else
          var a := Active(w).value;
          && a.files == FileMap(fm, w.names)
          && (a.job.Some? ==> a.job.value.name in w.names)
          && AllCoherent(fm, w.leases, w.confs, a, w.dirty, w.names))
  }

  /** A new object; no file is left from before. */
  ghost predicate Init(fm: Formats, w: World) {
    && w.names == [] && w.starting.None? && w.current.None? && w.retired == [] && w.dirty == {}
    && NoOthers(fm, w.confs, [])
  }

  /** No handler of a stopped watcher is still to write. */
  predicate NoLateWrites(steps: seq<Step>) {
    forall i :: 0 <= i < |steps| ==> !steps[i].LateFinish?
  }

  lemma TwoNames(fm: Formats, n: string, m: string)
    ensures ConfFile(fm, n) == ConfFile(fm, m) ==> n == m
    ensures WatchFile(fm, n) == WatchFile(fm, m) ==> n == m
  {
    FilesApart(fm);
  }

  lemma PendingMore(queue: seq<Event>, e: Event, file: string)
    ensures Pending(queue + [e], file) <==> Pending(queue, file) || (e.name == file && Handled(e.ops))
  {
    if Pending(queue, file) {
      var i :| 0 <= i < |queue| && queue[i].name == file && Handled(queue[i].ops);
      assert (queue + [e])[i] == queue[i];
    }
    assert (queue + [e])[|queue|] == e;
  }

  // ------------------------------------------------------------ steps

  lemma TouchCoherent(fm: Formats, w: World, file: string, content: Option<string>, ops: set<Op>, name: string)
    requires Active(w).Some? && Coherent(fm, w.leases, w.confs, Active(w).value, w.dirty, name)
    ensures var t := Touched(w, file, content, ops);
            Coherent(fm, t.leases, t.confs, Active(t).value, t.dirty, name)
  {
    if w.current.Some? {
      PendingMore(w.current.value.queue, Event(file, ops), WatchFile(fm, name));
    }
  }

  lemma TouchInv(fm: Formats, w: World, file: string, content: Option<string>, ops: set<Op>)
    requires Inv(fm, w)
    ensures Inv(fm, Touched(w, file, content, ops))
  {
    var t := Touched(w, file, content, ops);
    if Active(w).Some? {
      forall n | n in w.names
        ensures Coherent(fm, t.leases, t.confs, Active(t).value, t.dirty, n)
      {
        TouchCoherent(fm, w, file, content, ops, n);
      }
    }
  }

  lemma TakeCoherent(fm: Formats, w: World, name: string)
    requires w.current.Some? && w.current.value.job.None? && w.current.value.queue != []
    requires NamedAfter(fm, w.current.value.files)
    requires WatchFile(fm, name) in w.current.value.files && w.current.value.files[WatchFile(fm, name)] == name
    requires Coherent(fm, w.leases, w.confs, w.current.value, w.dirty, name)
    ensures Coherent(fm, w.leases, w.confs, Taken(w.current.value, w.leases), w.dirty, name)
  {
  }

  lemma TakeInv(fm: Formats, w: World)
    requires Inv(fm, w) && Enabled(w, Take)
    ensures Inv(fm, w.(current := Some(Taken(w.current.value, w.leases))))
  {
    FileMapMeans(fm, w.names);
    forall n | n in w.names
      ensures Coherent(fm, w.leases, w.confs, Taken(w.current.value, w.leases), w.dirty, n)
    {
      TakeCoherent(fm, w, n);
    }
  }

  lemma FinishCoherent(fm: Formats, leases: map<string, string>, confs: map<string, string>, a: Watcher,
                       dirty: set<string>, name: string)
    requires a.job.Some? && Coherent(fm, leases, confs, a, dirty, name)
    ensures Coherent(fm, leases, Finished(fm, confs, a.job.value), a.(job := None), dirty, name)
  {
    TwoNames(fm, name, a.job.value.name);
  }

  lemma FinishNoOthers(fm: Formats, confs: map<string, string>, job: Job, names: seq<string>)
    requires NoOthers(fm, confs, names) && job.name in names
    ensures NoOthers(fm, Finished(fm, confs, job), names)
  {
    forall n | ConfFile(fm, n) in Finished(fm, confs, job)
      ensures n in names
    {
      TwoNames(fm, n, job.name);
    }
  }

  lemma FinishInv(fm: Formats, w: World)
    requires Inv(fm, w) && Enabled(w, Finish)
    ensures Inv(fm, LeaseWatch.Apply(fm, w, Finish))
  {
    var a := w.current.value;
    FinishNoOthers(fm, w.confs, a.job.value, w.names);
    forall n | n in w.names
      ensures Coherent(fm, w.leases, Finished(fm, w.confs, a.job.value), a.(job := None), w.dirty, n)
    {
      FinishCoherent(fm, w.leases, w.confs, a, w.dirty, n);
    }
  }

  /** The files derived at the start: those of the leases there are. */
  lemma DerivedAt(fm: Formats, names: seq<string>, leases: map<string, string>, n: string)
    ensures NamedAfter(fm, FileMap(fm, names))
    ensures var ds := DerivedFiles(fm, FileMap(fm, names), leases);
            && (ConfFile(fm, n) in ds <==> n in names && WatchFile(fm, n) in leases)
            && (ConfFile(fm, n) in ds ==> HasConf(fm, ds, n, leases[WatchFile(fm, n)]))
  {
    FileMapMeans(fm, names);
    var files := FileMap(fm, names);
    var places := Places(fm, files, leases);
    PlacesApart(fm, files, leases);
    var f := WatchFile(fm, n);
    if n in names && f in leases {
      assert f in places && places[f] == ConfFile(fm, n);
      PutAt(places, Texts(fm, files, leases), f);
    }
    if ConfFile(fm, n) in DerivedFiles(fm, files, leases) {
      var g := PutFrom(places, Texts(fm, files, leases), ConfFile(fm, n));
      TwoNames(fm, n, files[g]);
    }
  }

  lemma PutAt(places: map<string, string>, texts: map<string, string>, f: string)
    requires Apart(places) && texts.Keys == places.Keys && f in places
    ensures places[f] in Put(places, texts) && Put(places, texts)[places[f]] == texts[f]
  {
  }

  lemma PutFrom(places: map<string, string>, texts: map<string, string>, p: string) returns (f: string)
    requires Apart(places) && texts.Keys == places.Keys && p in Put(places, texts)
    ensures f in places && places[f] == p
  {
    f :| f in places && places[f] == p;
  }

  /** `Set` leaves the derived file of a name exactly when it is configured and has a lease. */
  lemma SetAt(fm: Formats, w: World, names: seq<string>, n: string)
    requires NoOthers(fm, w.confs, w.names)
    ensures var t := Begun(fm, w, names);
            && (ConfFile(fm, n) in t.confs <==> n in names && WatchFile(fm, n) in w.leases)
            && (ConfFile(fm, n) in t.confs ==> HasConf(fm, t.confs, n, w.leases[WatchFile(fm, n)]))
  {
    DerivedAt(fm, names, w.leases, n);
    if ConfFile(fm, n) in w.confs {
      assert n in w.names;
      assert ConfFile(fm, n) in RemovedConfs(fm, w.names);
    }
  }

  lemma SetInv(fm: Formats, w: World, names: seq<string>)
    requires Inv(fm, w) && w.starting.None?
    ensures Inv(fm, Begun(fm, w, names))
  {
    var t := Begun(fm, w, names);
    forall n
      ensures ConfFile(fm, n) in t.confs <==> n in names && WatchFile(fm, n) in w.leases
      ensures ConfFile(fm, n) in t.confs ==> HasConf(fm, t.confs, n, w.leases[WatchFile(fm, n)])
    {
      SetAt(fm, w, names, n);
    }
  }

  lemma StepInv(fm: Formats, w: World, s: Step)
    requires Inv(fm, w) && Enabled(w, s) && !s.LateFinish?
    ensures Inv(fm, LeaseWatch.Apply(fm, w, s))
  {
    match s {
      case Touch(file, content, ops) => TouchInv(fm, w, file, content, ops);
      case Take => TakeInv(fm, w);
      case Finish => FinishInv(fm, w);
      case SetBegin(names) => SetInv(fm, w, names);
      case Register =>
      case LateTake(_) =>
    }
  }

  lemma {:induction false} RunInv(fm: Formats, w: World, steps: seq<Step>)
    requires Inv(fm, w) && Legal(fm, w, steps) && NoLateWrites(steps)
    ensures Inv(fm, Exec(fm, w, steps))
    decreases steps
  {
    if steps != [] {
      StepInv(fm, w, steps[0]);
      assert forall i :: 0 <= i < |steps[1..]| ==> steps[1..][i] == steps[i + 1];
      RunInv(fm, LeaseWatch.Apply(fm, w, steps[0]), steps[1..]);
    }
  }

  // ------------------------------------------------------------ guarantees

  /** Every announced closing of `name`'s lease has been handled, and it has not changed since. */
  predicate Settled(fm: Formats, w: World, name: string) {
    && w.current.Some? && w.current.value.job.None?
    && !Pending(w.current.value.queue, WatchFile(fm, name)) && WatchFile(fm, name) !in w.dirty
  }

  /**
   In every run without late writes there is no derived file of a name not configured, and
   whenever the closings of a lease are handled its file is the rendering of the name
   servers now in the lease.
   */
  lemma DerivedFilesCoherent(fm: Formats, w: World, steps: seq<Step>, name: string)
    requires Init(fm, w) && Legal(fm, w, steps) && NoLateWrites(steps)
    ensures var t := Exec(fm, w, steps);
            && (ConfFile(fm, name) in t.confs ==> name in t.names)
            && (name in t.names && Settled(fm, t, name) && WatchFile(fm, name) in t.leases ==>
                  ConfFile(fm, name) in t.confs
                  && t.confs[ConfFile(fm, name)] == Derived(fm, name, t.leases[WatchFile(fm, name)]))
  {
    RunInv(fm, w, steps);
    var t := Exec(fm, w, steps);
    if name in t.names && Settled(fm, t, name) {
      assert Coherent(fm, t.leases, t.confs, t.current.value, t.dirty, name);
    }
  }

  /** Removing a lease is not announced as a closing of it: an event of its own says that it is gone. */
  predicate RemovalsAnnounced(steps: seq<Step>) {
    forall i :: 0 <= i < |steps| && steps[i].Touch? && steps[i].content.None? ==> !Handled(steps[i].ops)
  }

  /** The lease is there, or is known to have changed. */
  predicate LeaseKnown(fm: Formats, w: World, name: string) {
    WatchFile(fm, name) in w.leases || WatchFile(fm, name) in w.dirty
  }

  /** A derived file, or one about to be written, whose lease is gone has it in `dirty`. */
  ghost predicate LeasesKnown(fm: Formats, w: World) {
    && (forall n :: ConfFile(fm, n) in w.confs ==> LeaseKnown(fm, w, n))
    && (w.current.Some? && w.current.value.job.Some? ==> LeaseKnown(fm, w, w.current.value.job.value.name))
  }

  lemma FinishLeasesKnown(fm: Formats, w: World)
    requires LeasesKnown(fm, w) && Enabled(w, Finish)
    ensures LeasesKnown(fm, LeaseWatch.Apply(fm, w, Finish))
  {
    var job := w.current.value.job.value;
    forall n | ConfFile(fm, n) in Finished(fm, w.confs, job)
      ensures LeaseKnown(fm, w, n)
    {
      TwoNames(fm, n, job.name);
    }
  }

  lemma TouchLeaseKnown(fm: Formats, w: World, file: string, content: Option<string>, ops: set<Op>, name: string)
    requires LeaseKnown(fm, w, name) && (content.None? ==> !Handled(ops))
    ensures LeaseKnown(fm, Touched(w, file, content, ops), name)
  {
  }

  lemma TouchLeasesKnown(fm: Formats, w: World, file: string, content: Option<string>, ops: set<Op>)
    requires LeasesKnown(fm, w) && (content.None? ==> !Handled(ops))
    ensures LeasesKnown(fm, Touched(w, file, content, ops))
  {
    forall n | LeaseKnown(fm, w, n)
      ensures LeaseKnown(fm, Touched(w, file, content, ops), n)
    {
      TouchLeaseKnown(fm, w, file, content, ops, n);
    }
  }

  lemma StepLeasesKnown(fm: Formats, w: World, s: Step)
    requires Inv(fm, w) && LeasesKnown(fm, w) && Enabled(w, s) && !s.LateFinish?
    requires s.Touch? && s.content.None? ==> !Handled(s.ops)
    ensures LeasesKnown(fm, LeaseWatch.Apply(fm, w, s))
  {
    match s {
      case Touch(file, content, ops) => TouchLeasesKnown(fm, w, file, content, ops);
      case Take => FileMapMeans(fm, w.names);
      case Finish => FinishLeasesKnown(fm, w);
      case SetBegin(names) =>
        forall n | ConfFile(fm, n) in Begun(fm, w, names).confs
          ensures WatchFile(fm, n) in w.leases
        {
          SetAt(fm, w, names, n);
        }
      case Register =>
      case LateTake(_) =>
    }
  }

  lemma {:induction false} RunLeasesKnown(fm: Formats, w: World, steps: seq<Step>)
    requires Inv(fm, w) && LeasesKnown(fm, w) && Legal(fm, w, steps) && NoLateWrites(steps) && RemovalsAnnounced(steps)
    ensures LeasesKnown(fm, Exec(fm, w, steps))
    decreases steps
  {
    if steps != [] {
      StepInv(fm, w, steps[0]);
      StepLeasesKnown(fm, w, steps[0]);
      assert forall i :: 0 <= i < |steps[1..]| ==> steps[1..][i] == steps[i + 1];
      RunLeasesKnown(fm, LeaseWatch.Apply(fm, w, steps[0]), steps[1..]);
    }
  }

  /**
   Whatever leases are written, renewed and removed on the way, the file of a settled name
   depends on nothing but the names last configured and the lease: incremental handling
   equals deriving anew.
   */
  lemma SettledEqualsRebuild(fm: Formats, w: World, steps: seq<Step>, name: string)
    requires Init(fm, w) && Legal(fm, w, steps) && NoLateWrites(steps) && RemovalsAnnounced(steps)
    ensures var t := Exec(fm, w, steps);
            Settled(fm, t, name) ==>
              && (ConfFile(fm, name) in t.confs <==> name in t.names && WatchFile(fm, name) in t.leases)
              && NamedAfter(fm, FileMap(fm, t.names))
              && var rebuilt := DerivedFiles(fm, FileMap(fm, t.names), t.leases);
                 && (ConfFile(fm, name) in t.confs <==> ConfFile(fm, name) in rebuilt)
                 && (ConfFile(fm, name) in t.confs ==> t.confs[ConfFile(fm, name)] == rebuilt[ConfFile(fm, name)])
  {
    DerivedFilesCoherent(fm, w, steps, name);
    assert LeasesKnown(fm, w);
    RunLeasesKnown(fm, w, steps);
    var t := Exec(fm, w, steps);
    DerivedAt(fm, t.names, t.leases, name);
  }

  /** What is left for the event loop to do. */
  function ToDo(w: World): nat {
    if w.current.None? then 0
    else 2 * |w.current.value.queue| + (if w.current.value.job.Some? then 1 else 0)
  }

  /** Left alone, the event loop settles, in at most two steps an event, and leases and names stay as they are. */
  lemma {:induction false} LoopSettles(fm: Formats, w: World) returns (steps: seq<Step>)
    requires w.current.Some?
    ensures |steps| <= ToDo(w) && Legal(fm, w, steps) && NoLateWrites(steps) && RemovalsAnnounced(steps)
    ensures var t := Exec(fm, w, steps);
            && t.current.Some? && t.current.value.queue == [] && t.current.value.job.None?
            && t.leases == w.leases && t.names == w.names && t.dirty == w.dirty
    decreases ToDo(w)
  {
    if w.current.value.job.None? && w.current.value.queue == [] {
      steps := [];
    } else {
      var s := if w.current.value.job.Some? then Finish else Take;
      var rest := LoopSettles(fm, LeaseWatch.Apply(fm, w, s));
      steps := [s] + rest;
      assert steps[1..] == rest;
    }
  }

  /** So once the loop has run out of events every lease that was announced is reflected. */
  lemma EventuallyCoherent(fm: Formats, w: World) returns (steps: seq<Step>)
    requires Inv(fm, w) && w.current.Some? && w.dirty == {}
    ensures |steps| <= ToDo(w) && Legal(fm, w, steps)
    ensures var t := Exec(fm, w, steps);
            && t.leases == w.leases && t.names == w.names
            && forall n :: n in w.names && WatchFile(fm, n) in w.leases ==>
                 HasConf(fm, t.confs, n, w.leases[WatchFile(fm, n)])
  {
    steps := LoopSettles(fm, w);
    RunInv(fm, w, steps);
    var t := Exec(fm, w, steps);
    forall n | n in w.names && WatchFile(fm, n) in w.leases
      ensures HasConf(fm, t.confs, n, w.leases[WatchFile(fm, n)])
    {
      assert Coherent(fm, t.leases, t.confs, t.current.value, t.dirty, n);
    }
  }

  // ------------------------------------------------------------ read back

  /** What the derived files of these interfaces were generated from. */
  function DhcpSources(fm: Formats, names: seq<string>, leases: map<string, string>): map<string, Generated> {
    FilesApart(fm);
    map n | n in names && WatchFile(fm, n) in leases ::
      ConfFile(fm, n) := DhcpFile(n, Servers(fm, leases[WatchFile(fm, n)]))
  }

  function SystemSources(fm: Formats, names: seq<string>, leases: map<string, string>): map<string, Generated> {
    if "" in names && WatchFile(fm, "") in leases
    then map[ConfFile(fm, "") := SystemFile(Servers(fm, leases[WatchFile(fm, "")]))]
    else map[]
  }

  /** The DHCP and the system watcher write into one directory, different files. */
  ghost predicate SharedDir(dhcp: Formats, sys: Formats) {
    !dhcp.system && sys.system && forall n :: ConfFile(dhcp, n) != ConfFile(sys, "")
  }

  /** Where the files of both are by default. */
  const DHCP := Formats(false, "/var/lib/dhcp/dhclient_", "_lease", "/etc/dnsmasq.d/dhcpinterface-", ".conf")
  const SYSTEM := Formats(true, "/etc/resolv.conf", "", "/etc/dnsmasq.d/system.conf", "")

  lemma DefaultPaths(n: string)
    ensures WatchFile(DHCP, n) == "/var/lib/dhcp/dhclient_" + n + "_lease"
    ensures ConfFile(DHCP, n) == "/etc/dnsmasq.d/dhcpinterface-" + n + ".conf"
    ensures WatchFile(SYSTEM, "") == "/etc/resolv.conf" && ConfFile(SYSTEM, "") == "/etc/dnsmasq.d/system.conf"
  {
  }

  /** So they are different files. */
  lemma DefaultsShareDir()
    ensures SharedDir(DHCP, SYSTEM)
  {
    forall n
      ensures ConfFile(DHCP, n) != ConfFile(SYSTEM, "")
    {
      DefaultPaths(n);
      assert ConfFile(DHCP, n)[15] == 'd' && ConfFile(SYSTEM, "")[15] == 's';
    }
  }

  /** `file` is in the directory as an object left it. */
  predicate SameAs(files: map<string, string>, confs: map<string, string>, file: string) {
    (file in files <==> file in confs) && (file in files ==> files[file] == confs[file])
  }

  /** The files matched are interfaces' or the system one, each as its object left it. */
  ghost predicate LeftBy(dhcp: Formats, d: World, sys: Formats, s: World, files: map<string, string>, matched: seq<string>) {
    forall i :: 0 <= i < |matched| ==>
      || (matched[i] == ConfFile(sys, "") && SameAs(files, s.confs, matched[i]))
      || (SameAs(files, d.confs, matched[i]) && exists n :: matched[i] == ConfFile(dhcp, n))
  }

  /** Everything announced was handled, and can be written and read back. */
  ghost predicate SettledAndReadable(fm: Formats, t: World) {
    forall n :: n in t.names ==>
      && Settled(fm, t, n)
      && (WatchFile(fm, n) in t.leases ==>
            var servers := Servers(fm, t.leases[WatchFile(fm, n)]);
            Readable(if fm.system then SystemFile(servers) else DhcpFile(n, servers)))
  }

  /** A run of one object from the start. */
  ghost predicate Left(fm: Formats, w: World, steps: seq<Step>, t: World) {
    Init(fm, w) && Legal(fm, w, steps) && NoLateWrites(steps) && RemovalsAnnounced(steps) && t == Exec(fm, w, steps)
  }

  lemma DhcpSourceAt(fm: Formats, w: World, steps: seq<Step>, t: World, n: string)
    requires !fm.system && Left(fm, w, steps, t) && SettledAndReadable(fm, t) && ConfFile(fm, n) in t.confs
    ensures var sources := DhcpSources(fm, t.names, t.leases);
            && ConfFile(fm, n) in sources && t.confs[ConfFile(fm, n)] == Rendered(sources[ConfFile(fm, n)])
            && Readable(sources[ConfFile(fm, n)])
  {
    DerivedFilesCoherent(fm, w, steps, n);
    SettledEqualsRebuild(fm, w, steps, n);
    FilesApart(fm);
    assert DhcpSources(fm, t.names, t.leases)[ConfFile(fm, n)] == DhcpFile(n, Servers(fm, t.leases[WatchFile(fm, n)]));
  }

  lemma SystemSourceAt(fm: Formats, w: World, steps: seq<Step>, t: World)
    requires fm.system && Left(fm, w, steps, t) && SettledAndReadable(fm, t) && ConfFile(fm, "") in t.confs
    ensures var sources := SystemSources(fm, t.names, t.leases);
            && ConfFile(fm, "") in sources && t.confs[ConfFile(fm, "")] == Rendered(sources[ConfFile(fm, "")])
            && Readable(sources[ConfFile(fm, "")])
  {
    DerivedFilesCoherent(fm, w, steps, "");
    SettledEqualsRebuild(fm, w, steps, "");
  }

  /** What both objects' files were generated from. */
  function AllSources(dhcp: Formats, d: World, sys: Formats, s: World): map<string, Generated> {
    DhcpSources(dhcp, d.names, d.leases) + SystemSources(sys, s.names, s.leases)
  }

  lemma LeftIsProduced(dhcp: Formats, wd: World, dsteps: seq<Step>, d: World,
                       sys: Formats, ws: World, ssteps: seq<Step>, s: World,
                       fs: FileSystem, matched: seq<string>)
    requires SharedDir(dhcp, sys) && Left(dhcp, wd, dsteps, d) && Left(sys, ws, ssteps, s)
    requires SettledAndReadable(dhcp, d) && SettledAndReadable(sys, s)
    requires LeftBy(dhcp, d, sys, s, fs.files, matched)
    ensures Produced(fs, AllSources(dhcp, d, sys, s), matched)
  {
    var gen := AllSources(dhcp, d, sys, s);
    forall i | 0 <= i < |matched| && matched[i] in fs.files
      ensures matched[i] in gen && fs.files[matched[i]] == Rendered(gen[matched[i]]) && Readable(gen[matched[i]])
    {
      if matched[i] == ConfFile(sys, "") && SameAs(fs.files, s.confs, matched[i]) {
        SystemSourceAt(sys, ws, ssteps, s);
      } else {
        var n :| matched[i] == ConfFile(dhcp, n);
        DhcpSourceAt(dhcp, wd, dsteps, d, n);
      }
    }
  }

  /**
   From leases and resolv.conf to the operational state: when both objects are settled,
   reading the files a conf-dir pattern matches, interfaces' and the system one, gives file
   by file the servers in the leases and those marked in resolv.conf.
   */
  lemma LeasesReadBack(dhcp: Formats, wd: World, dsteps: seq<Step>, d: World,
                       sys: Formats, ws: World, ssteps: seq<Step>, s: World,
                       fs: FileSystem, matched: seq<string>, fuel: nat)
    requires SharedDir(dhcp, sys) && Left(dhcp, wd, dsteps, d) && Left(sys, ws, ssteps, s)
    requires SettledAndReadable(dhcp, d) && SettledAndReadable(sys, s)
    requires LeftBy(dhcp, d, sys, s, fs.files, matched) && fuel >= 1
    ensures ReadFiles(fs, matched, fuel) == Read(FilesNs(fs, AllSources(dhcp, d, sys, s), matched))
  {
    LeftIsProduced(dhcp, wd, dsteps, d, sys, ws, ssteps, s, fs, matched);
    FilesRead(fs, AllSources(dhcp, d, sys, s), matched, fuel);
  }
}
