/**
 The watchers that derive name server files (internal/forwarding/dhcp.go, system.go) and
 the event loop under them (internal/fswatcher/fswatcher.go), as steps of a system: leases
 change and announce it, the loop takes events one by one, and `Set` replaces the watcher.
 */
module LeaseWatch {
  import opened Wrappers
  import opened LeaseFiles

  // ------------------------------------------------------------ events

  datatype Op = Create | Write | Remove | Rename | Chmod | CloseWrite

  datatype Event = Event(name: string, ops: set<Op>)

  /** The one operation `dispatchEvent` looks for a handler of. */
  function Dispatched(ops: set<Op>): Option<Op> {
    if Write in ops then Some(Write)
    else if Create in ops then Some(Create)
    else if Rename in ops then Some(Rename)
    else if Remove in ops then Some(Remove)
    else if CloseWrite in ops then Some(CloseWrite)
    else None
  }

  /** These watchers handle nothing else. */
  predicate Handled(ops: set<Op>) {
    Dispatched(ops) == Some(CloseWrite)
  }

  /** A closing is handled exactly when the event announces nothing else but a change of attributes. */
  lemma HandledAlone(ops: set<Op>)
    ensures Handled(ops) <==> CloseWrite in ops && ops <= {CloseWrite, Chmod}
  {
    assert Handled(ops) ==> forall op :: op in ops ==> op == CloseWrite || op == Chmod;
  }

  // ------------------------------------------------------------ the system

  /** The lease a handler has read and not yet written out. */
  datatype Job = Job(name: string, text: string)

  /** `files` maps watched files to names. */
  datatype Watcher = Watcher(files: map<string, string>, queue: seq<Event>, job: Option<Job>)

  /**
   `starting` has read the leases and is not yet registered; `retired` watchers were
   stopped but their loops may not have seen it.  `dirty` is history: the files changed
   since their last announced closing.
   */
  datatype World = World(
    leases: map<string, string>,
    confs: map<string, string>,
    names: seq<string>,
    starting: Option<Watcher>,
    current: Option<Watcher>,
    retired: seq<Watcher>,
    dirty: set<string>,
    restarts: nat)

  datatype Step =
    | Touch(file: string, content: Option<string>, ops: set<Op>)
    | Take
    | Finish
    | SetBegin(names: seq<string>)
    | Register
    | LateTake(k: nat)
    | LateFinish(k: nat)

  /** The watched files of these names. */
  function FileMap(fm: Formats, names: seq<string>): map<string, string> {
    if names == [] then map[]
    else FileMap(fm, names[..|names| - 1])[WatchFile(fm, names[|names| - 1]) := names[|names| - 1]]
  }

  /** What `Set` removes: the files of the names so far, and the system file always. */
  function RemovedConfs(fm: Formats, names: seq<string>): set<string> {
    (set n | n in names :: ConfFile(fm, n)) + (if fm.system then {ConfFile(fm, "")} else {})
  }

  /** Where the derived files of the leases there are go. */
  function Places(fm: Formats, files: map<string, string>, leases: map<string, string>): map<string, string> {
    map f | f in files && f in leases :: ConfFile(fm, files[f])
  }

  /** And what is in them. */
  function Texts(fm: Formats, files: map<string, string>, leases: map<string, string>): map<string, string> {
    map f | f in files && f in leases :: Derived(fm, files[f], leases[f])
  }

  predicate Apart(places: map<string, string>) {
    forall f, g :: f in places && g in places && f != g ==> places[f] != places[g]
  }

  function Put(places: map<string, string>, texts: map<string, string>): map<string, string>
    requires Apart(places) && texts.Keys == places.Keys
  {
    map f | f in places :: places[f] := texts[f]
  }

  /** The files derived from the leases there are of `files`. */
  function DerivedFiles(fm: Formats, files: map<string, string>, leases: map<string, string>): map<string, string>
    requires NamedAfter(fm, files)
  {
    PlacesApart(fm, files, leases);
    Put(Places(fm, files, leases), Texts(fm, files, leases))
  }

  lemma PlacesApart(fm: Formats, files: map<string, string>, leases: map<string, string>)
    requires NamedAfter(fm, files)
    ensures Apart(Places(fm, files, leases))
  {
    FilesApart(fm);
  }

  /** Every file is the one of the name it stands for. */
  ghost predicate NamedAfter(fm: Formats, files: map<string, string>) {
    forall f :: f in files ==> f == WatchFile(fm, files[f])
  }

  lemma {:induction false} FileMapMeans(fm: Formats, names: seq<string>)
    ensures NamedAfter(fm, FileMap(fm, names))
    ensures forall f :: f in FileMap(fm, names) ==> FileMap(fm, names)[f] in names
    ensures forall n :: n in names ==> WatchFile(fm, n) in FileMap(fm, names) && FileMap(fm, names)[WatchFile(fm, n)] == n
  {
    FilesApart(fm);
    if names != [] {
      var pre, last := names[..|names| - 1], names[|names| - 1];
      FileMapMeans(fm, pre);
      assert names == pre + [last];
    }
  }

  /** What `Set(wanted)` makes of the derived files. */
  function SetConfs(fm: Formats, confs: map<string, string>, names: seq<string>, wanted: seq<string>,
                    leases: map<string, string>): map<string, string>
  {
    FileMapMeans(fm, wanted);
    confs - RemovedConfs(fm, names) + DerivedFiles(fm, FileMap(fm, wanted), leases)
  }

  /** The loop takes an event and, if it is a closing it can act on, reads the lease. */
  function Taken(w: Watcher, leases: map<string, string>): Watcher
    requires w.queue != []
  {
    var e := w.queue[0];
    w.(queue := w.queue[1..],
       job := if e.name in w.files && Handled(e.ops) && e.name in leases
              then Some(Job(w.files[e.name], leases[e.name]))
              else None)
  }

  function Finished(fm: Formats, confs: map<string, string>, job: Job): map<string, string> {
    confs[ConfFile(fm, job.name) := Derived(fm, job.name, job.text)]
  }

  /** An event, and the leases as they are when it is handled. */
  datatype Turn = Turn(event: Event, leases: map<string, string>)

  /** What the handler of an event writes, if anything. */
  function JobOf(files: map<string, string>, turn: Turn): Option<Job> {
    Taken(Watcher(files, [turn.event], None), turn.leases).job
  }

  function Handle(fm: Formats, files: map<string, string>, confs: map<string, string>, turn: Turn): map<string, string> {
    if JobOf(files, turn).Some? then Finished(fm, confs, JobOf(files, turn).value) else confs
  }

  function HandleAll(fm: Formats, files: map<string, string>, confs: map<string, string>, turns: seq<Turn>): map<string, string> {
    if turns == [] then confs
    else Handle(fm, files, HandleAll(fm, files, confs, turns[..|turns| - 1]), turns[|turns| - 1])
  }

  /** dnsmasq is restarted once for every file written. */
  function Restarts(files: map<string, string>, turns: seq<Turn>): nat {
    if turns == [] then 0
    else Restarts(files, turns[..|turns| - 1]) + if JobOf(files, turns[|turns| - 1]).Some? then 1 else 0
  }

  /** The event closes a watched file, and nothing else but attributes, while its lease is there. */
  predicate ClosesLease(files: map<string, string>, turn: Turn) {
    && CloseWrite in turn.event.ops && turn.event.ops <= {CloseWrite, Chmod}
    && turn.event.name in files && turn.event.name in turn.leases
  }

  /** The turns among the first `n` whose events close a lease. */
  function Closings(files: map<string, string>, turns: seq<Turn>, n: nat): set<nat>
    requires n <= |turns|
  {
    set i: nat | i < n && ClosesLease(files, turns[i])
  }

  lemma OneMoreClosing(files: map<string, string>, turns: seq<Turn>)
    requires turns != []
    ensures var n := |turns| - 1;
            |Closings(files, turns, n + 1)| == |Closings(files, turns[..n], n)| + if ClosesLease(files, turns[n]) then 1 else 0
  {
    var n := |turns| - 1;
    assert Closings(files, turns[..n], n) == Closings(files, turns, n);
    assert Closings(files, turns, n + 1) == Closings(files, turns, n) + if ClosesLease(files, turns[n]) then {n} else {};
  }

  /** dnsmasq is restarted once for each closing of a watched lease that is there, and for nothing else. */
  lemma {:induction false} RestartForEachClosing(files: map<string, string>, turns: seq<Turn>)
    ensures Restarts(files, turns) == |Closings(files, turns, |turns|)|
  {
    if turns != [] {
      var n := |turns| - 1;
      RestartForEachClosing(files, turns[..n]);
      HandledAlone(turns[n].event.ops);
      OneMoreClosing(files, turns);
    }
  }

  /** Each derived file is that of the last closing handled for its name, and others are as they were. */
  lemma {:induction false} LastTurnWins(fm: Formats, files: map<string, string>, confs: map<string, string>,
                                        turns: seq<Turn>, i: nat)
    requires i < |turns| && JobOf(files, turns[i]).Some?
    requires forall j :: i < j < |turns| && JobOf(files, turns[j]).Some? ==>
               JobOf(files, turns[j]).value.name != JobOf(files, turns[i]).value.name
    ensures var job, after := JobOf(files, turns[i]).value, HandleAll(fm, files, confs, turns);
            && ConfFile(fm, job.name) in after
            && after[ConfFile(fm, job.name)] == Derived(fm, job.name, job.text)
  {
    FilesApart(fm);
    if i < |turns| - 1 {
      LastTurnWins(fm, files, confs, turns[..|turns| - 1], i);
    }
  }

  lemma {:induction false} UnhandledKept(fm: Formats, files: map<string, string>, confs: map<string, string>,
                                         turns: seq<Turn>, path: string)
    requires forall i :: 0 <= i < |turns| && JobOf(files, turns[i]).Some? ==>
               ConfFile(fm, JobOf(files, turns[i]).value.name) != path
    ensures var after := HandleAll(fm, files, confs, turns);
            && (path in after <==> path in confs)
            && (path in confs ==> after[path] == confs[path])
  {
    if turns != [] {
      UnhandledKept(fm, files, confs, turns[..|turns| - 1], path);
    }
  }

  function Notified(w: Option<Watcher>, e: Event): Option<Watcher> {
    if w.Some? then Some(w.value.(queue := w.value.queue + [e])) else None
  }

  function Retired(ws: seq<Watcher>, e: Event): seq<Watcher> {
    seq(|ws|, i requires 0 <= i < |ws| => ws[i].(queue := ws[i].queue + [e]))
  }

  function Changed(leases: map<string, string>, file: string, content: Option<string>): map<string, string> {
    if content.Some? then leases[file := content.value] else leases - {file}
  }

  function LeaseOf(leases: map<string, string>, file: string): Option<string> {
    if file in leases then Some(leases[file]) else None
  }

  predicate Enabled(w: World, s: Step) {
    match s
    case Touch(_, _, _) => true
    case Take => w.current.Some? && w.current.value.job.None? && w.current.value.queue != []
    case Finish => w.current.Some? && w.current.value.job.Some?
    case SetBegin(_) => w.starting.None?
    case Register => w.starting.Some?
    case LateTake(k) => k < |w.retired| && w.retired[k].job.None? && w.retired[k].queue != []
    case LateFinish(k) => k < |w.retired| && w.retired[k].job.Some?
  }

  /** A lease changes, or not, and the change is announced. */
  function Touched(w: World, file: string, content: Option<string>, ops: set<Op>): World {
    var e := Event(file, ops);
    w.(leases := Changed(w.leases, file, content),
       current := Notified(w.current, e),
       retired := Retired(w.retired, e),
       dirty := if w.current.Some? && Handled(ops) then w.dirty - {file}
                else if LeaseOf(w.leases, file) != content then w.dirty + {file}
                else w.dirty)
  }

  /** `Set` up to `fswatcher.Start`: stop, remove, and derive the files of the leases there are. */
  function Begun(fm: Formats, w: World, names: seq<string>): World {
    w.(names := names,
       confs := SetConfs(fm, w.confs, w.names, names, w.leases),
       starting := if names == [] then None else Some(Watcher(FileMap(fm, names), [], None)),
       current := None,
       retired := w.retired + (if w.current.Some? then [w.current.value] else []),
       dirty := {})
  }

  function Apply(fm: Formats, w: World, s: Step): World
    requires Enabled(w, s)
  {
    match s
    case Touch(file, content, ops) => Touched(w, file, content, ops)
    case Take => w.(current := Some(Taken(w.current.value, w.leases)))
    case Finish =>
      w.(current := Some(w.current.value.(job := None)),
         confs := Finished(fm, w.confs, w.current.value.job.value), restarts := w.restarts + 1)
    case SetBegin(names) => Begun(fm, w, names)
    case Register => w.(current := w.starting, starting := None)
    case LateTake(k) => w.(retired := w.retired[k := Taken(w.retired[k], w.leases)])
    case LateFinish(k) =>
      w.(retired := w.retired[k := w.retired[k].(job := None)],
         confs := Finished(fm, w.confs, w.retired[k].job.value), restarts := w.restarts + 1)
  }

  predicate Legal(fm: Formats, w: World, steps: seq<Step>)
    decreases steps
  {
    steps == [] || (Enabled(w, steps[0]) && Legal(fm, Apply(fm, w, steps[0]), steps[1..]))
  }

  function Exec(fm: Formats, w: World, steps: seq<Step>): World
    requires Legal(fm, w, steps)
    decreases steps
  {
    if steps == [] then w else Exec(fm, Apply(fm, w, steps[0]), steps[1..])
  }

  // ------------------------------------------------------------ the object

  /** `dhcpConfig` or `systemConfig`, with the files it writes. */
  class Reconciler {
    const fm: Formats
    var names: seq<string>
    var files: Option<map<string, string>>
    var confs: map<string, string>

    constructor (formats: Formats)
      ensures fm == formats && names == [] && files == None && confs == map[]
    {
      fm, names, files, confs := formats, [], None, map[];
    }

    method RemoveConfFiles()
      modifies this`confs
      ensures confs == old(confs) - RemovedConfs(fm, names)
    {
      var n := 0;
      while n < |names|
        invariant 0 <= n <= |names|
        invariant confs == old(confs) - (set m | m in names[..n] :: ConfFile(fm, m))
      {
        assert names[..n + 1] == names[..n] + [names[n]];
        confs := confs - {ConfFile(fm, names[n])};
        n := n + 1;
      }
      assert names[..n] == names;
      if fm.system {
        confs := confs - {ConfFile(fm, "")};
      }
    }

    /** The name servers of `text`, written to the file of `name`. */
    method WriteConfFile(name: string, text: string)
      modifies this`confs
      ensures confs == Finished(fm, old(confs), Job(name, text))
    {
      var ns: seq<string>;
      if fm.system {
        ns := ReadSystem(text);
        confs := confs[ConfFile(fm, name) := DnsmasqFiles.WriteSystemConfig(ns)];
      } else {
        ns := ReadLease(text);
        confs := confs[ConfFile(fm, name) := DnsmasqFiles.WriteDhcpConfig(name, ns)];
      }
    }

    method ReadOne(ghost base: map<string, string>, watched: map<string, string>, ghost done: set<string>,
                   leases: map<string, string>, f: string)
      requires NamedAfter(fm, watched) && f in watched && f !in done
      requires ReadSoFar(fm, base, watched, done, leases, confs)
      modifies this`confs
      ensures ReadSoFar(fm, base, watched, done + {f}, leases, confs)
    {
      ReadOneMore(fm, base, watched, done, leases, confs, f);
      if f in leases {
        WriteConfFile(watched[f], leases[f]);
      }
    }

    /** Reads the leases there are, in any order. */
    method ReadExisting(watched: map<string, string>, leases: map<string, string>)
      requires NamedAfter(fm, watched)
      modifies this`confs
      ensures confs == old(confs) + DerivedFiles(fm, watched, leases)
    {
      var done: set<string> := {};
      ghost var base := confs;
      NothingRead(fm, base, watched, leases);
      while done != watched.Keys
        invariant done <= watched.Keys
        invariant ReadSoFar(fm, base, watched, done, leases, confs)
        decreases watched.Keys - done
      {
        SomeLeft(done, watched.Keys);
        var f :| f in watched.Keys - done;
        ReadOne(base, watched, done, leases, f);
        done := done + {f};
      }
      AllRead(fm, base, watched, leases, confs);
    }

    method WatchedFiles(wanted: seq<string>) returns (watched: map<string, string>)
      ensures watched == FileMap(fm, wanted)
    {
      watched := map[];
      var n := 0;
      while n < |wanted|
        invariant 0 <= n <= |wanted| && watched == FileMap(fm, wanted[..n])
      {
        assert wanted[..n + 1][..n] == wanted[..n];
        watched := watched[WatchFile(fm, wanted[n]) := wanted[n]];
        n := n + 1;
      }
      assert wanted[..n] == wanted;
    }

    /** `Set`, with the leases there are; the old watcher is stopped first. */
    method SetNames(wanted: seq<string>, leases: map<string, string>)
      modifies this
      ensures names == wanted
      ensures confs == SetConfs(fm, old(confs), old(names), wanted, leases)
      ensures files == if wanted == [] then None else Some(FileMap(fm, wanted))
    {
      RemoveConfFiles();
      FileMapMeans(fm, wanted);
      if wanted == [] {
        files := None;
      } else {
        var watched := WatchedFiles(wanted);
        ReadExisting(watched, leases);
        files := Some(watched);
      }
      names := wanted;
    }

    /** `CloseWrite`; whether dnsmasq is restarted. */
    method HandleCloseWrite(file: string, leases: map<string, string>) returns (restart: bool)
      requires files.Some?
      modifies this`confs
      ensures restart <==> file in files.value && file in leases
      ensures confs == if restart then Finished(fm, old(confs), Job(files.value[file], leases[file])) else old(confs)
    {
      restart := file in files.value && file in leases;
      if restart {
        WriteConfFile(files.value[file], leases[file]);
      }
    }

    /** One turn of the event loop: taking the event and finishing what it asks for. */
    method HandleEvent(turn: Turn) returns (restart: bool)
      requires files.Some?
      modifies this`confs
      ensures restart <==> JobOf(files.value, turn).Some?
      ensures confs == Handle(fm, files.value, old(confs), turn)
    {
      restart := false;
      var e := turn.event;
      if e.name in files.value && Dispatched(e.ops) == Some(CloseWrite) {
        restart := HandleCloseWrite(e.name, turn.leases);
      }
    }

    /** The event loop, over the events `select` hands it until it is stopped; how often dnsmasq is restarted. */
    method Run(turns: seq<Turn>) returns (restarts: nat)
      requires files.Some?
      modifies this`confs
      ensures restarts == Restarts(files.value, turns)
      ensures confs == HandleAll(fm, files.value, old(confs), turns)
    {
      restarts := 0;
      var n := 0;
      while n < |turns|
        invariant 0 <= n <= |turns| && restarts == Restarts(files.value, turns[..n])
        invariant confs == HandleAll(fm, files.value, old(confs), turns[..n])
      {
        assert turns[..n + 1][..n] == turns[..n];
        var restart := HandleEvent(turns[n]);
        if restart {
          restarts := restarts + 1;
        }
        n := n + 1;
      }
      assert turns[..n] == turns;
    }
  }

  function Restricted(m: map<string, string>, keys: set<string>): map<string, string> {
    map f | f in m && f in keys :: m[f]
  }

  /** The leases of `done` have been read. */
  ghost predicate ReadSoFar(fm: Formats, base: map<string, string>, watched: map<string, string>, done: set<string>,
                            leases: map<string, string>, confs: map<string, string>)
    requires NamedAfter(fm, watched)
  {
    confs == base + DerivedFiles(fm, Restricted(watched, done), leases)
  }

  lemma NothingRead(fm: Formats, base: map<string, string>, watched: map<string, string>, leases: map<string, string>)
    requires NamedAfter(fm, watched)
    ensures ReadSoFar(fm, base, watched, {}, leases, base)
  {
  }

  lemma AllRead(fm: Formats, base: map<string, string>, watched: map<string, string>, leases: map<string, string>,
                confs: map<string, string>)
    requires NamedAfter(fm, watched) && ReadSoFar(fm, base, watched, watched.Keys, leases, confs)
    ensures confs == base + DerivedFiles(fm, watched, leases)
  {
    assert Restricted(watched, watched.Keys) == watched;
  }

  lemma PutOneMore(places: map<string, string>, texts: map<string, string>, f: string, place: string, text: string)
    requires Apart(places[f := place]) && texts.Keys == places.Keys && f !in places
    ensures Apart(places) && Put(places[f := place], texts[f := text]) == Put(places, texts)[place := text]
  {
    forall g, h | g in places && h in places && g != h
      ensures places[g] != places[h]
    {
      assert places[f := place][g] != places[f := place][h];
    }
    var places' := places[f := place];
    assert f in places';
    forall g | g in places
      ensures g in places' && places'[g] == places[g] != place
    {
    }
  }

  lemma PlacesMore(fm: Formats, watched: map<string, string>, done: set<string>, leases: map<string, string>, f: string)
    requires f in watched && f !in done
    ensures var before := Places(fm, Restricted(watched, done), leases);
            && f !in before
            && Places(fm, Restricted(watched, done + {f}), leases)
               == if f in leases then before[f := ConfFile(fm, watched[f])] else before
  {
  }

  lemma TextsMore(fm: Formats, watched: map<string, string>, done: set<string>, leases: map<string, string>, f: string)
    requires f in watched && f !in done
    ensures var before := Texts(fm, Restricted(watched, done), leases);
            Texts(fm, Restricted(watched, done + {f}), leases)
            == if f in leases then before[f := Derived(fm, watched[f], leases[f])] else before
  {
  }

  lemma AddedOneMore(base: map<string, string>, places: map<string, string>, texts: map<string, string>,
                     f: string, place: string, text: string)
    requires Apart(places[f := place]) && texts.Keys == places.Keys && f !in places
    ensures Apart(places)
    ensures base + Put(places[f := place], texts[f := text]) == (base + Put(places, texts))[place := text]
  {
    PutOneMore(places, texts, f, place, text);
    UpdateLast(base, Put(places, texts), place, text);
  }

  lemma UpdateLast(base: map<string, string>, m: map<string, string>, k: string, v: string)
    ensures base + m[k := v] == (base + m)[k := v]
  {
  }

  lemma StillNamed(fm: Formats, files: map<string, string>, keys: set<string>)
    requires NamedAfter(fm, files)
    ensures NamedAfter(fm, Restricted(files, keys))
  {
  }

  /** One more lease was read, and its file written. */
  lemma ReadOneMore(fm: Formats, base: map<string, string>, watched: map<string, string>, done: set<string>,
                    leases: map<string, string>, confs: map<string, string>, f: string)
    requires NamedAfter(fm, watched) && f in watched && f !in done
    requires ReadSoFar(fm, base, watched, done, leases, confs)
    ensures ReadSoFar(fm, base, watched, done + {f}, leases,
                      if f in leases then Finished(fm, confs, Job(watched[f], leases[f])) else confs)
  {
    StillNamed(fm, watched, done + {f});
    PlacesApart(fm, Restricted(watched, done + {f}), leases);
    PlacesMore(fm, watched, done, leases, f);
    TextsMore(fm, watched, done, leases, f);
    if f in leases {
      AddedOneMore(base, Places(fm, Restricted(watched, done), leases), Texts(fm, Restricted(watched, done), leases),
                   f, ConfFile(fm, watched[f]), Derived(fm, watched[f], leases[f]));
    }
  }
}
