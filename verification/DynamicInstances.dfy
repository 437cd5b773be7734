/**
 Several instances of dynamic DNS over the one set of directories they share
 (internal/dynamic/config.go, config.go): one top-level `Set` calls `Set` on each of them, in
 the order in which Go's maps happen to be walked.
 */
module DynamicInstances {
  import opened Wrappers
  import opened DynamicFiles
  import opened DynamicConfig
  import opened DynamicGuarantees

  /** One instance's `Set` within a top-level one. */
  datatype Turn = Turn(instance: string, before: map<string, Interface>, conf: Option<seq<Interface>>, date: string) {
    function After(): map<string, Interface> {
      ByName(Interfaces(conf))
    }
  }

  /** The files after each turn. */
  ghost predicate Turns(d: Dirs, order: seq<Turn>, files: seq<map<string, string>>) {
    && |files| == |order| + 1
    && forall k :: 0 <= k < |order| ==>
         FilesStep(d, order[k].instance, order[k].date, order[k].before, order[k].conf, files[k], files[k + 1])
  }

  /** The removal of an instance's run and cache directories spares configuration and environment files. */
  ghost predicate Separate(d: Dirs) {
    forall n ::
      && !Under(d.run, ConfFile(d, n)) && !Under(d.cache, ConfFile(d, n))
      && !Under(d.run, EnvFile(d, n)) && !Under(d.cache, EnvFile(d, n))
  }

  /** The directories there are by default. */
  const DEFAULT := Dirs("/var/run/ddclient", "/var/cache/ddclient", "/etc/ddclient", "/run/dns/", "")

  /** And where the files then are. */
  lemma DefaultPaths(n: string)
    ensures ConfFile(DEFAULT, n) == "/etc/ddclient/ddclient_" + n + ".conf"
    ensures PidFile(DEFAULT, n) == "/var/run/ddclient/ddclient_" + n + ".pid"
    ensures CacheFile(DEFAULT, n) == "/var/cache/ddclient/ddclient_" + n + ".cache"
    ensures EnvFile(DEFAULT, n) == "/run/dns/" + n + "/ddclient.env"
  {
    assert "/etc/ddclient" + "/" + "ddclient_" == "/etc/ddclient/ddclient_";
    assert "/var/run/ddclient" + "/" + "ddclient_" == "/var/run/ddclient/ddclient_";
    assert "/var/cache/ddclient" + "/" + "ddclient_" == "/var/cache/ddclient/ddclient_";
    assert "" + "/" + "ddclient.env" == "/ddclient.env";
  }

  lemma DefaultSeparate()
    ensures Separate(DEFAULT)
  {
    forall n
      ensures ConfFile(DEFAULT, n)[1] == 'e' && EnvFile(DEFAULT, n)[1] == 'r'
    {
    }
  }

  // ------------------------------------------------------------ whose a file is

  /** The files of interface `n`: none, or those of an instance's interface. */
  datatype Holder = Nobody | Held(instance: string, intf: Interface)

  ghost predicate FilesOf(d: Dirs, files: map<string, string>, n: string, h: Holder) {
    if h.Held?
    then && ConfFile(d, n) in files && Renders(d, files[ConfFile(d, n)], h.intf)
         && EnvFile(d, n) in files && files[EnvFile(d, n)] == EnvText(d, h.instance, n)
    else ConfFile(d, n) !in files && EnvFile(d, n) !in files
  }

  /** Who holds `n` once the turn is taken. */
  function HolderAfter(t: Turn, n: string, h: Holder): Holder {
    if n in t.After() then Held(t.instance, t.After()[n]) else if n in t.before then Nobody else h
  }

  function HolderOf(order: seq<Turn>, n: string, h: Holder): Holder {
    if order == [] then h else HolderAfter(order[|order| - 1], n, HolderOf(order[..|order| - 1], n, h))
  }

  /** What the turn expects of `n` before it: its own interface, or one to add. */
  predicate Expects(t: Turn, n: string, h: Holder) {
    n in t.After() && n in t.before ==> h == Held(t.instance, t.before[n])
  }

  lemma UntouchedFiles(d: Dirs, t: Turn, files: map<string, string>, files': map<string, string>, n: string)
    requires Separate(d) && FilesStep(d, t.instance, t.date, t.before, t.conf, files, files')
    requires n !in Gone(t.before, t.After()) && n !in Changed(t.before, t.After())
    ensures ConfFile(d, n) in files' <==> ConfFile(d, n) in files
    ensures ConfFile(d, n) in files ==> files'[ConfFile(d, n)] == files[ConfFile(d, n)]
    ensures EnvFile(d, n) in files' <==> EnvFile(d, n) in files
    ensures EnvFile(d, n) in files ==> files'[EnvFile(d, n)] == files[EnvFile(d, n)]
  {
    WithoutKeeps(files, d, Gone(t.before, t.After()), n);
    NotWritten(d, Changed(t.before, t.After()), n);
  }

  lemma DroppedFiles(d: Dirs, t: Turn, files: map<string, string>, files': map<string, string>, n: string)
    requires FilesStep(d, t.instance, t.date, t.before, t.conf, files, files') && n in Gone(t.before, t.After())
    ensures FilesOf(d, files', n, Nobody)
  {
    WithoutDrops(files, d, Gone(t.before, t.After()), n);
    NotWritten(d, Changed(t.before, t.After()), n);
  }

  lemma TurnFiles(d: Dirs, t: Turn, files: map<string, string>, files': map<string, string>, n: string, h: Holder)
    requires Separate(d) && FilesStep(d, t.instance, t.date, t.before, t.conf, files, files')
    requires Noticed(t.before, Interfaces(t.conf)) && FilesOf(d, files, n, h) && Expects(t, n, h)
    ensures FilesOf(d, files', n, HolderAfter(t, n, h))
  {
    var after := t.After();
    ByNameAgrees(Interfaces(t.conf));
    if n in Gone(t.before, after) {
      DroppedFiles(d, t, files, files', n);
    } else if n in Changed(t.before, after) {
      assert files'[ConfFile(d, n)] == ConfText(d, t.date, after[n]);
    } else {
      UntouchedFiles(d, t, files, files', n);
      if n in after {
        assert after[n] in after.Values;
      }
    }
  }

  // ------------------------------------------------------------ one Set

  /** No two instances have, or are to have, one interface; each instance is called once. */
  ghost predicate Exclusive(order: seq<Turn>) {
    forall j, k, n :: 0 <= j < k < |order| ==>
      && order[j].instance != order[k].instance
      && !(n in order[j].before && n in order[k].before)
      && !(n in order[j].After() && n in order[k].After())
  }

  /** An interface is added by one instance before another drops it. */
  predicate AddedBeforeDropped(order: seq<Turn>, n: string) {
    exists j, k :: 0 <= j < k < |order| && n in order[j].After() && n in order[k].before
  }

  /** Before the first turn the files are those of who has the interface. */
  predicate StartsWith(order: seq<Turn>, n: string, h: Holder) {
    && (forall k :: 0 <= k < |order| && n in order[k].before ==> h == Held(order[k].instance, order[k].before[n]))
    && ((forall k :: 0 <= k < |order| ==> n !in order[k].before) ==> h == Nobody)
  }

  /** And they should end as those of who is to have it. */
  predicate EndsWith(order: seq<Turn>, n: string, h: Holder) {
    && (forall k :: 0 <= k < |order| && n in order[k].After() ==> h == Held(order[k].instance, order[k].After()[n]))
    && ((forall k :: 0 <= k < |order| ==> n !in order[k].After()) ==> h == Nobody)
  }

  /** Until the turn that has `n`, nobody else touches it. */
  lemma {:induction false} HolderUntil(order: seq<Turn>, n: string, h: Holder, k: nat)
    requires k <= |order| && forall j :: 0 <= j < k ==> n !in order[j].before && n !in order[j].After()
    ensures HolderOf(order[..k], n, h) == h
  {
    if k > 0 {
      assert order[..k][..k - 1] == order[..k - 1];
      HolderUntil(order, n, h, k - 1);
    }
  }

  lemma TurnExpects(order: seq<Turn>, n: string, h: Holder, k: nat)
    requires Exclusive(order) && StartsWith(order, n, h) && k < |order|
    ensures Expects(order[k], n, HolderOf(order[..k], n, h))
  {
    if n in order[k].After() && n in order[k].before {
      HolderUntil(order, n, h, k);
    }
  }

  ghost predicate AllNoticedIn(order: seq<Turn>) {
    forall k :: 0 <= k < |order| ==> Noticed(order[k].before, Interfaces(order[k].conf))
  }

  lemma HolderNext(order: seq<Turn>, n: string, h: Holder, k: nat)
    requires k < |order|
    ensures HolderOf(order[..k + 1], n, h) == HolderAfter(order[k], n, HolderOf(order[..k], n, h))
  {
    assert order[..k + 1][..k] == order[..k];
  }

  lemma TurnAt(d: Dirs, order: seq<Turn>, files: seq<map<string, string>>, k: nat)
    requires Turns(d, order, files) && AllNoticedIn(order) && k < |order|
    ensures FilesStep(d, order[k].instance, order[k].date, order[k].before, order[k].conf, files[k], files[k + 1])
    ensures Noticed(order[k].before, Interfaces(order[k].conf))
  {
  }

  /** Every turn finds what it expects. */
  ghost predicate AllExpected(order: seq<Turn>, n: string, h: Holder) {
    forall k :: 0 <= k < |order| ==> Expects(order[k], n, HolderOf(order[..k], n, h))
  }

  lemma TurnsExpect(order: seq<Turn>, n: string, h: Holder)
    requires Exclusive(order) && StartsWith(order, n, h)
    ensures AllExpected(order, n, h)
  {
    forall k | 0 <= k < |order|
      ensures Expects(order[k], n, HolderOf(order[..k], n, h))
    {
      TurnExpects(order, n, h, k);
    }
  }

  lemma {:induction false} TurnsFiles(d: Dirs, order: seq<Turn>, files: seq<map<string, string>>, n: string, h: Holder, k: nat)
    requires Separate(d) && Turns(d, order, files) && AllNoticedIn(order) && AllExpected(order, n, h) && k <= |order|
    requires FilesOf(d, files[0], n, h)
    ensures FilesOf(d, files[k], n, HolderOf(order[..k], n, h))
  {
    if k > 0 {
      TurnsFiles(d, order, files, n, h, k - 1);
      TurnAt(d, order, files, k - 1);
      TurnFiles(d, order[k - 1], files[k - 1], files[k], n, HolderOf(order[..k - 1], n, h));
      HolderNext(order, n, h, k - 1);
    }
  }

  /** After the last turn that touches `n` its holder stays. */
  lemma {:induction false} HolderSince(order: seq<Turn>, n: string, h: Holder, a: nat, k: nat)
    requires a < k <= |order| && (n in order[a].before || n in order[a].After())
    requires forall j :: a < j < k ==> n !in order[j].before && n !in order[j].After()
    ensures HolderOf(order[..k], n, h)
            == if n in order[a].After() then Held(order[a].instance, order[a].After()[n]) else Nobody
    decreases k
  {
    assert order[..k][..k - 1] == order[..k - 1];
    if a < k - 1 {
      HolderSince(order, n, h, a, k - 1);
    }
  }

  /** Whoever is to have `n` has it in the end. */
  lemma HolderWins(order: seq<Turn>, n: string, h: Holder, a: nat)
    requires Exclusive(order) && !AddedBeforeDropped(order, n) && a < |order| && n in order[a].After()
    ensures HolderOf(order, n, h) == Held(order[a].instance, order[a].After()[n])
  {
    assert order[..|order|] == order;
    HolderSince(order, n, h, a, |order|);
  }

  /** Once one drops `n`, nobody has it who did not add it later. */
  lemma HolderDrops(order: seq<Turn>, n: string, h: Holder, k: nat)
    requires Exclusive(order) && k < |order| && n in order[k].before && n !in order[k].After()
    requires forall j :: k < j < |order| ==> n !in order[j].After()
    ensures HolderOf(order, n, h) == Nobody
  {
    assert order[..|order|] == order;
    HolderSince(order, n, h, k, |order|);
  }

  lemma EndsHeld(order: seq<Turn>, n: string, a: nat)
    requires Exclusive(order) && a < |order| && n in order[a].After()
    ensures EndsWith(order, n, Held(order[a].instance, order[a].After()[n]))
  {
  }

  /** Somebody is to have `n`. */
  ghost predicate IsWanted(order: seq<Turn>, n: string) {
    exists a :: 0 <= a < |order| && n in order[a].After()
  }

  lemma UnwantedEndsNobody(order: seq<Turn>, n: string, h: Holder)
    requires Exclusive(order) && StartsWith(order, n, h) && !IsWanted(order, n)
    ensures HolderOf(order, n, h) == Nobody
  {
    if a :| 0 <= a < |order| && n in order[a].before {
      HolderDrops(order, n, h, a);
    } else {
      assert order[..|order|] == order;
      HolderUntil(order, n, h, |order|);
    }
  }

  lemma HolderIsRight(order: seq<Turn>, n: string, h: Holder)
    requires Exclusive(order) && StartsWith(order, n, h) && !AddedBeforeDropped(order, n)
    ensures EndsWith(order, n, HolderOf(order, n, h))
  {
    if IsWanted(order, n) {
      var a :| 0 <= a < |order| && n in order[a].After();
      HolderWins(order, n, h, a);
      EndsHeld(order, n, a);
    } else {
      UnwantedEndsNobody(order, n, h);
    }
  }

  lemma HolderIsLost(order: seq<Turn>, n: string, h: Holder)
    requires Exclusive(order) && AddedBeforeDropped(order, n)
    ensures HolderOf(order, n, h) == Nobody && !EndsWith(order, n, Nobody)
  {
    var j, k :| 0 <= j < k < |order| && n in order[j].After() && n in order[k].before;
    HolderDrops(order, n, h, k);
  }

  /** The files are those of the configurations the turns set, each under its instance's name. */
  ghost predicate AllRight(d: Dirs, order: seq<Turn>, files: map<string, string>) {
    forall n, h :: EndsWith(order, n, h) ==> FilesOf(d, files, n, h)
  }

  /** And those the instances had before. */
  ghost predicate RightBefore(d: Dirs, order: seq<Turn>, files: map<string, string>) {
    forall n, h :: StartsWith(order, n, h) ==> FilesOf(d, files, n, h)
  }

  lemma SomeEnd(order: seq<Turn>, n: string) returns (h: Holder)
    requires Exclusive(order)
    ensures EndsWith(order, n, h)
  {
    if k :| 0 <= k < |order| && n in order[k].After() {
      h := Held(order[k].instance, order[k].After()[n]);
    } else {
      h := Nobody;
    }
  }

  lemma SomeStart(order: seq<Turn>, n: string) returns (h: Holder)
    requires Exclusive(order)
    ensures StartsWith(order, n, h)
  {
    if k :| 0 <= k < |order| && n in order[k].before {
      h := Held(order[k].instance, order[k].before[n]);
    } else {
      h := Nobody;
    }
  }

  lemma OneEnd(order: seq<Turn>, n: string, h: Holder, h': Holder)
    requires EndsWith(order, n, h) && EndsWith(order, n, h')
    ensures h == h'
  {
    if k :| 0 <= k < |order| && n in order[k].After() {
      assert h == h' == Held(order[k].instance, order[k].After()[n]);
    }
  }

  /**
   One top-level `Set`, in the order its turns happen to be taken: it leaves exactly the files
   of the configurations it sets if and only if no interface is added by one instance before
   another drops it.  So it does in every order exactly when no interface moves.
   */
  lemma SharedFilesExactly(d: Dirs, order: seq<Turn>, files: seq<map<string, string>>)
    requires Separate(d) && Turns(d, order, files) && Exclusive(order)
    requires AllNoticedIn(order) && RightBefore(d, order, files[0])
    ensures AllRight(d, order, files[|order|]) <==> forall n :: !AddedBeforeDropped(order, n)
  {
    assert order[..|order|] == order;
    if n :| AddedBeforeDropped(order, n) {
      var h := SomeStart(order, n);
      TurnsExpect(order, n, h);
      TurnsFiles(d, order, files, n, h, |order|);
      HolderIsLost(order, n, h);
      var right := SomeEnd(order, n);
      assert FilesOf(d, files[|order|], n, Nobody) && right.Held?;
    } else {
      forall n, h | EndsWith(order, n, h)
        ensures FilesOf(d, files[|order|], n, h)
      {
        var start := SomeStart(order, n);
        TurnsExpect(order, n, start);
        TurnsFiles(d, order, files, n, start, |order|);
        HolderIsRight(order, n, start);
        OneEnd(order, n, h, HolderOf(order, n, start));
      }
    }
  }
}
