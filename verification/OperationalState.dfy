/**
 The whole of a forwarding instance: any run of `Set`s, the DHCP and system watchers after
 any settled runs of theirs, the files they leave, the reader and the merge
 (internal/forwarding).
 */
module OperationalState {
  import opened Wrappers
  import opened ForwardingData
  import opened Provenance
  import opened DnsmasqFiles
  import opened EndToEnd
  import F = ForwardingConfig
  import G = ForwardingGuarantees
  import LeaseFiles
  import L = LeaseWatch
  import LG = LeaseGuarantees

  /** A watcher's object after a run, with everything announced handled. */
  datatype Watched = Watched(fm: LeaseFiles.Formats, start: L.World, steps: seq<L.Step>, end: L.World) {
    ghost predicate Settled() {
      LG.Left(fm, start, steps, end) && LG.SettledAndReadable(fm, end)
    }

    /** `a` is a server in the lease of interface `n`. */
    ghost predicate Leased(n: string, a: string) {
      && n in end.names && LeaseFiles.WatchFile(fm, n) in end.leases
      && a in LeaseFiles.Servers(fm, end.leases[LeaseFiles.WatchFile(fm, n)])
    }
  }

  function Gen(dhcp: Watched, sys: Watched): map<string, Generated> {
    LG.AllSources(dhcp.fm, dhcp.end, sys.fm, sys.end)
  }

  /** The configuration of the last update that got as far as the main file. */
  function LastWritten(p: Paths, ops: seq<F.SetOp>): (c: ConfigData)
    requires G.LastUpdate(p, ops, G.WRITES).Some? && G.LastUpdate(p, ops, G.WRITES).value.conf.Some?
  {
    G.LastUpdate(p, ops, G.WRITES).value.conf.value
  }

  /** Something was written and nothing deleted; it can be read back; and the conf-dir is as the watchers left it. */
  ghost predicate Deployed(p: Paths, ops: seq<F.SetOp>, dhcp: Watched, sys: Watched, fs: FileSystem) {
    && !G.HasDelete(ops) && G.LastUpdate(p, ops, G.WRITES).Some? && G.LastUpdate(p, ops, G.WRITES).value.conf.Some?
    && PathsReadable(p) && ConfigReadable(LastWritten(p, ops))
    && LG.SharedDir(dhcp.fm, sys.fm) && dhcp.Settled() && sys.Settled()
    && forall i :: 0 <= i < |Globs(p)| ==>
         LG.LeftBy(dhcp.fm, dhcp.end, sys.fm, sys.end, fs.files, Matched(fs, p.confDir, Globs(p)[i]))
  }

  lemma DeployedIsWritten(p: Paths, ops: seq<F.SetOp>, dhcp: Watched, sys: Watched, fs: FileSystem)
    requires Deployed(p, ops, dhcp, sys, fs)
    ensures WrittenByService(fs, Gen(dhcp, sys), p, LastWritten(p, ops))
  {
    forall i | 0 <= i < |Globs(p)|
      ensures Produced(fs, Gen(dhcp, sys), Matched(fs, p.confDir, Globs(p)[i]))
    {
      LG.LeftIsProduced(dhcp.fm, dhcp.start, dhcp.steps, dhcp.end, sys.fm, sys.start, sys.steps, sys.end,
                        fs, Matched(fs, p.confDir, Globs(p)[i]));
    }
  }

  /** A pattern of the conf-dir matches the file of interface `n`. */
  ghost predicate FileMatched(fs: FileSystem, p: Paths, dhcp: Watched, n: string) {
    exists g, i :: 0 <= g < |Globs(p)| && 0 <= i < |Matched(fs, p.confDir, Globs(p)[g])|
                   && Matched(fs, p.confDir, Globs(p)[g])[i] == LeaseFiles.ConfFile(dhcp.fm, n)
  }

  // ------------------------------------------------------------ leased servers

  lemma {:induction false} InFilesNs(fs: FileSystem, gen: map<string, Generated>, names: seq<string>, i: nat, a: string)
    requires i < |names| && names[i] in fs.files && names[i] in gen && a in gen[names[i]].servers
    ensures DnsmasqNs(a, "") in FilesNs(fs, gen, names)
  {
    if i == 0 {
      var servers := gen[names[0]].servers;
      StaticNsAre(servers);
      var k :| 0 <= k < |servers| && servers[k] == a;
      assert StaticNs(servers)[k] in StaticNs(servers);
    } else {
      InFilesNs(fs, gen, names[1..], i - 1, a);
    }
  }

  lemma {:induction false} InConfDirNs(fs: FileSystem, gen: map<string, Generated>, dir: string, globs: seq<string>,
                                       g: nat, i: nat, a: string)
    requires g < |globs| && i < |Matched(fs, dir, globs[g])|
    requires var name := Matched(fs, dir, globs[g])[i];
             name in fs.files && name in gen && a in gen[name].servers
    ensures DnsmasqNs(a, "") in ConfDirNs(fs, gen, dir, globs)
  {
    if g == 0 {
      InFilesNs(fs, gen, Matched(fs, dir, globs[0]), i, a);
    } else {
      InConfDirNs(fs, gen, dir, globs[1..], g - 1, i, a);
    }
  }

  /** The file of an interface with a lease is in the conf-dir and was generated from the lease. */
  lemma LeasedFile(p: Paths, ops: seq<F.SetOp>, dhcp: Watched, sys: Watched, fs: FileSystem, n: string, a: string, g: nat, i: nat)
    requires Deployed(p, ops, dhcp, sys, fs) && dhcp.Leased(n, a) && g < |Globs(p)|
    requires i < |Matched(fs, p.confDir, Globs(p)[g])|
    requires Matched(fs, p.confDir, Globs(p)[g])[i] == LeaseFiles.ConfFile(dhcp.fm, n)
    ensures var file := LeaseFiles.ConfFile(dhcp.fm, n);
            file in fs.files && file in Gen(dhcp, sys) && a in Gen(dhcp, sys)[file].servers
  {
    var file := LeaseFiles.ConfFile(dhcp.fm, n);
    LG.DerivedFilesCoherent(dhcp.fm, dhcp.start, dhcp.steps, n);
    assert LG.LeftBy(dhcp.fm, dhcp.end, sys.fm, sys.end, fs.files, Matched(fs, p.confDir, Globs(p)[g]));
    assert LG.SameAs(fs.files, dhcp.end.confs, file);
    LeaseFiles.FilesApart(dhcp.fm);
    assert LG.DhcpSources(dhcp.fm, dhcp.end.names, dhcp.end.leases)[file]
           == DhcpFile(n, LeaseFiles.Servers(dhcp.fm, dhcp.end.leases[LeaseFiles.WatchFile(dhcp.fm, n)]));
  }

  lemma LeasedIsPlain(p: Paths, ops: seq<F.SetOp>, dhcp: Watched, sys: Watched, fs: FileSystem, n: string, a: string)
    requires Deployed(p, ops, dhcp, sys, fs) && dhcp.Leased(n, a) && FileMatched(fs, p, dhcp, n)
    ensures Plain(AllNs(fs, Gen(dhcp, sys), p, LastWritten(p, ops)), a)
    ensures Configured(AllNs(fs, Gen(dhcp, sys), p, LastWritten(p, ops)), a)
  {
    var g, i :| 0 <= g < |Globs(p)| && 0 <= i < |Matched(fs, p.confDir, Globs(p)[g])|
                && Matched(fs, p.confDir, Globs(p)[g])[i] == LeaseFiles.ConfFile(dhcp.fm, n);
    LeasedFile(p, ops, dhcp, sys, fs, n, a, g, i);
    InConfDirNs(fs, Gen(dhcp, sys), p.confDir, Globs(p), g, i, a);
    var all := AllNs(fs, Gen(dhcp, sys), p, LastWritten(p, ops));
    assert DnsmasqNs(a, "") in all;
    var k :| 0 <= k < |all| && all[k] == DnsmasqNs(a, "");
  }

  // ------------------------------------------------------------ the state

  /**
   After any run of `Set`s without a delete and with settled watchers, reading the main file
   terminates, and the merged state says of the configuration last written: its name servers,
   and the servers in the leases whose files the conf-dir holds, are configuration, in use and
   not for overrides only; its override servers have exactly their domains, in order; another
   server of resolv.conf is in use exactly when neither it nor the conf-dir has a server for
   every domain.  It is the configuration stored exactly when its update succeeded.
   */
  lemma StateOfLastWritten(p: Paths, ops: seq<F.SetOp>, dhcp: Watched, sys: Watched, fs: FileSystem, text: string, fuel: nat,
                           src: Sources, before: seq<NameserverState>, after: seq<NameserverState>, v: NameserverState)
    requires Deployed(p, ops, dhcp, sys, fs) && F.Run(p, ops).mainFile == Some(text) && fuel >= 1
    requires ReadDnsmasqNs(fs, text, fuel) == Read(src.dnsmasq) && Merged(src, before, after) && v in after
    ensures var c := LastWritten(p, ops);
            && (v.address in c.nameservers ==> v.provenance == Configuration && v.inUse && !v.domainOverrideOnly)
            && (forall n :: dhcp.Leased(n, v.address) && FileMatched(fs, p, dhcp, n) ==>
                  v.provenance == Configuration && v.inUse && !v.domainOverrideOnly)
            && (forall i :: 0 <= i < |c.overrides| && c.overrides[i].server == v.address ==>
                  v.provenance == Configuration && v.inUse && v.domains == OverriddenTo(c.overrides, v.address))
            && (v.address in src.resolv && !Configured(src.dnsmasq, v.address) ==>
                  (v.inUse <==> !HasPlain(c) && ConfDirNs(fs, Gen(dhcp, sys), p.confDir, Globs(p)) == []))
            && (F.Run(p, ops).current == Some(c) <==> G.LastUpdate(p, ops, G.WRITES).value.ending.Success?)
  {
    var c := LastWritten(p, ops);
    G.MainFileExactly(p, ops);
    G.StoredExactly(p, ops, G.WRITES);
    DeployedIsWritten(p, ops, dhcp, sys, fs);
    WriteReadMerge(fs, Gen(dhcp, sys), p, c, fuel, src, before, after, v);
    forall n | dhcp.Leased(n, v.address) && FileMatched(fs, p, dhcp, n)
      ensures v.provenance == Configuration && v.inUse && !v.domainOverrideOnly
    {
      ConfDirRoundTrip(fs, Gen(dhcp, sys), p, c, fuel);
      LeasedIsPlain(p, ops, dhcp, sys, fs, n, v.address);
      ConfiguredVerdict(src, before, after, v);
    }
  }

  /** The reading it supposes is there: the reader neither panics nor goes deeper. */
  lemma StateIsRead(p: Paths, ops: seq<F.SetOp>, dhcp: Watched, sys: Watched, fs: FileSystem, fuel: nat)
    requires Deployed(p, ops, dhcp, sys, fs) && fuel >= 1
    ensures F.Run(p, ops).mainFile.Some?
    ensures ReadDnsmasqNs(fs, F.Run(p, ops).mainFile.value, fuel)
            == Read(AllNs(fs, Gen(dhcp, sys), p, LastWritten(p, ops)))
  {
    G.MainFileExactly(p, ops);
    DeployedIsWritten(p, ops, dhcp, sys, fs);
    ConfDirRoundTrip(fs, Gen(dhcp, sys), p, LastWritten(p, ops), fuel);
  }
}
