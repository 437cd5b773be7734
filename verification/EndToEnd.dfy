/**
 The configuration written, read back and merged: what the operational state says
 about the name servers the configuration asks for.
 */
module EndToEnd {
  import opened Text
  import opened ForwardingData
  import opened Provenance
  import opened DnsmasqFiles

  /** A file of the conf-dir that the DHCP or system watcher generates. */
  datatype Generated = DhcpFile(intf: string, servers: seq<string>) | SystemFile(servers: seq<string>)

  function Rendered(g: Generated): string {
    match g
    case DhcpFile(intf, servers) => WriteDhcpConfig(intf, servers)
    case SystemFile(servers) => WriteSystemConfig(servers)
  }

  predicate Readable(g: Generated) {
    && (g.DhcpFile? ==> OneLine(g.intf))
    && forall i :: 0 <= i < |g.servers| ==> ServerName(g.servers[i])
  }

  /** A generated file reads as its servers, and names no other files. */
  lemma GeneratedRoundTrip(fs: FileSystem, g: Generated, fuel: nat)
    requires Readable(g)
    ensures ReadDnsmasqNs(fs, Rendered(g), fuel) == Read(StaticNs(g.servers))
  {
    if g.servers != [] {
      match g
      case DhcpFile(intf, servers) => DhcpFileReads(fs, intf, servers, fuel);
      case SystemFile(servers) => SystemFileReads(fs, servers, fuel);
    }
  }

  lemma HeadedBlock(fs: FileSystem, head: seq<string>, lines: seq<string>, ns: seq<DnsmasqNs>, fuel: nat)
    requires Block(fs, head, []) && Block(fs, lines, ns)
    ensures ReadDnsmasqNs(fs, Unlines(head + lines), fuel) == Read(ns)
  {
    BlockAppend(fs, head, [], lines, ns);
    BlockReads(fs, head + lines, [] + ns, fuel);
    assert [] + ns == ns;
  }

  lemma DhcpFileReads(fs: FileSystem, intf: string, servers: seq<string>, fuel: nat)
    requires OneLine(intf) && forall i :: 0 <= i < |servers| ==> ServerName(servers[i])
    ensures ReadDnsmasqNs(fs, Unlines(DHCP_HEAD + DhcpLines(intf, servers)), fuel) == Read(StaticNs(servers))
  {
    CommentBlocks(fs);
    DhcpBlock(fs, intf, servers);
    HeadedBlock(fs, DHCP_HEAD, DhcpLines(intf, servers), StaticNs(servers), fuel);
  }

  lemma SystemFileReads(fs: FileSystem, servers: seq<string>, fuel: nat)
    requires forall i :: 0 <= i < |servers| ==> ServerName(servers[i])
    ensures ReadDnsmasqNs(fs, Unlines(HEAD + SystemLines(servers)), fuel) == Read(StaticNs(servers))
  {
    CommentBlocks(fs);
    SystemBlock(fs, servers);
    HeadedBlock(fs, HEAD, SystemLines(servers), StaticNs(servers), fuel);
  }

  lemma BlockReads(fs: FileSystem, lines: seq<string>, ns: seq<DnsmasqNs>, fuel: nat)
    requires Block(fs, lines, ns)
    ensures ReadDnsmasqNs(fs, Unlines(lines), fuel) == Read(ns)
  {
    LinesOfUnlines(lines);
  }

  /** The conf-dir: every file a pattern matches is gone or generated. */
  ghost predicate Produced(fs: FileSystem, gen: map<string, Generated>, names: seq<string>) {
    forall i :: 0 <= i < |names| && names[i] in fs.files ==>
      names[i] in gen && fs.files[names[i]] == Rendered(gen[names[i]]) && Readable(gen[names[i]])
  }

  /** The servers of the files there are, file by file. */
  function FilesNs(fs: FileSystem, gen: map<string, Generated>, names: seq<string>): seq<DnsmasqNs> {
    if names == [] then []
    else (if names[0] in fs.files && names[0] in gen then StaticNs(gen[names[0]].servers) else [])
         + FilesNs(fs, gen, names[1..])
  }

  /** And pattern by pattern. */
  function ConfDirNs(fs: FileSystem, gen: map<string, Generated>, dir: string, globs: seq<string>): seq<DnsmasqNs> {
    if globs == [] then []
    else FilesNs(fs, gen, Matched(fs, dir, globs[0])) + ConfDirNs(fs, gen, dir, globs[1..])
  }

  lemma FirstFileRead(fs: FileSystem, gen: map<string, Generated>, names: seq<string>, fuel: nat)
    requires Produced(fs, gen, names) && fuel >= 1 && names != []
    ensures ReadFiles(fs, names, fuel) ==
            Then(Read(if names[0] in fs.files && names[0] in gen then StaticNs(gen[names[0]].servers) else []),
                 ReadFiles(fs, names[1..], fuel))
  {
    if names[0] in fs.files {
      GeneratedRoundTrip(fs, gen[names[0]], fuel - 1);
    }
  }

  lemma {:induction false} FilesRead(fs: FileSystem, gen: map<string, Generated>, names: seq<string>, fuel: nat)
    requires Produced(fs, gen, names) && fuel >= 1
    ensures ReadFiles(fs, names, fuel) == Read(FilesNs(fs, gen, names))
  {
    if names != [] {
      FirstFileRead(fs, gen, names, fuel);
      assert Produced(fs, gen, names[1..]) by {
        assert forall i :: 0 <= i < |names[1..]| ==> names[1..][i] == names[i + 1];
      }
      FilesRead(fs, gen, names[1..], fuel);
    }
  }

  lemma {:induction false} ConfDirReadsBack(fs: FileSystem, gen: map<string, Generated>, dir: string,
                                            globs: seq<string>, fuel: nat)
    requires fuel >= 1
    requires forall i :: 0 <= i < |globs| ==> Produced(fs, gen, Matched(fs, dir, globs[i]))
    ensures ReadGlobs(fs, dir, globs, fuel) == Read(ConfDirNs(fs, gen, dir, globs))
  {
    if globs != [] {
      FilesRead(fs, gen, Matched(fs, dir, globs[0]), fuel);
      assert forall i :: 0 <= i < |globs[1..]| ==> globs[1..][i] == globs[i + 1];
      ConfDirReadsBack(fs, gen, dir, globs[1..], fuel);
    }
  }

  /** The main file with its conf-dir, all written by the service. */
  ghost predicate WrittenByService(fs: FileSystem, gen: map<string, Generated>, p: Paths, c: ConfigData) {
    && PathsReadable(p) && ConfigReadable(c)
    && forall i :: 0 <= i < |Globs(p)| ==> Produced(fs, gen, Matched(fs, p.confDir, Globs(p)[i]))
  }

  function AllNs(fs: FileSystem, gen: map<string, Generated>, p: Paths, c: ConfigData): seq<DnsmasqNs> {
    ConfiguredNs(c) + ConfDirNs(fs, gen, p.confDir, Globs(p))
  }

  /**
   The recursive reader terminates one level down and returns the main file's servers and
   overrides, in order, followed by each generated file's servers in glob order.
   */
  lemma ConfDirRoundTrip(fs: FileSystem, gen: map<string, Generated>, p: Paths, c: ConfigData, fuel: nat)
    requires WrittenByService(fs, gen, p, c) && fuel >= 1
    ensures ReadDnsmasqNs(fs, WriteForwardingConfig(p, c), fuel) == Read(AllNs(fs, gen, p, c))
  {
    MainFileRoundTrip(fs, p, c, fuel);
    ConfDirReadsBack(fs, gen, p.confDir, Globs(p), fuel);
  }

  /** With nothing in the conf-dir only the configuration comes back, without reading further. */
  lemma EmptyConfDirRoundTrip(fs: FileSystem, p: Paths, c: ConfigData, fuel: nat)
    requires PathsReadable(p) && ConfigReadable(c)
    requires forall i :: 0 <= i < |Globs(p)| ==> Matched(fs, p.confDir, Globs(p)[i]) == []
    ensures ReadDnsmasqNs(fs, WriteForwardingConfig(p, c), fuel) == Read(ConfiguredNs(c))
  {
    MainFileRoundTrip(fs, p, c, fuel);
    NothingMatched(fs, p.confDir, Globs(p), fuel);
    assert ConfiguredNs(c) + [] == ConfiguredNs(c);
  }

  lemma {:induction false} NothingMatched(fs: FileSystem, dir: string, globs: seq<string>, fuel: nat)
    requires forall i :: 0 <= i < |globs| ==> Matched(fs, dir, globs[i]) == []
    ensures ReadGlobs(fs, dir, globs, fuel) == Read([])
  {
    if globs != [] {
      assert forall i :: 0 <= i < |globs[1..]| ==> globs[1..][i] == globs[i + 1];
      assert Matched(fs, dir, globs[0]) == [];
      NothingMatched(fs, dir, globs[1..], fuel);
    }
  }

  // ------------------------------------------------------------ the merge of what was read

  lemma {:induction false} StaticNsAre(servers: seq<string>)
    ensures |StaticNs(servers)| == |servers|
    ensures forall i :: 0 <= i < |servers| ==> StaticNs(servers)[i] == DnsmasqNs(servers[i], "")
  {
    if servers != [] {
      StaticNsAre(servers[1..]);
    }
  }

  lemma {:induction false} OverrideNsAre(os: seq<Override>)
    ensures |OverrideNs(os)| == |os|
    ensures forall i :: 0 <= i < |os| ==> OverrideNs(os)[i] == DnsmasqNs(os[i].server, os[i].domain)
  {
    if os != [] {
      OverrideNsAre(os[1..]);
    }
  }

  /** Servers without domains add no domain to anyone. */
  lemma {:induction false} PlainNsNoDomains(dns: seq<DnsmasqNs>, plain: seq<DnsmasqNs>, a: string)
    requires forall i :: 0 <= i < |plain| ==> plain[i].domain == ""
    ensures DomainsOf(dns + plain, a) == DomainsOf(dns, a)
  {
    if plain == [] {
      assert dns + plain == dns;
    } else {
      var n := |plain| - 1;
      assert dns + plain == (dns + plain[..n]) + [plain[n]];
      ConfiguredExtend(dns + plain[..n], plain[n], a);
      PlainNsNoDomains(dns, plain[..n], a);
    }
  }

  lemma {:induction false} DomainsAppend(a: seq<DnsmasqNs>, b: seq<DnsmasqNs>, s: string)
    ensures DomainsOf(a + b, s) == DomainsOf(a, s) + DomainsOf(b, s)
  {
    if b == [] {
      assert a + b == a;
    } else {
      var n := |b| - 1;
      assert a + b == (a + b[..n]) + [b[n]];
      assert b == b[..n] + [b[n]];
      ConfiguredExtend(a + b[..n], b[n], s);
      ConfiguredExtend(b[..n], b[n], s);
      DomainsAppend(a, b[..n], s);
    }
  }

  lemma {:induction false} FilesNsPlain(fs: FileSystem, gen: map<string, Generated>, names: seq<string>)
    ensures forall i :: 0 <= i < |FilesNs(fs, gen, names)| ==> FilesNs(fs, gen, names)[i].domain == ""
  {
    if names != [] {
      FilesNsPlain(fs, gen, names[1..]);
      if names[0] in gen {
        StaticNsAre(gen[names[0]].servers);
      }
    }
  }

  lemma {:induction false} ConfDirNsPlain(fs: FileSystem, gen: map<string, Generated>, dir: string, globs: seq<string>)
    ensures forall i :: 0 <= i < |ConfDirNs(fs, gen, dir, globs)| ==> ConfDirNs(fs, gen, dir, globs)[i].domain == ""
  {
    if globs != [] {
      FilesNsPlain(fs, gen, Matched(fs, dir, globs[0]));
      ConfDirNsPlain(fs, gen, dir, globs[1..]);
    }
  }

  /** The domains the configuration overrides to `server`, in the order it lists them. */
  function OverriddenTo(os: seq<Override>, server: string): seq<string> {
    if os == [] then []
    else OverriddenTo(os[..|os| - 1], server)
         + if os[|os| - 1].server == server && os[|os| - 1].domain != "" then [os[|os| - 1].domain] else []
  }

  lemma {:induction false} OverrideDomains(os: seq<Override>, server: string)
    ensures DomainsOf(OverrideNs(os), server) == OverriddenTo(os, server)
  {
    if os != [] {
      var n := |os| - 1;
      OverrideNsAre(os);
      OverrideNsAre(os[..n]);
      assert OverrideNs(os) == OverrideNs(os[..n]) + [DnsmasqNs(os[n].server, os[n].domain)];
      ConfiguredExtend(OverrideNs(os[..n]), DnsmasqNs(os[n].server, os[n].domain), server);
      OverrideDomains(os[..n], server);
    }
  }

  /** Reading back what the service wrote gives every server exactly its configured domains. */
  lemma DomainsReadBack(fs: FileSystem, gen: map<string, Generated>, p: Paths, c: ConfigData, server: string)
    ensures DomainsOf(AllNs(fs, gen, p, c), server) == OverriddenTo(c.overrides, server)
  {
    ConfDirNsPlain(fs, gen, p.confDir, Globs(p));
    PlainNsNoDomains(ConfiguredNs(c), ConfDirNs(fs, gen, p.confDir, Globs(p)), server);
    StaticNsAre(c.nameservers);
    DomainsAppend(StaticNs(c.nameservers), OverrideNs(c.overrides), server);
    PlainNsNoDomains([], StaticNs(c.nameservers), server);
    assert [] + StaticNs(c.nameservers) == StaticNs(c.nameservers);
    OverrideDomains(c.overrides, server);
  }

  /** The main file has a server for every domain: a static one, or an override without a domain. */
  predicate HasPlain(c: ConfigData) {
    c.nameservers != [] || exists i :: 0 <= i < |c.overrides| && c.overrides[i].domain == ""
  }

  lemma PlainReadBack(fs: FileSystem, gen: map<string, Generated>, p: Paths, c: ConfigData)
    ensures AnyPlain(AllNs(fs, gen, p, c)) <==> HasPlain(c) || ConfDirNs(fs, gen, p.confDir, Globs(p)) != []
  {
    var all, dirNs := AllNs(fs, gen, p, c), ConfDirNs(fs, gen, p.confDir, Globs(p));
    StaticNsAre(c.nameservers);
    OverrideNsAre(c.overrides);
    ConfDirNsPlain(fs, gen, p.confDir, Globs(p));
    var n := |c.nameservers|;
    assert forall i :: 0 <= i < n ==> all[i] == StaticNs(c.nameservers)[i];
    assert forall i :: n <= i < |ConfiguredNs(c)| ==> all[i] == OverrideNs(c.overrides)[i - n];
    assert forall i :: |ConfiguredNs(c)| <= i < |all| ==> all[i] == dirNs[i - |ConfiguredNs(c)|];
    if n > 0 {
      assert all[0].domain == "";
    }
    if i :| 0 <= i < |c.overrides| && c.overrides[i].domain == "" {
      assert all[n + i].domain == "";
    }
    if dirNs != [] {
      assert all[|ConfiguredNs(c)|].domain == "";
    }
  }

  lemma StaticReadBack(fs: FileSystem, gen: map<string, Generated>, p: Paths, c: ConfigData, i: nat)
    requires i < |c.nameservers|
    ensures Configured(AllNs(fs, gen, p, c), c.nameservers[i]) && Plain(AllNs(fs, gen, p, c), c.nameservers[i])
  {
    StaticNsAre(c.nameservers);
    assert AllNs(fs, gen, p, c)[i] == DnsmasqNs(c.nameservers[i], "");
  }

  lemma OverrideReadBack(fs: FileSystem, gen: map<string, Generated>, p: Paths, c: ConfigData, i: nat)
    requires i < |c.overrides|
    ensures Configured(AllNs(fs, gen, p, c), c.overrides[i].server)
  {
    StaticNsAre(c.nameservers);
    OverrideNsAre(c.overrides);
    assert AllNs(fs, gen, p, c)[|c.nameservers| + i].server == c.overrides[i].server;
  }

  /**
   Write, read and merge: every configured name server comes out as configuration, in use and
   not for overrides only; every override server with exactly its domains, in order; any other
   server of resolv.conf is in use exactly when no file holds a server for every domain.
   */
  lemma WriteReadMerge(fs: FileSystem, gen: map<string, Generated>, p: Paths, c: ConfigData, fuel: nat,
                       src: Sources, before: seq<NameserverState>, after: seq<NameserverState>, v: NameserverState)
    requires WrittenByService(fs, gen, p, c) && fuel >= 1
    requires ReadDnsmasqNs(fs, WriteForwardingConfig(p, c), fuel) == Read(src.dnsmasq)
    requires Merged(src, before, after) && v in after
    ensures v.address in c.nameservers ==> v.provenance == Configuration && v.inUse && !v.domainOverrideOnly
    ensures forall i :: 0 <= i < |c.overrides| && c.overrides[i].server == v.address ==>
              v.provenance == Configuration && v.inUse && v.domains == OverriddenTo(c.overrides, v.address)
    ensures v.address in src.resolv && !Configured(src.dnsmasq, v.address) ==>
              (v.inUse <==> !HasPlain(c) && ConfDirNs(fs, gen, p.confDir, Globs(p)) == [])
  {
    ConfDirRoundTrip(fs, gen, p, c, fuel);
    assert src.dnsmasq == AllNs(fs, gen, p, c);
    if v.address in c.nameservers {
      var i :| 0 <= i < |c.nameservers| && c.nameservers[i] == v.address;
      StaticReadBack(fs, gen, p, c, i);
      ConfiguredVerdict(src, before, after, v);
    }
    forall i | 0 <= i < |c.overrides| && c.overrides[i].server == v.address
      ensures v.provenance == Configuration && v.inUse && v.domains == OverriddenTo(c.overrides, v.address)
    {
      OverrideReadBack(fs, gen, p, c, i);
      ConfiguredVerdict(src, before, after, v);
      DomainsReadBack(fs, gen, p, c, v.address);
    }
    if v.address in src.resolv && !Configured(src.dnsmasq, v.address) {
      Verdict(src, before, after, v);
      PlainReadBack(fs, gen, p, c);
    }
  }

  lemma ConfiguredVerdict(src: Sources, before: seq<NameserverState>, after: seq<NameserverState>, v: NameserverState)
    requires Merged(src, before, after) && v in after && Configured(src.dnsmasq, v.address)
    ensures v.provenance == Configuration && v.inUse && v.domains == DomainsOf(src.dnsmasq, v.address)
    ensures Plain(src.dnsmasq, v.address) ==> !v.domainOverrideOnly
  {
  }

  /** Every server the configuration names is in the merged list. */
  lemma ConfiguredListed(fs: FileSystem, gen: map<string, Generated>, p: Paths, c: ConfigData, fuel: nat,
                         src: Sources, before: seq<NameserverState>, after: seq<NameserverState>)
    requires WrittenByService(fs, gen, p, c) && fuel >= 1
    requires ReadDnsmasqNs(fs, WriteForwardingConfig(p, c), fuel) == Read(src.dnsmasq)
    requires Merged(src, before, after)
    ensures forall i :: 0 <= i < |c.nameservers| ==> c.nameservers[i] in Addresses(after)
    ensures forall i :: 0 <= i < |c.overrides| ==> c.overrides[i].server in Addresses(after)
  {
    ConfDirRoundTrip(fs, gen, p, c, fuel);
    MergeConserves(src, before, after);
    forall i | 0 <= i < |c.nameservers|
      ensures c.nameservers[i] in Addresses(after)
    {
      StaticReadBack(fs, gen, p, c, i);
    }
    forall i | 0 <= i < |c.overrides|
      ensures c.overrides[i].server in Addresses(after)
    {
      OverrideReadBack(fs, gen, p, c, i);
    }
  }
}
