/**
 The provenance merge (internal/forwarding/state.go, `ReadProvenance`): four
 lists of name servers and the servers of the statistics log become one list.
 */
module Provenance {
  import opened Wrappers

  /** A `server` line read back from the dnsmasq configuration; a plain server has no domain. */
  datatype DnsmasqNs = DnsmasqNs(server: string, domain: string)

  datatype Source = System | Dhcp | Ppp | Configuration

  datatype NameserverState = NameserverState(
    address: string,
    port: nat,
    queriesSent: nat,
    queriesRetriedOrFailed: nat,
    provenance: Source,
    inUse: bool,
    domainOverrideOnly: bool,
    domains: seq<string>)

  /** What was read from resolv.conf, the dhclient and ppp files and the dnsmasq files. */
  datatype Sources = Sources(resolv: seq<string>, dhcp: seq<string>, ppp: seq<string>, dnsmasq: seq<DnsmasqNs>)

  // ------------------------------------------------------------ specification

  /** The dnsmasq configuration names `a`. */
  ghost predicate Configured(dnsmasq: seq<DnsmasqNs>, a: string) {
    exists i :: 0 <= i < |dnsmasq| && dnsmasq[i].server == a
  }

  /** The dnsmasq configuration has `a` as a server for every domain. */
  ghost predicate Plain(dnsmasq: seq<DnsmasqNs>, a: string) {
    exists i :: 0 <= i < |dnsmasq| && dnsmasq[i] == DnsmasqNs(a, "")
  }

  ghost predicate AnyPlain(dnsmasq: seq<DnsmasqNs>) {
    exists i :: 0 <= i < |dnsmasq| && dnsmasq[i].domain == ""
  }

  /** The domains overridden to `a`, in order. */
  function DomainsOf(dnsmasq: seq<DnsmasqNs>, a: string): seq<string> {
    if dnsmasq == [] then []
    else
      var n := dnsmasq[|dnsmasq| - 1];
      DomainsOf(dnsmasq[..|dnsmasq| - 1], a) + if n.server == a && n.domain != "" then [n.domain] else []
  }

  ghost predicate Known(src: Sources, a: string) {
    a in src.resolv || Configured(src.dnsmasq, a)
  }

  ghost function SourceOf(src: Sources, a: string): Source {
    if Configured(src.dnsmasq, a) then Configuration
    else if a in src.ppp then Ppp
    else if a in src.dhcp then Dhcp
    else System
  }

  /** What the merge says about the known server `a`; `unclaimed` is the use of a server dnsmasq does not name. */
  ghost function Expected(src: Sources, unclaimed: bool, a: string): NameserverState {
    NameserverState(
      a, 53, 0, 0,
      SourceOf(src, a),
      Configured(src.dnsmasq, a) || unclaimed,
      a !in src.resolv && !Plain(src.dnsmasq, a),
      DomainsOf(src.dnsmasq, a))
  }

  /** A state-file entry keeps its address, port and counters; a known one gets the merge's verdict. */
  ghost function Adjusted(src: Sources, v: NameserverState): NameserverState {
    if Known(src, v.address) then
      var e := Expected(src, !AnyPlain(src.dnsmasq), v.address);
      v.(provenance := e.provenance, domains := e.domains, inUse := e.inUse,
         domainOverrideOnly := e.domainOverrideOnly)
    else v
  }

  ghost function Addresses(l: seq<NameserverState>): set<string> {
    set v | v in l :: v.address
  }

  ghost predicate DistinctAddresses(l: seq<NameserverState>) {
    forall i, j :: 0 <= i < j < |l| ==> l[i].address != l[j].address
  }

  ghost predicate ListedFrom(l: seq<NameserverState>, from: nat, a: string) {
    exists i :: from <= i < |l| && l[i].address == a
  }

  /** `after` is the merge of `src` into `before`, up to the order of the servers added. */
  ghost predicate Merged(src: Sources, before: seq<NameserverState>, after: seq<NameserverState>) {
    && |before| <= |after|
    && (forall i :: 0 <= i < |before| ==> after[i] == Adjusted(src, before[i]))
    && (forall i :: |before| <= i < |after| ==>
          && Known(src, after[i].address) && after[i].address !in Addresses(before)
          && after[i] == Expected(src, !AnyPlain(src.dnsmasq), after[i].address))
    && (forall a :: Known(src, a) && a !in Addresses(before) ==> ListedFrom(after, |before|, a))
    && DistinctAddresses(after[|before|..])
  }

  // ------------------------------------------------------------ the merge

  /** A server's record; the merge changes it through the map that holds it. */
  class Record {
    const address: string
    var provenance: Source
    var inUse: bool
    var domainOverrideOnly: bool
    var domains: seq<string>

    constructor (address: string, provenance: Source, inUse: bool, domainOverrideOnly: bool, domains: seq<string>)
      ensures Value() == NameserverState(address, 53, 0, 0, provenance, inUse, domainOverrideOnly, domains)
    {
      this.address, this.provenance, this.inUse := address, provenance, inUse;
      this.domainOverrideOnly, this.domains := domainOverrideOnly, domains;
    }

    function Value(): NameserverState
      reads this
    {
      NameserverState(address, 53, 0, 0, provenance, inUse, domainOverrideOnly, domains)
    }
  }

  /** The map holds a record of its own for exactly the servers known from `src`. */
  ghost predicate Holds(ns: map<string, Record>, src: Sources, unclaimed: bool)
    reads ns.Values
  {
    && (forall a :: a in ns <==> Known(src, a))
    && (forall a :: a in ns ==> ns[a].Value() == Expected(src, unclaimed, a))
    && (forall a, b :: a in ns && b in ns && a != b ==> ns[a] != ns[b])
  }

  lemma ConfiguredExtend(dns: seq<DnsmasqNs>, n: DnsmasqNs, a: string)
    ensures Configured(dns + [n], a) <==> Configured(dns, a) || n.server == a
    ensures Plain(dns + [n], a) <==> Plain(dns, a) || n == DnsmasqNs(a, "")
    ensures DomainsOf(dns + [n], a) == DomainsOf(dns, a) + if n.server == a && n.domain != "" then [n.domain] else []
  {
    var dns' := dns + [n];
    assert dns'[..|dns|] == dns;
    assert dns'[|dns|] == n;
    if Configured(dns, a) {
      var i :| 0 <= i < |dns| && dns[i].server == a;
      assert dns'[i].server == a;
    }
    if Plain(dns, a) {
      var i :| 0 <= i < |dns| && dns[i] == DnsmasqNs(a, "");
      assert dns'[i] == DnsmasqNs(a, "");
    }
  }

  lemma {:induction false} UnconfiguredNoDomains(dns: seq<DnsmasqNs>, a: string)
    requires !Configured(dns, a)
    ensures DomainsOf(dns, a) == [] && !Plain(dns, a)
  {
    if dns != [] {
      var n, pre := dns[|dns| - 1], dns[..|dns| - 1];
      assert dns == pre + [n];
      ConfiguredExtend(pre, n, a);
      UnconfiguredNoDomains(pre, a);
    }
  }

  /** By default nothing is in use unless dnsmasq has no server for every domain. */
  method NoPlainServer(dnsmasq: seq<DnsmasqNs>) returns (unclaimed: bool)
    ensures unclaimed <==> !AnyPlain(dnsmasq)
  {
    for i := 0 to |dnsmasq|
      invariant forall j :: 0 <= j < i ==> dnsmasq[j].domain != ""
    {
      if dnsmasq[i].domain == "" {
        return false;
      }
    }
    return true;
  }

  /** Nothing but `n` is affected by going from `src` to `src'`. */
  ghost predicate OnlyAbout(n: string, src: Sources, src': Sources, unclaimed: bool) {
    forall a :: a != n ==>
      && (Known(src', a) <==> Known(src, a))
      && Expected(src', unclaimed, a) == Expected(src, unclaimed, a)
  }

  lemma HoldsPut(ns: map<string, Record>, r: Record, src: Sources, src': Sources, unclaimed: bool)
    requires Holds(ns, src, unclaimed) && OnlyAbout(r.address, src, src', unclaimed)
    requires r !in ns.Values && Known(src', r.address) && r.Value() == Expected(src', unclaimed, r.address)
    ensures Holds(ns[r.address := r], src', unclaimed)
  {
  }

  lemma HoldsSame(ns: map<string, Record>, src: Sources, src': Sources, unclaimed: bool)
    requires Holds(ns, src, unclaimed)
    requires forall a :: Known(src', a) <==> Known(src, a)
    requires forall a :: Known(src, a) ==> Expected(src', unclaimed, a) == Expected(src, unclaimed, a)
    ensures Holds(ns, src', unclaimed)
  {
  }

  /** What one more server of resolv.conf changes. */
  lemma SystemExtend(resolv: seq<string>, n: string, unclaimed: bool)
    ensures var src, src' := Sources(resolv, [], [], []), Sources(resolv + [n], [], [], []);
            && OnlyAbout(n, src, src', unclaimed)
            && Known(src', n)
            && Expected(src', unclaimed, n) == NameserverState(n, 53, 0, 0, System, unclaimed, false, [])
  {
  }

  /** Every server of resolv.conf starts as the system's. */
  method SystemServers(resolv: seq<string>, unclaimed: bool) returns (ns: map<string, Record>)
    ensures forall a :: a in ns ==> fresh(ns[a])
    ensures Holds(ns, Sources(resolv, [], [], []), unclaimed)
  {
    ns := map[];
    for i := 0 to |resolv|
      invariant forall a :: a in ns ==> fresh(ns[a])
      invariant Holds(ns, Sources(resolv[..i], [], [], []), unclaimed)
    {
      var n := resolv[i];
      assert resolv[..i + 1] == resolv[..i] + [n];
      SystemExtend(resolv[..i], n, unclaimed);
      var r := new Record(n, System, unclaimed, false, []);
      HoldsPut(ns, r, Sources(resolv[..i], [], [], []), Sources(resolv[..i + 1], [], [], []), unclaimed);
      ns := ns[n := r];
    }
    assert resolv[..|resolv|] == resolv;
  }

  /** What one more dhcp server changes. */
  lemma DhcpExtend(resolv: seq<string>, dhcp: seq<string>, n: string, unclaimed: bool)
    ensures var src, src' := Sources(resolv, dhcp, [], []), Sources(resolv, dhcp + [n], [], []);
            && OnlyAbout(n, src, src', unclaimed)
            && (Known(src', n) <==> Known(src, n))
            && (n in resolv ==> Expected(src', unclaimed, n) == NameserverState(n, 53, 0, 0, Dhcp, unclaimed, false, []))
  {
  }

  /** Those dhcp supplied are marked. */
  method MarkDhcp(before: map<string, Record>, resolv: seq<string>, dhcp: seq<string>, unclaimed: bool)
    returns (ns: map<string, Record>)
    requires Holds(before, Sources(resolv, [], [], []), unclaimed)
    ensures forall a :: a in ns ==> fresh(ns[a]) || (a in before && ns[a] == before[a])
    ensures Holds(ns, Sources(resolv, dhcp, [], []), unclaimed)
  {
    ns := before;
    for i := 0 to |dhcp|
      invariant forall a :: a in ns ==> fresh(ns[a]) || (a in before && ns[a] == before[a])
      invariant Holds(ns, Sources(resolv, dhcp[..i], [], []), unclaimed)
    {
      var n := dhcp[i];
      ghost var src, src' := Sources(resolv, dhcp[..i], [], []), Sources(resolv, dhcp[..i + 1], [], []);
      assert dhcp[..i + 1] == dhcp[..i] + [n];
      DhcpExtend(resolv, dhcp[..i], n, unclaimed);
      if n in resolv {
        var r := new Record(n, Dhcp, unclaimed, false, []);
        HoldsPut(ns, r, src, src', unclaimed);
        ns := ns[n := r];
      } else {
        HoldsSame(ns, src, src', unclaimed);
      }
    }
    assert dhcp[..|dhcp|] == dhcp;
  }

  /** What one more ppp server changes. */
  lemma PppExtend(resolv: seq<string>, dhcp: seq<string>, ppp: seq<string>, n: string, unclaimed: bool)
    ensures var src, src' := Sources(resolv, dhcp, ppp, []), Sources(resolv, dhcp, ppp + [n], []);
            && OnlyAbout(n, src, src', unclaimed)
            && (Known(src', n) <==> Known(src, n))
            && (n in resolv ==> Expected(src', unclaimed, n) == NameserverState(n, 53, 0, 0, Ppp, unclaimed, false, []))
  {
  }

  /** And those ppp supplied, even if dhcp did too. */
  method MarkPpp(before: map<string, Record>, resolv: seq<string>, dhcp: seq<string>, ppp: seq<string>, unclaimed: bool)
    returns (ns: map<string, Record>)
    requires Holds(before, Sources(resolv, dhcp, [], []), unclaimed)
    ensures forall a :: a in ns ==> fresh(ns[a]) || (a in before && ns[a] == before[a])
    ensures Holds(ns, Sources(resolv, dhcp, ppp, []), unclaimed)
  {
    ns := before;
    for i := 0 to |ppp|
      invariant forall a :: a in ns ==> fresh(ns[a]) || (a in before && ns[a] == before[a])
      invariant Holds(ns, Sources(resolv, dhcp, ppp[..i], []), unclaimed)
    {
      var n := ppp[i];
      ghost var src, src' := Sources(resolv, dhcp, ppp[..i], []), Sources(resolv, dhcp, ppp[..i + 1], []);
      assert ppp[..i + 1] == ppp[..i] + [n];
      PppExtend(resolv, dhcp, ppp[..i], n, unclaimed);
      if n in resolv {
        var r := new Record(n, Ppp, unclaimed, false, []);
        HoldsPut(ns, r, src, src', unclaimed);
        ns := ns[n := r];
      } else {
        HoldsSame(ns, src, src', unclaimed);
      }
    }
    assert ppp[..|ppp|] == ppp;
  }

  /** What one more line of the dnsmasq configuration changes. */
  lemma DnsmasqExtend(src: Sources, n: DnsmasqNs, unclaimed: bool)
    ensures var src' := src.(dnsmasq := src.dnsmasq + [n]);
            && OnlyAbout(n.server, src, src', unclaimed)
            && Known(src', n.server)
            && Expected(src', unclaimed, n.server) ==
               (if Known(src, n.server)
                then Expected(src, unclaimed, n.server).(
                  provenance := Configuration, inUse := true,
                  domains := DomainsOf(src.dnsmasq, n.server) + if n.domain != "" then [n.domain] else [],
                  domainOverrideOnly := Expected(src, unclaimed, n.server).domainOverrideOnly && n.domain != "")
                else NameserverState(n.server, 53, 0, 0, Configuration, true, n.domain != "",
                                     if n.domain != "" then [n.domain] else []))
  {
    var src' := src.(dnsmasq := src.dnsmasq + [n]);
    forall a
      ensures a != n.server ==> (Known(src', a) <==> Known(src, a))
                                && Expected(src', unclaimed, a) == Expected(src, unclaimed, a)
    {
      ConfiguredExtend(src.dnsmasq, n, a);
    }
    ConfiguredExtend(src.dnsmasq, n, n.server);
    if !Known(src, n.server) {
      UnconfiguredNoDomains(src.dnsmasq, n.server);
    }
  }

  lemma HoldsUpdated(ns: map<string, Record>, was: map<string, NameserverState>, n: string,
                     src: Sources, src': Sources, unclaimed: bool)
    requires forall a :: a in ns <==> Known(src, a)
    requires forall a :: a in ns ==> a in was && was[a] == Expected(src, unclaimed, a)
    requires forall a, b :: a in ns && b in ns && a != b ==> ns[a] != ns[b]
    requires OnlyAbout(n, src, src', unclaimed)
    requires n in ns && Known(src', n) && ns[n].Value() == Expected(src', unclaimed, n)
    requires forall a :: a in ns && a != n ==> ns[a].Value() == was[a]
    ensures Holds(ns, src', unclaimed)
  {
  }

  /** A line whose server is known changes that server's record. */
  method AdjustKnown(ns: map<string, Record>, n: DnsmasqNs, ghost src: Sources, unclaimed: bool)
    requires Holds(ns, src, unclaimed) && n.server in ns
    modifies ns[n.server]
    ensures Holds(ns, src.(dnsmasq := src.dnsmasq + [n]), unclaimed)
  {
    ghost var was := map a | a in ns :: ns[a].Value();
    var s := ns[n.server];
    s.provenance := Configuration;
    s.inUse := true;
    if n.domain != "" {
      s.domains := s.domains + [n.domain];
    } else {
      s.domainOverrideOnly := false;
    }
    DnsmasqExtend(src, n, unclaimed);
    HoldsUpdated(ns, was, n.server, src, src.(dnsmasq := src.dnsmasq + [n]), unclaimed);
  }

  /** Adjusts the records for the dnsmasq configuration, adding the servers only it names. */
  method ApplyDnsmasq(before: map<string, Record>, src: Sources, unclaimed: bool) returns (ns: map<string, Record>)
    requires Holds(before, src.(dnsmasq := []), unclaimed)
    modifies before.Values
    ensures forall a :: a in ns ==> fresh(ns[a]) || (a in before && ns[a] == before[a])
    ensures Holds(ns, src, unclaimed)
  {
    ns := before;
    for i := 0 to |src.dnsmasq|
      invariant forall a :: a in ns ==> fresh(ns[a]) || (a in before && ns[a] == before[a])
      invariant Holds(ns, src.(dnsmasq := src.dnsmasq[..i]), unclaimed)
    {
      var n := src.dnsmasq[i];
      ghost var src0 := src.(dnsmasq := src.dnsmasq[..i]);
      assert src.dnsmasq[..i + 1] == src.dnsmasq[..i] + [n];
      assert src.(dnsmasq := src.dnsmasq[..i + 1]) == src0.(dnsmasq := src0.dnsmasq + [n]);
      if n.server in ns {
        assert ns[n.server] in ns.Values;
        AdjustKnown(ns, n, src0, unclaimed);
      } else {
        DnsmasqExtend(src0, n, unclaimed);
        var s := new Record(n.server, Configuration, true, n.domain != "", if n.domain != "" then [n.domain] else []);
        HoldsPut(ns, s, src0, src0.(dnsmasq := src0.dnsmasq + [n]), unclaimed);
        ns := ns[n.server := s];
      }
    }
    assert src.dnsmasq[..|src.dnsmasq|] == src.dnsmasq;
  }

  /** Every server known, with its record. */
  method KnownServers(src: Sources, unclaimed: bool) returns (ns: map<string, Record>)
    ensures forall a :: a in ns ==> fresh(ns[a])
    ensures Holds(ns, src, unclaimed)
  {
    ns := SystemServers(src.resolv, unclaimed);
    ns := MarkDhcp(ns, src.resolv, src.dhcp, unclaimed);
    ns := MarkPpp(ns, src.resolv, src.dhcp, src.ppp, unclaimed);
    assert Sources(src.resolv, src.dhcp, src.ppp, []) == src.(dnsmasq := []);
    ns := ApplyDnsmasq(ns, src, unclaimed);
  }

  /** The state data; only its name server list takes part in the merge. */
  class StateData {
    var nameservers: seq<NameserverState>

    constructor (nameservers: seq<NameserverState>)
      ensures this.nameservers == nameservers
    {
      this.nameservers := nameservers;
    }

    /** `None` is a missing resolv.conf or dnsmasq file. */
    method ReadProvenance(src: Option<Sources>)
      modifies this
      ensures src.None? ==> nameservers == old(nameservers)
      ensures src.Some? ==> Merged(src.value, old(nameservers), nameservers)
    {
      if src.None? {
        return;
      }
      var unclaimed := NoPlainServer(src.value.dnsmasq);
      var ns := KnownServers(src.value, unclaimed);
      ghost var before := nameservers;
      var seen := UpdateSeen(ns, src.value, unclaimed);
      AddUnseen(ns, seen, src.value, unclaimed, before);
    }

    /** Updates the servers the state file has. */
    method UpdateSeen(ns: map<string, Record>, ghost src: Sources, unclaimed: bool) returns (seen: set<string>)
      requires Holds(ns, src, unclaimed) && (unclaimed <==> !AnyPlain(src.dnsmasq))
      modifies this
      ensures |nameservers| == |old(nameservers)|
      ensures forall j :: 0 <= j < |nameservers| ==> nameservers[j] == Adjusted(src, old(nameservers)[j])
      ensures seen == Addresses(old(nameservers))
    {
      ghost var before := nameservers;
      seen := {};
      for i := 0 to |nameservers|
        invariant |nameservers| == |before|
        invariant forall j :: 0 <= j < i ==> nameservers[j] == Adjusted(src, before[j])
        invariant forall j :: i <= j < |before| ==> nameservers[j] == before[j]
        invariant seen == Addresses(before[..i])
      {
        var v := nameservers[i];
        assert before[..i + 1] == before[..i] + [v];
        seen := seen + {v.address};
        if v.address in ns {
          var s := ns[v.address];
          assert s.Value() == Expected(src, unclaimed, v.address);
          nameservers := nameservers[i := v.(provenance := s.provenance, domains := s.domains, inUse := s.inUse,
                                             domainOverrideOnly := s.domainOverrideOnly)];
        }
      }
      assert before[..|before|] == before;
    }

    /** Adds the servers it does not have, in whatever order the map gives them. */
    method AddUnseen(ns: map<string, Record>, seen: set<string>, ghost src: Sources, unclaimed: bool,
                     ghost before: seq<NameserverState>)
      requires Holds(ns, src, unclaimed) && (unclaimed <==> !AnyPlain(src.dnsmasq))
      requires |nameservers| == |before| && seen == Addresses(before)
      requires forall j :: 0 <= j < |before| ==> nameservers[j] == Adjusted(src, before[j])
      modifies this
      ensures Merged(src, before, nameservers)
    {
      ghost var start := nameservers;
      var todo := ns.Keys;
      while todo != {}
        invariant todo <= ns.Keys && start <= nameservers
        invariant Appended(src, unclaimed, |before|, nameservers, ns.Keys - todo - seen)
        decreases todo
      {
        var k :| k in todo;
        if k !in seen {
          AppendUnseen(src, unclaimed, |before|, nameservers, ns.Keys - todo - seen, k);
          assert ns[k].Value() == Expected(src, unclaimed, k);
          nameservers := nameservers + [ns[k].Value()];
        }
        assert ns.Keys - (todo - {k}) - seen == (ns.Keys - todo - seen) + (if k in seen then {} else {k});
        todo := todo - {k};
      }
      forall a | Known(src, a) && a !in seen
        ensures ListedFrom(nameservers, |before|, a)
      {
        assert a in ns;
      }
    }
  }

  lemma AppendOne(l: seq<NameserverState>, v: NameserverState, from: nat)
    requires from <= |l| && DistinctAddresses(l[from..])
    requires forall j :: from <= j < |l| ==> l[j].address != v.address
    ensures DistinctAddresses((l + [v])[from..])
    ensures forall a :: ListedFrom(l, from, a) || a == v.address ==> ListedFrom(l + [v], from, a)
  {
    assert (l + [v])[from..] == l[from..] + [v];
    assert (l + [v])[|l|] == v;
    forall a | ListedFrom(l, from, a)
      ensures ListedFrom(l + [v], from, a)
    {
      var i :| from <= i < |l| && l[i].address == a;
      assert (l + [v])[i] == l[i];
    }
  }

  /** The servers `done` are in the list from `from` on, once each, as they should be. */
  ghost predicate Appended(src: Sources, unclaimed: bool, from: nat, l: seq<NameserverState>, done: set<string>) {
    && from <= |l|
    && (forall j :: from <= j < |l| ==> l[j].address in done && l[j] == Expected(src, unclaimed, l[j].address))
    && (forall a :: a in done ==> ListedFrom(l, from, a))
    && DistinctAddresses(l[from..])
  }

  lemma AppendUnseen(src: Sources, unclaimed: bool, from: nat, l: seq<NameserverState>, done: set<string>, k: string)
    requires Appended(src, unclaimed, from, l, done) && k !in done
    ensures Appended(src, unclaimed, from, l + [Expected(src, unclaimed, k)], done + {k})
  {
    AppendOne(l, Expected(src, unclaimed, k), from);
  }

  // ------------------------------------------------------------ what it means

  /** The merge loses, invents and repeats nothing. */
  lemma MergeConserves(src: Sources, before: seq<NameserverState>, after: seq<NameserverState>)
    requires Merged(src, before, after)
    ensures forall i :: 0 <= i < |before| ==>
              && after[i].address == before[i].address && after[i].port == before[i].port
              && after[i].queriesSent == before[i].queriesSent
              && after[i].queriesRetriedOrFailed == before[i].queriesRetriedOrFailed
    ensures forall a :: a in Addresses(after) <==> a in Addresses(before) || Known(src, a)
    ensures DistinctAddresses(before) ==> DistinctAddresses(after)
  {
  }

  /** What every known server is finally said to be, wherever it was first heard of. */
  lemma Verdict(src: Sources, before: seq<NameserverState>, after: seq<NameserverState>, v: NameserverState)
    requires Merged(src, before, after) && v in after && Known(src, v.address)
    ensures v.provenance == SourceOf(src, v.address)
    ensures v.inUse <==> Configured(src.dnsmasq, v.address) || !AnyPlain(src.dnsmasq)
    ensures v.domains == DomainsOf(src.dnsmasq, v.address)
    ensures v.domainOverrideOnly <==>
              && v.address !in src.resolv
              && forall i :: 0 <= i < |src.dnsmasq| && src.dnsmasq[i].server == v.address ==> src.dnsmasq[i].domain != ""
  {
  }

  /** A server the state file did not have is known, on port 53, and was asked nothing yet. */
  lemma AddedServer(src: Sources, before: seq<NameserverState>, after: seq<NameserverState>, i: nat)
    requires Merged(src, before, after) && |before| <= i < |after|
    ensures after[i].port == 53 && after[i].queriesSent == 0 && after[i].queriesRetriedOrFailed == 0
    ensures forall j :: 0 <= j < i ==> after[j].address != after[i].address
    ensures after[i].address in src.resolv || exists k :: 0 <= k < |src.dnsmasq| && src.dnsmasq[k].server == after[i].address
  {
    forall j | 0 <= j < i
      ensures after[j].address != after[i].address
    {
      if j >= |before| {
        assert after[|before|..][j - |before|] == after[j] && after[|before|..][i - |before|] == after[i];
      }
    }
  }

  /** A server nobody knows keeps what the state file said. */
  lemma UnknownUntouched(src: Sources, before: seq<NameserverState>, after: seq<NameserverState>, i: nat)
    requires Merged(src, before, after) && i < |before| && !Known(src, before[i].address)
    ensures after[i] == before[i]
  {
  }
}
