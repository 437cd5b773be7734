/**
 What dnsmasq finds in its files, key by key (internal/forwarding/config.go, dhcp.go, system.go),
 and what the state reader makes of one line, whatever it is (internal/forwarding/state.go).
 */
module DnsmasqValues {
  import opened Text
  import opened Provenance
  import opened ForwardingData
  import opened DnsmasqFiles
  import opened KeyValues

  /** No name or path has a line end in it. */
  predicate Lineless(p: Paths, c: ConfigData) {
    && OneLine(p.stateFile) && OneLine(p.hostsFile) && OneLine(p.confFile) && OneLine(p.confDir)
    && (forall i :: 0 <= i < |p.confDirExt| ==> OneLine(p.confDirExt[i]))
    && (forall i :: 0 <= i < |c.listenInterfaces| ==> OneLine(c.listenInterfaces[i]))
    && (forall i :: 0 <= i < |c.nameservers| ==> OneLine(c.nameservers[i]))
    && (forall i :: 0 <= i < |c.overrides| ==> OneLine(c.overrides[i].domain) && OneLine(c.overrides[i].server))
  }

  predicate AllOneLine(lines: seq<string>) {
    forall i :: 0 <= i < |lines| ==> OneLine(lines[i])
  }

  /** The keys of the main file, and any other. */
  datatype MainKey = LogKey | EdnsKey | InterfaceKey | CacheKey | ServerKey | ResolvKey | HostsKey | ConfDirKey | OtherKey(name: string)

  function Named(key: MainKey): string {
    match key
    case LogKey => "log-facility"
    case EdnsKey => "edns-packet-max"
    case InterfaceKey => "interface"
    case CacheKey => "cache-size"
    case ServerKey => "server"
    case ResolvKey => "resolv-file"
    case HostsKey => "addn-hosts"
    case ConfDirKey => "conf-dir"
    case OtherKey(name) => name
  }

  /** Another key is a key, and another. */
  predicate Proper(key: MainKey) {
    key.OtherKey? ==> Key(key.name) && forall k :: k in KEYS ==> Named(k) != key.name
  }

  const KEYS := {LogKey, EdnsKey, InterfaceKey, CacheKey, ServerKey, ResolvKey, HostsKey, ConfDirKey}

  lemma NamesAreKeys(key: MainKey)
    requires Proper(key)
    ensures Key(Named(key))
  {
  }

  lemma NamesOneLine(key: MainKey)
    requires key in KEYS
    ensures OneLine(Named(key))
  {
  }

  lemma NamesDiffer(k: MainKey, l: MainKey)
    requires Proper(k) && Proper(l) && k != l && !l.OtherKey?
    ensures Named(k) != Named(l)
  {
  }

  /** What readers of the file find of each key. */
  predicate Says(lines: seq<string>, key: MainKey, values: seq<string>) {
    AllOneLine(lines) && Values(lines, Named(key)) == values
  }

  /** The values of key `k`. */
  function When(key: MainKey, k: MainKey, values: seq<string>): seq<string> {
    if k == key then values else []
  }

  lemma SaysBoth(a: seq<string>, b: seq<string>, key: MainKey, va: seq<string>, vb: seq<string>)
    requires Says(a, key, va) && Says(b, key, vb)
    ensures Says(a + b, key, va + vb)
  {
    ValuesAppend(a, b, Named(key));
  }

  lemma KeyLineSays(k: MainKey, value: string, key: MainKey)
    requires k in KEYS && OneLine(value) && Proper(key)
    ensures Says([KeyLine(Named(k), value)], key, When(key, k, [value]))
  {
    NamesOneLine(k);
    FreeJoined(Named(k) + "=", value, {'\n'});
    FreeJoined(Named(k), "=", {'\n'});
    NamesAreKeys(k);
    NamesAreKeys(key);
    if key != k {
      NamesDiffer(key, k);
    }
    OneLineValues(Named(k), value, Named(key));
  }

  lemma PlainSays(line: string, key: MainKey)
    requires Free(line, {'=', '\n'})
    ensures Says([line], key, [])
  {
    NoValues(line, Named(key));
  }

  /** The value of a server line is all that follows the `=`. */
  function Server(value: string, comment: string): string {
    value + "\t" + ("#" + " " + comment)
  }

  lemma ServerLineSays(value: string, comment: string, key: MainKey)
    requires OneLine(value) && OneLine(comment) && Proper(key)
    ensures Says([ServerLine(value, comment)], key, When(key, ServerKey, [Server(value, comment)]))
  {
    ServerLineOneLine(value, comment);
    NamesAreKeys(key);
    if key != ServerKey {
      NamesDiffer(key, ServerKey);
    }
    OneLineValues("server", Server(value, comment), Named(key));
  }

  // ------------------------------------------------------------ the blocks

  function StaticValues(servers: seq<string>): seq<string> {
    seq(|servers|, i requires 0 <= i < |servers| => servers[i] + "\t# statically configured")
  }

  function OverrideValues(os: seq<Override>): seq<string> {
    seq(|os|, i requires 0 <= i < |os| => "/" + os[i].domain + "/" + os[i].server + "\t# domain-override")
  }

  /** One more line in front of others of its key. */
  lemma OneMoreSays(line: string, lines: seq<string>, key: MainKey, k: MainKey, value: string, values: seq<string>)
    requires Says([line], key, When(key, k, [value])) && Says(lines, key, When(key, k, values))
    ensures Says([line] + lines, key, When(key, k, [value] + values))
  {
    SaysBoth([line], lines, key, When(key, k, [value]), When(key, k, values));
  }

  lemma {:induction false} InterfacesSay(intfs: seq<string>, key: MainKey)
    requires AllOneLine(intfs) && Proper(key)
    ensures Says(InterfaceLines(intfs), key, When(key, InterfaceKey, intfs))
  {
    if intfs != [] {
      KeyLineSays(InterfaceKey, intfs[0], key);
      InterfacesSay(intfs[1..], key);
      OneMoreSays(KeyLine("interface", intfs[0]), InterfaceLines(intfs[1..]), key, InterfaceKey, intfs[0], intfs[1..]);
      assert [intfs[0]] + intfs[1..] == intfs;
    }
  }

  lemma StaticComment(server: string)
    ensures Server(server, "statically" + " configured") == server + "\t# statically configured"
  {
    assert "\t" + ("#" + " " + ("statically" + " configured")) == "\t# statically configured";
    assert Server(server, "statically" + " configured") == server + ("\t" + ("#" + " " + ("statically" + " configured")));
  }

  lemma StaticValuesStep(servers: seq<string>)
    requires servers != []
    ensures StaticValues(servers) == [Server(servers[0], "statically" + " configured")] + StaticValues(servers[1..])
  {
    StaticComment(servers[0]);
  }

  lemma {:induction false} StaticsSay(servers: seq<string>, key: MainKey)
    requires AllOneLine(servers) && Proper(key)
    ensures Says(StaticLines(servers), key, When(key, ServerKey, StaticValues(servers)))
  {
    if servers != [] {
      var value := Server(servers[0], "statically" + " configured");
      ServerLineSays(servers[0], "statically" + " configured", key);
      StaticsSay(servers[1..], key);
      OneMoreSays(StaticLine(servers[0]), StaticLines(servers[1..]), key, ServerKey, value, StaticValues(servers[1..]));
      StaticValuesStep(servers);
    }
  }

  lemma OverrideComment(o: Override)
    ensures Server("/" + o.domain + "/" + o.server, "domain-override") == "/" + o.domain + "/" + o.server + "\t# domain-override"
  {
    var value := "/" + o.domain + "/" + o.server;
    assert "\t" + ("#" + " " + "domain-override") == "\t# domain-override";
    assert Server(value, "domain-override") == value + ("\t" + ("#" + " " + "domain-override"));
  }

  lemma OverrideValuesStep(os: seq<Override>)
    requires os != []
    ensures OverrideValues(os)
            == [Server("/" + os[0].domain + "/" + os[0].server, "domain-override")] + OverrideValues(os[1..])
  {
    OverrideComment(os[0]);
  }

  lemma OverrideOneLine(o: Override)
    requires OneLine(o.domain) && OneLine(o.server)
    ensures OneLine("/" + o.domain + "/" + o.server)
  {
  }

  lemma {:induction false} OverridesSay(os: seq<Override>, key: MainKey)
    requires forall i :: 0 <= i < |os| ==> OneLine(os[i].domain) && OneLine(os[i].server)
    requires Proper(key)
    ensures Says(OverrideLines(os), key, When(key, ServerKey, OverrideValues(os)))
  {
    if os != [] {
      var name := "/" + os[0].domain + "/" + os[0].server;
      OverrideOneLine(os[0]);
      ServerLineSays(name, "domain-override", key);
      OverridesSay(os[1..], key);
      OneMoreSays(OverrideLine(os[0]), OverrideLines(os[1..]), key, ServerKey,
                  Server(name, "domain-override"), OverrideValues(os[1..]));
      OverrideValuesStep(os);
    }
  }

  lemma ManualSays(key: MainKey)
    ensures Says([MANUAL + " during"], key, [])
  {
    var first, second := "### Note: Manual changes", " to this file will be lost";
    assert Free(first, {'=', '\n'}) && Free(second, {'=', '\n'});
    FreeJoined(first, second, {'=', '\n'});
    FreeJoined(MANUAL, " during", {'=', '\n'});
    PlainSays(MANUAL + " during", key);
  }

  lemma ThreeSay(a: string, b: string, c: string, key: MainKey)
    requires Says([a], key, []) && Says([b], key, []) && Says([c], key, [])
    ensures Says([a, b, c], key, [])
  {
    SaysBoth([a], [b], key, [], []);
    SaysBoth([a] + [b], [c], key, [], []);
    assert [a] + [b] + [c] == [a, b, c];
  }

  lemma GeneratedSays(key: MainKey)
    ensures Says(["### Autogenerated by vci-service-dns"], key, [])
  {
    PlainSays("### Autogenerated by vci-service-dns", key);
  }

  lemma CommitSays(key: MainKey)
    ensures Says(["###       the next commit."], key, [])
  {
    PlainSays("###       the next commit.", key);
  }

  lemma CommentsSay(key: MainKey)
    ensures Says(HEAD, key, [])
  {
    GeneratedSays(key);
    ManualSays(key);
    CommitSays(key);
    ThreeSay("### Autogenerated by vci-service-dns", MANUAL + " during", "###       the next commit.", key);
  }

  /** A line that says nothing between two that may. */
  lemma BetweenSay(a: string, flag: string, b: string, key: MainKey, va: seq<string>, vb: seq<string>)
    requires Says([a], key, va) && Says([flag], key, []) && Says([b], key, vb)
    ensures Says([a, flag, b], key, va + vb)
  {
    SaysBoth([a], [flag], key, va, []);
    SaysBoth([a] + [flag], [b], key, va, vb);
    assert [a] + [flag] + [b] == [a, flag, b];
  }

  lemma HeadTogether(head: seq<string>, facility: string, flag: string, edns: string, key: MainKey,
                     va: seq<string>, vb: seq<string>)
    requires Says(head, key, []) && Says([facility], key, va) && Says([flag], key, []) && Says([edns], key, vb)
    ensures Says(head + [facility, flag, edns], key, va + vb)
  {
    BetweenSay(facility, flag, edns, key, va, vb);
    SaysBoth(head, [facility, flag, edns], key, [], va + vb);
    assert [] + (va + vb) == va + vb;
  }

  lemma LogSays(p: Paths, key: MainKey)
    requires OneLine(p.stateFile) && Proper(key)
    ensures Says([KeyLine("log-facility", p.stateFile)], key, When(key, LogKey, [p.stateFile]))
  {
    KeyLineSays(LogKey, p.stateFile, key);
  }

  lemma EdnsSays(key: MainKey)
    requires Proper(key)
    ensures Says([KeyLine("edns-packet-max", "4096")], key, When(key, EdnsKey, ["4096"]))
  {
    KeyLineSays(EdnsKey, "4096", key);
  }

  lemma FlagsSay(key: MainKey)
    ensures Says(["no-poll"], key, []) && Says(["no-hosts"], key, [])
  {
    PlainSays("no-poll", key);
    PlainSays("no-hosts", key);
  }

  lemma HeadSays(p: Paths, key: MainKey)
    requires OneLine(p.stateFile) && Proper(key)
    ensures Says(HeadLines(p), key, When(key, LogKey, [p.stateFile]) + When(key, EdnsKey, ["4096"]))
  {
    CommentsSay(key);
    LogSays(p, key);
    EdnsSays(key);
    FlagsSay(key);
    HeadTogether(HEAD, KeyLine("log-facility", p.stateFile), "no-poll", KeyLine("edns-packet-max", "4096"), key,
                 When(key, LogKey, [p.stateFile]), When(key, EdnsKey, ["4096"]));
  }

  /** `resolv-file` is there exactly when the servers come from the configuration. */
  function Derived(p: Paths, c: ConfigData): seq<string> {
    if c.dhcpInterfaces != [] || c.nameservers != [] || c.system then [p.confFile] else []
  }

  lemma ResolvSays(p: Paths, c: ConfigData, key: MainKey)
    requires OneLine(p.confFile) && Proper(key)
    ensures Says(if c.NsDerived() then [KeyLine("resolv-file", p.confFile)] else [], key,
                 When(key, ResolvKey, Derived(p, c)))
  {
    KeyLineSays(ResolvKey, p.confFile, key);
  }

  lemma TailTogether(resolv: seq<string>, flag: string, hosts: string, key: MainKey, va: seq<string>, vb: seq<string>)
    requires Says(resolv, key, va) && Says([flag], key, []) && Says([hosts], key, vb)
    ensures Says(resolv + [flag, hosts], key, va + vb)
  {
    SaysBoth([flag], [hosts], key, [], vb);
    assert [flag] + [hosts] == [flag, hosts] && [] + vb == vb;
    SaysBoth(resolv, [flag, hosts], key, va, vb);
  }

  lemma HostsSay(p: Paths, key: MainKey)
    requires OneLine(p.hostsFile) && Proper(key)
    ensures Says([KeyLine("addn-hosts", p.hostsFile)], key, When(key, HostsKey, [p.hostsFile]))
  {
    KeyLineSays(HostsKey, p.hostsFile, key);
  }

  lemma TailSays(p: Paths, c: ConfigData, key: MainKey)
    requires OneLine(p.confFile) && OneLine(p.hostsFile) && Proper(key)
    ensures Says(TailLines(p, c), key, When(key, ResolvKey, Derived(p, c)) + When(key, HostsKey, [p.hostsFile]))
  {
    ResolvSays(p, c, key);
    HostsSay(p, key);
    FlagsSay(key);
    TailTogether(if c.NsDerived() then [KeyLine("resolv-file", p.confFile)] else [], "no-hosts",
                 KeyLine("addn-hosts", p.hostsFile), key,
                 When(key, ResolvKey, Derived(p, c)), When(key, HostsKey, [p.hostsFile]));
  }

  lemma {:induction false} JoinOneLine(parts: seq<string>)
    requires AllOneLine(parts)
    ensures OneLine(Join(parts, ","))
  {
    if |parts| > 1 {
      JoinOneLine(parts[1..]);
      FreeJoined(parts[0] + ",", Join(parts[1..], ","), {'\n'});
      FreeJoined(parts[0], ",", {'\n'});
    }
  }

  function ConfDirs(p: Paths): string {
    p.confDir + "," + Join(p.confDirExt, ",")
  }

  lemma ConfDirSays(p: Paths, key: MainKey)
    requires OneLine(p.confDir) && AllOneLine(p.confDirExt) && Proper(key)
    ensures Says([ConfDirLine(p)], key, When(key, ConfDirKey, [ConfDirs(p)]))
  {
    JoinOneLine(p.confDirExt);
    FreeJoined(p.confDir + ",", Join(p.confDirExt, ","), {'\n'});
    FreeJoined(p.confDir, ",", {'\n'});
    KeyLineSays(ConfDirKey, ConfDirs(p), key);
  }

  lemma CacheSays(c: ConfigData, key: MainKey)
    requires Proper(key)
    ensures Says([KeyLine("cache-size", Decimal(c.cacheSize))], key, When(key, CacheKey, [Decimal(c.cacheSize)]))
  {
    KeyLineSays(CacheKey, Decimal(c.cacheSize), key);
  }

  // ------------------------------------------------------------ the file

  lemma FourSay(a: seq<string>, va: seq<string>, b: seq<string>, vb: seq<string>, c: seq<string>, vc: seq<string>,
                d: seq<string>, vd: seq<string>, key: MainKey)
    requires Says(a, key, va) && Says(b, key, vb) && Says(c, key, vc) && Says(d, key, vd)
    ensures Says(a + b + c + d, key, va + vb + vc + vd)
  {
    SaysBoth(a, b, key, va, vb);
    SaysBoth(a + b, c, key, va + vb, vc);
    SaysBoth(a + b + c, d, key, va + vb + vc, vd);
  }

  /** Every value under every key before the servers. */
  function FrontValues(p: Paths, c: ConfigData, key: MainKey): seq<string> {
    When(key, LogKey, [p.stateFile]) + When(key, EdnsKey, ["4096"])
    + When(key, InterfaceKey, c.listenInterfaces) + When(key, CacheKey, [Decimal(c.cacheSize)])
  }

  /** And from the servers on. */
  function BackValues(p: Paths, c: ConfigData, key: MainKey): seq<string> {
    When(key, ServerKey, StaticValues(c.nameservers)) + When(key, ServerKey, OverrideValues(c.overrides))
    + (When(key, ResolvKey, Derived(p, c)) + When(key, HostsKey, [p.hostsFile]))
    + When(key, ConfDirKey, [ConfDirs(p)])
  }

  function Front(p: Paths, c: ConfigData): seq<string> {
    HeadLines(p) + InterfaceLines(c.listenInterfaces) + [KeyLine("cache-size", Decimal(c.cacheSize))]
  }

  lemma FrontSays(p: Paths, c: ConfigData, key: MainKey)
    requires Lineless(p, c) && Proper(key)
    ensures Says(Front(p, c), key, FrontValues(p, c, key))
  {
    var head := When(key, LogKey, [p.stateFile]) + When(key, EdnsKey, ["4096"]);
    HeadSays(p, key);
    InterfacesSay(c.listenInterfaces, key);
    CacheSays(c, key);
    SaysBoth(HeadLines(p), InterfaceLines(c.listenInterfaces), key, head, When(key, InterfaceKey, c.listenInterfaces));
    SaysBoth(HeadLines(p) + InterfaceLines(c.listenInterfaces), [KeyLine("cache-size", Decimal(c.cacheSize))], key,
             head + When(key, InterfaceKey, c.listenInterfaces), When(key, CacheKey, [Decimal(c.cacheSize)]));
  }

  lemma BackSays(p: Paths, c: ConfigData, key: MainKey)
    requires Lineless(p, c) && Proper(key)
    ensures Says(StaticLines(c.nameservers) + OverrideLines(c.overrides) + TailLines(p, c) + [ConfDirLine(p)], key,
                 BackValues(p, c, key))
  {
    StaticsSay(c.nameservers, key);
    OverridesSay(c.overrides, key);
    TailSays(p, c, key);
    ConfDirSays(p, key);
    FourSay(StaticLines(c.nameservers), When(key, ServerKey, StaticValues(c.nameservers)),
            OverrideLines(c.overrides), When(key, ServerKey, OverrideValues(c.overrides)),
            TailLines(p, c), When(key, ResolvKey, Derived(p, c)) + When(key, HostsKey, [p.hostsFile]),
            [ConfDirLine(p)], When(key, ConfDirKey, [ConfDirs(p)]), key);
  }

  lemma Regrouped(f: seq<string>, a: seq<string>, b: seq<string>, c: seq<string>, d: seq<string>)
    ensures f + (a + b + c + d) == f + a + b + c + d
  {
  }

  lemma FileSays(p: Paths, c: ConfigData, key: MainKey)
    requires Lineless(p, c) && Proper(key)
    ensures Lines(WriteForwardingConfig(p, c)) == MainLines(p, c)
    ensures Values(Lines(WriteForwardingConfig(p, c)), Named(key)) == FrontValues(p, c, key) + BackValues(p, c, key)
  {
    FrontSays(p, c, key);
    BackSays(p, c, key);
    var back := StaticLines(c.nameservers) + OverrideLines(c.overrides) + TailLines(p, c) + [ConfDirLine(p)];
    SaysBoth(Front(p, c), back, key, FrontValues(p, c, key), BackValues(p, c, key));
    Regrouped(Front(p, c), StaticLines(c.nameservers), OverrideLines(c.overrides), TailLines(p, c), [ConfDirLine(p)]);
    LinesOfUnlines(MainLines(p, c));
  }

  /** Of several lists one may be left. */
  lemma OneLeft(a: seq<string>, b: seq<string>, c: seq<string>, d: seq<string>)
    ensures b == [] && c == [] && d == [] ==> a + b + c + d == a
    ensures a == [] && c == [] && d == [] ==> a + b + c + d == b
    ensures a == [] && b == [] && d == [] ==> a + b + c + d == c
    ensures a == [] && b == [] && c == [] ==> a + b + c + d == d
  {
  }

  /** What there is before the servers under each key. */
  function InFront(p: Paths, c: ConfigData, key: MainKey): seq<string> {
    match key
    case LogKey => [p.stateFile]
    case EdnsKey => ["4096"]
    case InterfaceKey => c.listenInterfaces
    case CacheKey => [Decimal(c.cacheSize)]
    case _ => []
  }

  lemma FrontIs(p: Paths, c: ConfigData, key: MainKey)
    ensures FrontValues(p, c, key) == InFront(p, c, key)
  {
    OneLeft(When(key, LogKey, [p.stateFile]), When(key, EdnsKey, ["4096"]),
            When(key, InterfaceKey, c.listenInterfaces), When(key, CacheKey, [Decimal(c.cacheSize)]));
  }

  /** And from the servers on. */
  function Behind(p: Paths, c: ConfigData, key: MainKey): seq<string> {
    match key
    case ServerKey => StaticValues(c.nameservers) + OverrideValues(c.overrides)
    case ResolvKey => Derived(p, c)
    case HostsKey => [p.hostsFile]
    case ConfDirKey => [ConfDirs(p)]
    case _ => []
  }

  lemma BackIs(p: Paths, c: ConfigData, key: MainKey)
    ensures BackValues(p, c, key) == Behind(p, c, key)
  {
    OneLeft(When(key, ServerKey, StaticValues(c.nameservers)) + When(key, ServerKey, OverrideValues(c.overrides)),
            When(key, ResolvKey, Derived(p, c)) + When(key, HostsKey, [p.hostsFile]),
            When(key, ConfDirKey, [ConfDirs(p)]), []);
  }

  lemma KeySays(p: Paths, c: ConfigData, key: MainKey)
    requires Lineless(p, c) && Proper(key)
    ensures Values(Lines(WriteForwardingConfig(p, c)), Named(key)) == InFront(p, c, key) + Behind(p, c, key)
  {
    FileSays(p, c, key);
    FrontIs(p, c, key);
    BackIs(p, c, key);
  }

  /** The main file has dnsmasq listen on exactly the interfaces configured, in order. */
  lemma ListensOn(p: Paths, c: ConfigData)
    requires Lineless(p, c)
    ensures Values(Lines(WriteForwardingConfig(p, c)), "interface") == c.listenInterfaces
  {
    KeySays(p, c, InterfaceKey);
  }

  /** It sets the cache size configured, */
  lemma CacheSizeSaid(p: Paths, c: ConfigData)
    requires Lineless(p, c)
    ensures Values(Lines(WriteForwardingConfig(p, c)), "cache-size") == [Decimal(c.cacheSize)]
  {
    KeySays(p, c, CacheKey);
  }

  /** the log, */
  lemma LogSaid(p: Paths, c: ConfigData)
    requires Lineless(p, c)
    ensures Values(Lines(WriteForwardingConfig(p, c)), "log-facility") == [p.stateFile]
  {
    KeySays(p, c, LogKey);
  }

  /** the hosts file, */
  lemma HostsSaid(p: Paths, c: ConfigData)
    requires Lineless(p, c)
    ensures Values(Lines(WriteForwardingConfig(p, c)), "addn-hosts") == [p.hostsFile]
  {
    KeySays(p, c, HostsKey);
  }

  /** the resolv file exactly if servers are configured one way or another, */
  lemma ResolvSaid(p: Paths, c: ConfigData)
    requires Lineless(p, c)
    ensures Values(Lines(WriteForwardingConfig(p, c)), "resolv-file") == (if c.dhcpInterfaces != [] || c.nameservers != [] || c.system then [p.confFile] else [])
  {
    KeySays(p, c, ResolvKey);
  }

  /** where further files are, */
  lemma ConfDirSaid(p: Paths, c: ConfigData)
    requires Lineless(p, c)
    ensures Values(Lines(WriteForwardingConfig(p, c)), "conf-dir") == [p.confDir + "," + Join(p.confDirExt, ",")]
  {
    KeySays(p, c, ConfDirKey);
  }

  /** and the servers with what they are, name servers first. */
  lemma ServersSaid(p: Paths, c: ConfigData)
    requires Lineless(p, c)
    ensures Values(Lines(WriteForwardingConfig(p, c)), "server")
            == seq(|c.nameservers|, i requires 0 <= i < |c.nameservers| => c.nameservers[i] + "\t# statically configured")
               + seq(|c.overrides|, i requires 0 <= i < |c.overrides| =>
                     "/" + c.overrides[i].domain + "/" + c.overrides[i].server + "\t# domain-override")
  {
    KeySays(p, c, ServerKey);
  }

  /** The packet size is fixed, */
  lemma PacketSizeSaid(p: Paths, c: ConfigData)
    requires Lineless(p, c)
    ensures Values(Lines(WriteForwardingConfig(p, c)), "edns-packet-max") == ["4096"]
  {
    KeySays(p, c, EdnsKey);
  }

  /** and resolv files are not polled, nor the default hosts file read. */
  lemma FlagsSaid(p: Paths, c: ConfigData)
    requires Lineless(p, c)
    ensures "no-poll" in Lines(WriteForwardingConfig(p, c)) && "no-hosts" in Lines(WriteForwardingConfig(p, c))
  {
    FileSays(p, c, EdnsKey);
    Flags(p, c);
  }

  lemma Flags(p: Paths, c: ConfigData)
    ensures "no-poll" in MainLines(p, c) && "no-hosts" in MainLines(p, c)
  {
    assert "no-poll" in HeadLines(p) && "no-hosts" in TailLines(p, c);
  }

  /** And nothing else. */
  lemma NoOtherKey(p: Paths, c: ConfigData, key: MainKey)
    requires Lineless(p, c) && key.OtherKey? && Proper(key)
    ensures Values(Lines(WriteForwardingConfig(p, c)), key.name) == []
  {
    KeySays(p, c, key);
  }

  // ------------------------------------------------------------ derived files

  lemma DhcpComment(intf: string, server: string)
    ensures Server(server, "dhcp" + (" " + intf)) == server + "\t# dhcp " + intf
  {
    assert "\t# dhcp " == "\t" + ("#" + " " + ("dhcp" + " "));
    assert Server(server, "dhcp" + (" " + intf)) == server + ("\t" + ("#" + " " + ("dhcp" + " "))) + intf;
  }

  function DhcpValues(intf: string, servers: seq<string>): seq<string> {
    seq(|servers|, i requires 0 <= i < |servers| => servers[i] + "\t# dhcp " + intf)
  }

  lemma DhcpValuesStep(intf: string, servers: seq<string>)
    requires servers != []
    ensures DhcpValues(intf, servers) == [Server(servers[0], "dhcp" + (" " + intf))] + DhcpValues(intf, servers[1..])
  {
    DhcpComment(intf, servers[0]);
  }

  lemma {:induction false} DhcpSays(intf: string, servers: seq<string>, key: MainKey)
    requires OneLine(intf) && AllOneLine(servers) && Proper(key)
    ensures Says(DhcpLines(intf, servers), key, When(key, ServerKey, DhcpValues(intf, servers)))
  {
    if servers != [] {
      FreeJoined(" ", intf, {'\n'});
      FreeJoined("dhcp", " " + intf, {'\n'});
      ServerLineSays(servers[0], "dhcp" + (" " + intf), key);
      DhcpSays(intf, servers[1..], key);
      OneMoreSays(DhcpLine(intf, servers[0]), DhcpLines(intf, servers[1..]), key, ServerKey,
                  Server(servers[0], "dhcp" + (" " + intf)), DhcpValues(intf, servers[1..]));
      DhcpValuesStep(intf, servers);
    }
  }

  lemma SystemComment(server: string)
    ensures Server(server, "system") == server + "\t# system"
  {
    assert "\t# system" == "\t" + ("#" + " " + "system");
    assert Server(server, "system") == server + ("\t" + ("#" + " " + "system"));
  }

  function SystemValues(servers: seq<string>): seq<string> {
    seq(|servers|, i requires 0 <= i < |servers| => servers[i] + "\t# system")
  }

  lemma SystemValuesStep(servers: seq<string>)
    requires servers != []
    ensures SystemValues(servers) == [Server(servers[0], "system")] + SystemValues(servers[1..])
  {
    SystemComment(servers[0]);
  }

  lemma {:induction false} SystemSays(servers: seq<string>, key: MainKey)
    requires AllOneLine(servers) && Proper(key)
    ensures Says(SystemLines(servers), key, When(key, ServerKey, SystemValues(servers)))
  {
    if servers != [] {
      ServerLineSays(servers[0], "system", key);
      SystemSays(servers[1..], key);
      OneMoreSays(SystemLine(servers[0]), SystemLines(servers[1..]), key, ServerKey,
                  Server(servers[0], "system"), SystemValues(servers[1..]));
      SystemValuesStep(servers);
    }
  }

  lemma NoticeSays(key: MainKey)
    ensures Says([MANUAL + "."], key, [])
  {
    var first, second := "### Note: Manual changes", " to this file will be lost";
    assert Free(first, {'=', '\n'}) && Free(second, {'=', '\n'});
    FreeJoined(first, second, {'=', '\n'});
    FreeJoined(MANUAL, ".", {'=', '\n'});
    PlainSays(MANUAL + ".", key);
  }

  lemma TwoSay(a: string, b: string, key: MainKey)
    requires Says([a], key, []) && Says([b], key, [])
    ensures Says([a, b], key, [])
  {
    SaysBoth([a], [b], key, [], []);
    assert [a] + [b] == [a, b];
  }

  lemma DhcpCommentsSay(key: MainKey)
    ensures Says(DHCP_HEAD, key, [])
  {
    GeneratedSays(key);
    NoticeSays(key);
    TwoSay("### Autogenerated by vci-service-dns", MANUAL + ".", key);
  }

  /** An interface's file has its servers, each with the interface; without servers it is empty. */
  lemma DhcpFileSays(intf: string, servers: seq<string>)
    requires OneLine(intf) && AllOneLine(servers)
    ensures WriteDhcpConfig(intf, servers) == "" <==> servers == []
    ensures Values(Lines(WriteDhcpConfig(intf, servers)), "server")
            == seq(|servers|, i requires 0 <= i < |servers| => servers[i] + "\t# dhcp " + intf)
  {
    if servers != [] {
      DhcpCommentsSay(ServerKey);
      DhcpSays(intf, servers, ServerKey);
      SaysBoth(DHCP_HEAD, DhcpLines(intf, servers), ServerKey, [], DhcpValues(intf, servers));
      LinesOfUnlines(DHCP_HEAD + DhcpLines(intf, servers));
      Head(DHCP_HEAD, DhcpLines(intf, servers));
    }
  }

  lemma Head(head: seq<string>, lines: seq<string>)
    requires head != []
    ensures Unlines(head + lines) != ""
  {
  }

  /** And the system file. */
  lemma SystemFileSays(servers: seq<string>)
    requires AllOneLine(servers)
    ensures WriteSystemConfig(servers) == "" <==> servers == []
    ensures Values(Lines(WriteSystemConfig(servers)), "server")
            == seq(|servers|, i requires 0 <= i < |servers| => servers[i] + "\t# system")
  {
    if servers != [] {
      CommentsSay(ServerKey);
      SystemSays(servers, ServerKey);
      SaysBoth(HEAD, SystemLines(servers), ServerKey, [], SystemValues(servers));
      LinesOfUnlines(HEAD + SystemLines(servers));
      Head(HEAD, SystemLines(servers));
    }
  }

  // ------------------------------------------------------------ one line, whatever it is

  /** The words of a line, between any gaps of `=` and blanks. */
  predicate OfWords(line: string, words: seq<string>, gaps: seq<string>) {
    Apart(words, gaps, EQUALS_AND_BLANKS) && line == Spaced(words, gaps)
  }

  /**
   A server line without a third word after its keyword panics; one marked as an override
   gives the domain and the server between its slashes, and panics without two of them; any
   other gives its first word.
   */
  lemma ServerLineExactly(line: string, words: seq<string>, gaps: seq<string>, parts: seq<string>)
    requires OfWords(line, words, gaps)
    requires |words| > 1 ==> parts != [] && words[1] == Join(parts, "/") && forall i :: 0 <= i < |parts| ==> Free(parts[i], {'/'})
    ensures ReadServerLine(line)
            == if |words| < 4 then Panicked
               else if words[3] != "domain-override" then Read([DnsmasqNs(words[1], "")])
               else if |parts| < 3 then Panicked
               else Read([DnsmasqNs(parts[2], parts[1])])
  {
    FieldsOfSpaced(words, gaps, EQUALS_AND_BLANKS);
    if |words| > 1 {
      SplitOfJoin(parts, '/');
    }
  }

  /** In particular a server without a comment panics, and so does the reading of its file, unless it panics before. */
  lemma NoCommentPanics(fs: FileSystem, before: seq<string>, server: string, after: seq<string>, fuel: nat)
    requires ServerName(server) && !ReadLines(fs, before, fuel).Endless?
    ensures ReadLines(fs, before + [SERVER + server] + after, fuel).Panicked?
  {
    var line := SERVER + server;
    var words, gaps := ["server", server], ["="];
    KeywordWord();
    assert words[1..] == [server] && line == Spaced(words, gaps);
    FieldsOfSpaced(words, gaps, EQUALS_AND_BLANKS);
    PrefixContains(SERVER, server);
    assert ReadLine(fs, line, fuel).Panicked?;
    assert [line][1..] == [];
    ReadLinesAppend(fs, before + [line], after, fuel);
    ReadLinesAppend(fs, before, [line], fuel);
  }

  /** A line with `conf-dir=` and no `server=` reads the files its first word names: a directory and patterns. */
  lemma ConfDirLineExactly(fs: FileSystem, line: string, words: seq<string>, gaps: seq<string>, parts: seq<string>, fuel: nat)
    requires OfWords(line, words, gaps) && Contains(line, "conf-dir=")
    requires |words| > 1 ==> parts != [] && words[1] == Join(parts, ",") && forall i :: 0 <= i < |parts| ==> Free(parts[i], {','})
    ensures ReadLine(fs, line, fuel)
            == if Contains(line, "server=") then ReadServerLine(line)
               else if |words| < 2 then Panicked
               else ReadGlobs(fs, parts[0], parts[1..], fuel)
  {
    FieldsOfSpaced(words, gaps, EQUALS_AND_BLANKS);
    if |words| > 1 {
      SplitOfJoin(parts, ',');
    }
  }

  /** With one pattern, those are the files that match it in the directory, in order; there may be none. */
  lemma OnePattern(fs: FileSystem, dir: string, glob: string, fuel: nat)
    requires Word(dir) && Word(glob) && Free(dir, {','}) && Free(glob, {','})
    ensures var line := "conf-dir=" + dir + "," + glob;
            ReadLine(fs, line, fuel)
            == if dir + "/" + glob in fs.matches then ReadFiles(fs, fs.matches[dir + "/" + glob], fuel) else Read([])
  {
    var value := dir + "," + glob;
    FreeJoined(dir + ",", glob, EQUALS_AND_BLANKS);
    FreeJoined(dir, ",", EQUALS_AND_BLANKS);
    ConfDirMarker(value);
    ConfDirFields(value);
    assert "conf-dir=" + dir + "," + glob == KeyLine("conf-dir", value);
    SplitEachStep(dir, ',', glob, {','});
    SplitLast(glob, {','});
    OneGlob(fs, dir, glob, fuel);
  }

  lemma OneGlob(fs: FileSystem, dir: string, glob: string, fuel: nat)
    ensures ReadGlobs(fs, dir, [glob], fuel)
            == if dir + "/" + glob in fs.matches then ReadFiles(fs, fs.matches[dir + "/" + glob], fuel) else Read([])
  {
    assert [glob][1..] == [];
    ReadFilesAppend(fs, Matched(fs, dir, glob), [], fuel);
    assert Matched(fs, dir, glob) + [] == Matched(fs, dir, glob);
  }
}
