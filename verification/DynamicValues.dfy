/** What ddclient finds in the files of dynamic DNS (internal/dynamic/config.go). */
module DynamicValues {
  import opened Wrappers
  import opened Text
  import opened KeyValues
  import opened DynamicFiles
  import opened DynamicConfig

  /** The services whose protocol has a version number. */
  const VERSIONS: map<string, string> := map["dslreports" := "1", "dyndns" := "2", "zoneedit" := "1"]

  function Protocol(service: string): string {
    service + if service in VERSIONS then VERSIONS[service] else ""
  }

  /** What the file says of one host. */
  datatype Account = Account(protocol: seq<string>, server: seq<string>, interval: seq<string>,
                             login: seq<string>, password: seq<string>, host: string)

  /** The hosts with what is said of each, paragraph by paragraph. */
  function Accounts(lines: seq<string>): seq<Account> {
    if |lines| < 6 then []
    else
      var server := ValueOf(lines[1], "server");
      var k := |server|;
      if |lines| < k + 6 then []
      else [Account(ValueOf(lines[0], "protocol"), server, ValueOf(lines[k + 1], "max-interval"),
                    ValueOf(lines[k + 2], "login"), ValueOf(lines[k + 3], "password"), lines[k + 4])]
           + Accounts(lines[k + 6..])
  }

  /** What it should say of a host of service `s`. */
  function AccountOf(s: Service, host: string): Account {
    Account([Protocol(s.name)], if s.server == "" then [] else [s.server + ","], ["28d"], [s.login], [s.password], host)
  }

  function HostAccounts(s: Service, hosts: seq<string>): seq<Account> {
    seq(|hosts|, i requires 0 <= i < |hosts| => AccountOf(s, hosts[i]))
  }

  function ServiceAccounts(services: seq<Service>): seq<Account> {
    if services == [] then []
    else HostAccounts(services[0], services[0].hostNames) + ServiceAccounts(services[1..])
  }

  predicate OneLine(s: string) {
    Free(s, {'\n'})
  }

  predicate Lineless(s: Service) {
    && OneLine(s.name) && OneLine(s.server) && OneLine(s.login) && OneLine(s.password)
    && forall i :: 0 <= i < |s.hostNames| ==> OneLine(s.hostNames[i])
  }

  // ------------------------------------------------------------ lines

  lemma {:induction false} UnlinesAppend(a: seq<string>, b: seq<string>)
    ensures Unlines(a + b) == Unlines(a) + Unlines(b)
  {
    if a == [] {
      assert a + b == b;
    } else {
      assert (a + b)[1..] == a[1..] + b;
      UnlinesAppend(a[1..], b);
    }
  }

  lemma UnlinesOne(line: string)
    ensures Unlines([line]) == line + "\n"
  {
    assert [line][1..] == [];
  }

  lemma UnlinesMore(line: string, lines: seq<string>)
    ensures Unlines([line] + lines) == line + "\n" + Unlines(lines)
  {
    assert ([line] + lines)[1..] == lines;
  }

  /** The lines of a host, from the interval on. */
  function LoginLines(s: Service, host: string): seq<string> {
    ["max-interval=28d"] + (["login=" + s.login] + (["password=" + s.password] + ([host] + [""])))
  }

  function ServerLines(s: Service): seq<string> {
    if s.server != "" then ["server=" + (s.server + ",")] else []
  }

  function HostLines(s: Service, host: string): seq<string> {
    ["protocol=" + MapServiceName(s.name)] + (ServerLines(s) + LoginLines(s, host))
  }

  lemma LoginText(s: Service, host: string)
    ensures Unlines(LoginLines(s, host))
            == "max-interval=28d\nlogin=" + s.login + "\npassword=" + s.password + "\n" + host + "\n\n"
  {
    UnlinesOne("");
    UnlinesMore(host, [""]);
    UnlinesMore("password=" + s.password, [host] + [""]);
    UnlinesMore("login=" + s.login, ["password=" + s.password] + ([host] + [""]));
    UnlinesMore("max-interval=28d", ["login=" + s.login] + (["password=" + s.password] + ([host] + [""])));
    LoginCut(s, host);
  }

  lemma LoginCut(s: Service, host: string)
    ensures "max-interval=28d" + "\n" + ("login=" + s.login + "\n" + ("password=" + s.password + "\n" + (host + "\n" + ("" + "\n"))))
            == "max-interval=28d\nlogin=" + s.login + "\npassword=" + s.password + "\n" + host + "\n\n"
  {
    assert "max-interval=28d\nlogin=" == "max-interval=28d" + "\n" + "login=";
    assert "\npassword=" == "\n" + "password=";
    assert "\n\n" == "\n" + ("" + "\n");
  }

  lemma ServerText(s: Service)
    ensures Unlines(ServerLines(s)) == if s.server != "" then "server=" + s.server + ",\n" else ""
  {
    if s.server != "" {
      UnlinesOne("server=" + (s.server + ","));
      assert ",\n" == "," + "\n";
      assert "server=" + (s.server + ",") + "\n" == "server=" + s.server + ",\n";
    }
  }

  lemma HostIsLines(s: Service, host: string)
    ensures HostText(s, host) == Unlines(HostLines(s, host))
  {
    LoginText(s, host);
    ServerText(s);
    UnlinesAppend(ServerLines(s), LoginLines(s, host));
    UnlinesMore("protocol=" + MapServiceName(s.name), ServerLines(s) + LoginLines(s, host));
    HostCut("protocol=" + MapServiceName(s.name) + "\n", Unlines(ServerLines(s)), s, host);
  }

  lemma HostCut(protocol: string, server: string, s: Service, host: string)
    ensures protocol + server + "max-interval=28d\nlogin=" + s.login + "\npassword=" + s.password + "\n" + host + "\n\n"
            == protocol + (server + ("max-interval=28d\nlogin=" + s.login + "\npassword=" + s.password + "\n" + host + "\n\n"))
  {
  }

  predicate AllOneLine(lines: seq<string>) {
    forall i :: 0 <= i < |lines| ==> OneLine(lines[i])
  }

  lemma KeyedOneLine(key: string, value: string)
    requires OneLine(key) && OneLine(value)
    ensures OneLine(key + value)
  {
    FreeJoined(key, value, {'\n'});
  }

  lemma HostOneLine(s: Service, host: string)
    requires Lineless(s) && OneLine(host)
    ensures AllOneLine(HostLines(s, host))
  {
    KeyedOneLine("protocol=", MapServiceName(s.name));
    KeyedOneLine(s.server, ",");
    KeyedOneLine("server=", s.server + ",");
    KeyedOneLine("login=", s.login);
    KeyedOneLine("password=", s.password);
    LoginOneLine(s, host);
  }

  lemma LoginOneLine(s: Service, host: string)
    requires OneLine("login=" + s.login) && OneLine("password=" + s.password) && OneLine(host)
    ensures AllOneLine(LoginLines(s, host))
  {
  }

  // ------------------------------------------------------------ accounts

  lemma MappedName(service: string)
    ensures MapServiceName(service) == Protocol(service)
  {
  }

  lemma KeyedValue(key: string, value: string)
    ensures ValueOf(key + "=" + value, key) == [value]
  {
    var line := key + "=" + value;
    assert line[|key| + 1..] == value && line[..|key| + 1] == key + "=";
  }

  lemma IntervalIsNoServer()
    ensures ValueOf("max-interval=28d", "server") == []
  {
    assert "max-interval=28d"[0] != ("server" + "=")[0];
  }

  /** The lines of one host in front of others. */
  lemma OneAccount(s: Service, host: string, rest: seq<string>)
    ensures Accounts(HostLines(s, host) + rest) == [AccountOf(s, host)] + Accounts(rest)
  {
    var lines := HostLines(s, host) + rest;
    MappedName(s.name);
    KeyedValue("protocol", Protocol(s.name));
    KeyedValue("server", s.server + ",");
    KeyedValue("max-interval", "28d");
    KeyedValue("login", s.login);
    KeyedValue("password", s.password);
    IntervalIsNoServer();
  }

  function HostsLines(s: Service, hosts: seq<string>): seq<string> {
    if hosts == [] then [] else HostLines(s, hosts[0]) + HostsLines(s, hosts[1..])
  }

  function ServicesLines(services: seq<Service>): seq<string> {
    if services == [] then [] else HostsLines(services[0], services[0].hostNames) + ServicesLines(services[1..])
  }

  lemma {:induction false} HostsAreLines(s: Service, hosts: seq<string>)
    requires Lineless(s) && AllOneLine(hosts)
    ensures HostsText(s, hosts) == Unlines(HostsLines(s, hosts)) && AllOneLine(HostsLines(s, hosts))
  {
    if hosts != [] {
      HostIsLines(s, hosts[0]);
      HostOneLine(s, hosts[0]);
      HostsAreLines(s, hosts[1..]);
      UnlinesAppend(HostLines(s, hosts[0]), HostsLines(s, hosts[1..]));
    }
  }

  lemma {:induction false} ServicesAreLines(services: seq<Service>)
    requires forall i :: 0 <= i < |services| ==> Lineless(services[i])
    ensures ServicesText(services) == Unlines(ServicesLines(services)) && AllOneLine(ServicesLines(services))
  {
    if services != [] {
      HostsAreLines(services[0], services[0].hostNames);
      ServicesAreLines(services[1..]);
      UnlinesAppend(HostsLines(services[0], services[0].hostNames), ServicesLines(services[1..]));
    }
  }

  lemma Regrouped<T>(a: seq<T>, b: seq<T>, c: seq<T>)
    ensures a + b + c == a + (b + c)
  {
  }

  lemma HostAccountsStep(s: Service, hosts: seq<string>, rest: seq<Account>)
    requires hosts != []
    ensures HostAccounts(s, hosts) + rest == [AccountOf(s, hosts[0])] + (HostAccounts(s, hosts[1..]) + rest)
  {
  }

  lemma {:induction false} HostsAccounts(s: Service, hosts: seq<string>, rest: seq<string>)
    ensures Accounts(HostsLines(s, hosts) + rest) == HostAccounts(s, hosts) + Accounts(rest)
  {
    if hosts == [] {
      assert HostsLines(s, hosts) + rest == rest;
    } else {
      Regrouped(HostLines(s, hosts[0]), HostsLines(s, hosts[1..]), rest);
      OneAccount(s, hosts[0], HostsLines(s, hosts[1..]) + rest);
      HostsAccounts(s, hosts[1..], rest);
      HostAccountsStep(s, hosts, Accounts(rest));
    }
  }

  lemma {:induction false} ServicesAccounts(services: seq<Service>)
    ensures Accounts(ServicesLines(services)) == ServiceAccounts(services)
  {
    if services != [] {
      HostsAccounts(services[0], services[0].hostNames, ServicesLines(services[1..]));
      ServicesAccounts(services[1..]);
    }
  }

  // ------------------------------------------------------------ the files

  /** The lines before the services. */
  function HeadLines(d: Dirs, date: string, intf: string): seq<string> {
    ["#", "# autogenerated" + (" by vci-service-dns on " + date), "#"] + ["daemon=1m", "syslog=yes", "ssl=yes"]
    + ["pid=" + PidFile(d, intf), "cache=" + CacheFile(d, intf), "use=if, if=" + intf, "", ""]
  }

  lemma ThreeText(a: string, b: string, c: string)
    ensures Unlines([a, b, c]) == a + "\n" + b + "\n" + c + "\n"
  {
    UnlinesOne(c);
    UnlinesMore(b, [c]);
    UnlinesMore(a, [b] + [c]);
    assert [a] + ([b] + [c]) == [a, b, c];
  }

  /** The comment at the head of both files. */
  lemma NoteText(words: string)
    ensures Unlines(["#", "# autogenerated" + words, "#"]) == "#\n# autogenerated" + words + "\n#\n"
  {
    ThreeText("#", "# autogenerated" + words, "#");
    assert "#\n# autogenerated" == "#" + "\n" + "# autogenerated";
    assert "\n#\n" == "\n" + "#" + "\n";
  }

  lemma SettingsText()
    ensures Unlines(["daemon=1m", "syslog=yes", "ssl=yes"]) == "daemon=1m\nsyslog=yes\nssl=yes\n"
  {
    ThreeText("daemon=1m", "syslog=yes", "ssl=yes");
  }

  lemma FilesText(pid: string, cache: string, use: string)
    ensures Unlines([pid, cache, use, "", ""]) == pid + "\n" + cache + "\n" + use + "\n\n\n"
  {
    UnlinesOne("");
    UnlinesMore("", [""]);
    UnlinesMore(use, [""] + [""]);
    UnlinesMore(cache, [use] + ([""] + [""]));
    UnlinesMore(pid, [cache] + ([use] + ([""] + [""])));
    assert [pid] + ([cache] + ([use] + ([""] + [""]))) == [pid, cache, use, "", ""];
  }

  lemma HeadText(d: Dirs, date: string, intf: string)
    ensures Unlines(HeadLines(d, date, intf))
            == "#\n# autogenerated" + (" by vci-service-dns on " + date) + "\n#\n" + "daemon=1m\nsyslog=yes\nssl=yes\n"
               + ("pid=" + PidFile(d, intf) + "\n" + ("cache=" + CacheFile(d, intf)) + "\n" + ("use=if, if=" + intf) + "\n\n\n")
  {
    NoteText(" by vci-service-dns on " + date);
    SettingsText();
    FilesText("pid=" + PidFile(d, intf), "cache=" + CacheFile(d, intf), "use=if, if=" + intf);
    var note := ["#", "# autogenerated" + (" by vci-service-dns on " + date), "#"];
    UnlinesAppend(note, ["daemon=1m", "syslog=yes", "ssl=yes"]);
    UnlinesAppend(note + ["daemon=1m", "syslog=yes", "ssl=yes"],
                  ["pid=" + PidFile(d, intf), "cache=" + CacheFile(d, intf), "use=if, if=" + intf, "", ""]);
  }

  lemma ConfCut(auto: string, words: string, date: string, end: string, settings: string, pidKey: string, pid: string,
                cacheKey: string, cache: string, useKey: string, intf: string, gap: string, services: string)
    ensures auto + words + date + end + settings + pidKey + pid + cacheKey + cache + useKey + intf + gap + services
            == auto + (words + date) + end + settings + (pidKey + pid + cacheKey + cache + useKey + intf + gap) + services
  {
  }

  lemma ConfIsLines(d: Dirs, date: string, intf: Interface)
    requires forall i :: 0 <= i < |intf.services| ==> Lineless(intf.services[i])
    ensures ConfText(d, date, intf) == Unlines(HeadLines(d, date, intf.name) + ServicesLines(intf.services))
    ensures AllOneLine(ServicesLines(intf.services))
  {
    HeadText(d, date, intf.name);
    ServicesAreLines(intf.services);
    UnlinesAppend(HeadLines(d, date, intf.name), ServicesLines(intf.services));
    ConfCut("#\n# autogenerated", " by vci-service-dns on ", date, "\n#\n", "daemon=1m\nsyslog=yes\nssl=yes\n",
            "pid=", PidFile(d, intf.name), "\ncache=", CacheFile(d, intf.name), "\nuse=if, if=", intf.name, "\n\n\n",
            ServicesText(intf.services));
    FilesCut(PidFile(d, intf.name), CacheFile(d, intf.name), intf.name);
  }

  lemma FilesCut(pid: string, cache: string, intf: string)
    ensures "pid=" + pid + "\n" + ("cache=" + cache) + "\n" + ("use=if, if=" + intf) + "\n\n\n"
            == "pid=" + pid + "\ncache=" + cache + "\nuse=if, if=" + intf + "\n\n\n"
  {
    assert "\ncache=" == "\n" + "cache=";
    assert "\nuse=if, if=" == "\n" + "use=if, if=";
  }

  predicate DirsOneLine(d: Dirs) {
    OneLine(d.run) && OneLine(d.cache) && OneLine(d.config) && OneLine(d.envBefore) && OneLine(d.envAfter)
  }

  lemma PathsOneLine(d: Dirs, n: string)
    requires DirsOneLine(d) && OneLine(n)
    ensures OneLine(ConfFile(d, n)) && OneLine(PidFile(d, n)) && OneLine(CacheFile(d, n))
  {
    KeyedOneLine("ddclient_", n);
    PathOneLine(d.config, n, ".conf");
    PathOneLine(d.run, n, ".pid");
    PathOneLine(d.cache, n, ".cache");
  }

  lemma PathOneLine(dir: string, n: string, end: string)
    requires OneLine(dir) && OneLine(n) && OneLine(end)
    ensures OneLine(dir + "/" + "ddclient_" + n + end)
  {
    KeyedOneLine(dir, "/");
    KeyedOneLine(dir + "/", "ddclient_");
    KeyedOneLine(dir + "/" + "ddclient_", n);
    KeyedOneLine(dir + "/" + "ddclient_" + n, end);
  }

  lemma NoteOneLine(words: string)
    requires OneLine(words)
    ensures AllOneLine(["#", "# autogenerated" + words, "#"])
  {
    KeyedOneLine("# autogenerated", words);
  }

  lemma HeadOneLine(d: Dirs, date: string, intf: string)
    requires DirsOneLine(d) && OneLine(date) && OneLine(intf)
    ensures AllOneLine(HeadLines(d, date, intf))
  {
    KeyedOneLine(" by vci-service-dns on ", date);
    NoteOneLine(" by vci-service-dns on " + date);
    PathsOneLine(d, intf);
    KeyedOneLine("pid=", PidFile(d, intf));
    KeyedOneLine("cache=", CacheFile(d, intf));
    KeyedOneLine("use=if, if=", intf);
  }

  lemma ConfLines(d: Dirs, date: string, intf: Interface)
    requires DirsOneLine(d) && OneLine(date) && OneLine(intf.name)
    requires forall i :: 0 <= i < |intf.services| ==> Lineless(intf.services[i])
    ensures Lines(ConfText(d, date, intf)) == HeadLines(d, date, intf.name) + ServicesLines(intf.services)
  {
    ConfIsLines(d, date, intf);
    HeadOneLine(d, date, intf.name);
    LinesOfUnlines(HeadLines(d, date, intf.name) + ServicesLines(intf.services));
  }

  /** The file has the interface's process and cache file, its name, and the accounts of its hosts. */
  predicate ConfFound(d: Dirs, text: string, intf: Interface) {
    var lines := Lines(text);
    && |lines| >= 11
    && lines[6..9] == ["pid=" + d.run + "/ddclient_" + intf.name + ".pid",
                       "cache=" + d.cache + "/ddclient_" + intf.name + ".cache",
                       "use=if, if=" + intf.name]
    && Accounts(lines[11..]) == ServiceAccounts(intf.services)
  }

  /** The file has the instance's VRF and the interface's configuration file. */
  predicate EnvFound(d: Dirs, text: string, instance: string, intf: string) {
    var lines := Lines(text);
    && |lines| == 5
    && lines[3..] == ["DDCLIENT_VRF_NAME=" + instance, "DDCLIENT_IF_CONF=" + d.config + "/ddclient_" + intf + ".conf"]
  }

  lemma FilesLines(d: Dirs, intf: string)
    ensures ["pid=" + PidFile(d, intf), "cache=" + CacheFile(d, intf), "use=if, if=" + intf]
            == ["pid=" + d.run + "/ddclient_" + intf + ".pid", "cache=" + d.cache + "/ddclient_" + intf + ".cache",
                "use=if, if=" + intf]
  {
    PathText("pid=", d.run, intf, ".pid");
    PathText("cache=", d.cache, intf, ".cache");
  }

  lemma Parts(head: seq<string>, services: seq<string>)
    requires |head| == 11
    ensures (head + services)[3..6] == head[3..6] && (head + services)[6..9] == head[6..9]
    ensures (head + services)[11..] == services
  {
  }

  lemma HeadParts(d: Dirs, date: string, intf: string)
    ensures |HeadLines(d, date, intf)| == 11
    ensures HeadLines(d, date, intf)[3..6] == ["daemon=1m", "syslog=yes", "ssl=yes"]
    ensures HeadLines(d, date, intf)[6..9] == ["pid=" + PidFile(d, intf), "cache=" + CacheFile(d, intf), "use=if, if=" + intf]
  {
  }

  /**
   What ddclient finds in an interface's file: its own process and cache file, the interface,
   and each host of each service, in order, with the service's protocol, login and password,
   and its server if it has one.
   */
  lemma ConfSays(d: Dirs, date: string, intf: Interface)
    requires DirsOneLine(d) && OneLine(date) && OneLine(intf.name)
    requires forall i :: 0 <= i < |intf.services| ==> Lineless(intf.services[i])
    ensures ConfFound(d, ConfText(d, date, intf), intf)
  {
    ConfLines(d, date, intf);
    ServicesAccounts(intf.services);
    HeadParts(d, date, intf.name);
    Parts(HeadLines(d, date, intf.name), ServicesLines(intf.services));
    FilesLines(d, intf.name);
  }

  lemma PathText(key: string, dir: string, n: string, end: string)
    ensures key + (dir + "/" + "ddclient_" + n + end) == key + dir + "/ddclient_" + n + end
  {
    assert "/" + "ddclient_" == "/ddclient_";
  }

  /** The settings every file has. */
  lemma SettingsSaid(d: Dirs, date: string, intf: Interface)
    requires DirsOneLine(d) && OneLine(date) && OneLine(intf.name)
    requires forall i :: 0 <= i < |intf.services| ==> Lineless(intf.services[i])
    ensures var lines := Lines(ConfText(d, date, intf));
            |lines| >= 11 && lines[3..6] == ["daemon=1m", "syslog=yes", "ssl=yes"]
  {
    ConfLines(d, date, intf);
    HeadParts(d, date, intf.name);
    Parts(HeadLines(d, date, intf.name), ServicesLines(intf.services));
  }

  lemma EnvIsLines(d: Dirs, instance: string, intf: string)
    ensures EnvText(d, instance, intf)
            == Unlines(["#", "# autogenerated" + " by vci-service-dns", "#"]
                       + ["DDCLIENT_VRF_NAME=" + instance, "DDCLIENT_IF_CONF=" + ConfFile(d, intf)])
  {
    var note := ["#", "# autogenerated" + " by vci-service-dns", "#"];
    var vrf, conf := "DDCLIENT_VRF_NAME=" + instance, "DDCLIENT_IF_CONF=" + ConfFile(d, intf);
    NoteText(" by vci-service-dns");
    UnlinesOne(conf);
    UnlinesMore(vrf, [conf]);
    assert [vrf] + [conf] == [vrf, conf];
    UnlinesAppend(note, [vrf, conf]);
    assert "\nDDCLIENT_IF_CONF=" == "\n" + "DDCLIENT_IF_CONF=";
    EnvCut("#\n# autogenerated" + " by vci-service-dns" + "\n#\n", "DDCLIENT_VRF_NAME=", instance, "DDCLIENT_IF_CONF=", ConfFile(d, intf));
  }

  lemma EnvCut(note: string, vrfKey: string, instance: string, confKey: string, conf: string)
    ensures note + vrfKey + instance + ("\n" + confKey) + conf + "\n"
            == note + ((vrfKey + instance) + "\n" + ((confKey + conf) + "\n"))
  {
  }

  lemma EnvLines(d: Dirs, instance: string, intf: string)
    requires DirsOneLine(d) && OneLine(instance) && OneLine(intf)
    ensures Lines(EnvText(d, instance, intf))
            == ["#", "# autogenerated" + " by vci-service-dns", "#"]
               + ["DDCLIENT_VRF_NAME=" + instance, "DDCLIENT_IF_CONF=" + ConfFile(d, intf)]
  {
    EnvIsLines(d, instance, intf);
    NoteOneLine(" by vci-service-dns");
    PathsOneLine(d, intf);
    KeyedOneLine("DDCLIENT_VRF_NAME=", instance);
    KeyedOneLine("DDCLIENT_IF_CONF=", ConfFile(d, intf));
    LinesOfUnlines(["#", "# autogenerated" + " by vci-service-dns", "#"]
                   + ["DDCLIENT_VRF_NAME=" + instance, "DDCLIENT_IF_CONF=" + ConfFile(d, intf)]);
  }

  /** The environment file names the instance's VRF and the interface's configuration file. */
  lemma EnvSays(d: Dirs, instance: string, intf: string)
    requires DirsOneLine(d) && OneLine(instance) && OneLine(intf)
    ensures EnvFound(d, EnvText(d, instance, intf), instance, intf)
  {
    EnvLines(d, instance, intf);
    PathText("DDCLIENT_IF_CONF=", d.config, intf, ".conf");
  }

  /** Different interfaces have different units. */
  lemma UnitsApart(n: string, m: string)
    ensures Unit(n) == Unit(m) ==> n == m
  {
    if Unit(n) == Unit(m) {
      SameMiddle("ddclient@", ".service", n, m);
    }
  }

  lemma SetWrites(d: Dirs, instance: string, s: World, conf: seq<Interface>, date: string, t: World, n: string)
    requires Step(d, instance, s, Some(conf), date, t)
    requires var before, after := ByName(s.config), ByName(conf);
             n in after && after[n] != ZERO && (n !in before || before[n] != after[n])
    ensures ByName(conf)[n].name == n
    ensures ConfFile(d, n) in t.files && t.files[ConfFile(d, n)] == ConfText(d, date, ByName(conf)[n])
    ensures EnvFile(d, n) in t.files && t.files[EnvFile(d, n)] == EnvText(d, instance, n)
  {
    ByNameAgrees(conf);
    assert n in Changed(ByName(s.config), ByName(conf));
  }

  /** So after a `Set` every interface it added or changed has its own accounts, in its own file. */
  lemma SetSays(d: Dirs, instance: string, s: World, conf: seq<Interface>, date: string, t: World, n: string)
    requires Step(d, instance, s, Some(conf), date, t)
    requires var before, after := ByName(s.config), ByName(conf);
             n in after && after[n] != ZERO && (n !in before || before[n] != after[n])
    requires DirsOneLine(d) && OneLine(date) && OneLine(instance) && OneLine(n)
    requires forall i :: 0 <= i < |ByName(conf)[n].services| ==> Lineless(ByName(conf)[n].services[i])
    ensures ConfFile(d, n) in t.files && ConfFound(d, t.files[ConfFile(d, n)], ByName(conf)[n])
    ensures EnvFile(d, n) in t.files && EnvFound(d, t.files[EnvFile(d, n)], instance, n)
  {
    SetWrites(d, instance, s, conf, date, t, n);
    ConfSays(d, date, ByName(conf)[n]);
    EnvSays(d, instance, n);
  }
}
