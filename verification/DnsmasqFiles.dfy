/**
 The dnsmasq files: what the templates print (internal/forwarding/config.go,
 dhcp.go, system.go) and what `readDnsmasqNs` makes of them
 (internal/forwarding/state.go).
 */
module DnsmasqFiles {
  import opened Wrappers
  import opened Text
  import opened ForwardingData
  import opened Provenance

  // ------------------------------------------------------------ the writer

  const MANUAL := "### Note: Manual changes" + " to this file will be lost"

  /** The comments at the head of the main and system files. */
  const HEAD: seq<string> := ["### Autogenerated by vci-service-dns", MANUAL + " during", "###       the next commit."]

  /** And of the interface files. */
  const DHCP_HEAD: seq<string> := ["### Autogenerated by vci-service-dns", MANUAL + "."]

  /** The form of every server line: `server=value<TAB># comment`. */
  function ServerLine(value: string, comment: string): string {
    "server" + "=" + (value + "\t" + ("#" + " " + comment))
  }

  function KeyLine(key: string, value: string): string {
    key + "=" + value
  }

  function StaticLine(server: string): string {
    ServerLine(server, "statically" + " configured")
  }

  function OverrideLine(o: Override): string {
    ServerLine("/" + o.domain + "/" + o.server, "domain-override")
  }

  function DhcpLine(intf: string, server: string): string {
    ServerLine(server, "dhcp" + (" " + intf))
  }

  function SystemLine(server: string): string {
    ServerLine(server, "system")
  }

  function InterfaceLines(intfs: seq<string>): seq<string> {
    if intfs == [] then [] else [KeyLine("interface", intfs[0])] + InterfaceLines(intfs[1..])
  }

  function StaticLines(servers: seq<string>): seq<string> {
    if servers == [] then [] else [StaticLine(servers[0])] + StaticLines(servers[1..])
  }

  function OverrideLines(os: seq<Override>): seq<string> {
    if os == [] then [] else [OverrideLine(os[0])] + OverrideLines(os[1..])
  }

  function DhcpLines(intf: string, servers: seq<string>): seq<string> {
    if servers == [] then [] else [DhcpLine(intf, servers[0])] + DhcpLines(intf, servers[1..])
  }

  function SystemLines(servers: seq<string>): seq<string> {
    if servers == [] then [] else [SystemLine(servers[0])] + SystemLines(servers[1..])
  }

  function HeadLines(p: Paths): seq<string> {
    HEAD
    + [KeyLine("log-facility", p.stateFile),
       "no-poll",
       KeyLine("edns-packet-max", "4096")]
  }

  function TailLines(p: Paths, c: ConfigData): seq<string> {
    (if c.NsDerived() then [KeyLine("resolv-file", p.confFile)] else [])
    + ["no-hosts", KeyLine("addn-hosts", p.hostsFile)]
  }

  function ConfDirLine(p: Paths): string {
    KeyLine("conf-dir", p.confDir + "," + Join(p.confDirExt, ","))
  }

  function MainLines(p: Paths, c: ConfigData): seq<string> {
    HeadLines(p) + InterfaceLines(c.listenInterfaces) + [KeyLine("cache-size", Decimal(c.cacheSize))]
    + StaticLines(c.nameservers) + OverrideLines(c.overrides) + TailLines(p, c) + [ConfDirLine(p)]
  }

  /** The main file. */
  function WriteForwardingConfig(p: Paths, c: ConfigData): string {
    Unlines(MainLines(p, c))
  }

  /** An interface's file; nothing is written when there are no servers. */
  function WriteDhcpConfig(intf: string, servers: seq<string>): string {
    if servers == [] then ""
    else Unlines(DHCP_HEAD + DhcpLines(intf, servers))
  }

  function WriteSystemConfig(servers: seq<string>): string {
    if servers == [] then ""
    else Unlines(HEAD + SystemLines(servers))
  }

  // ------------------------------------------------------------ the reader

  const SERVER := "server="
  const CONF_DIR := "conf-dir="

  /** `Endless` is a chain of `conf-dir` files longer than the fuel. */
  datatype Reading = Read(ns: seq<DnsmasqNs>) | Panicked | Endless

  /** The files, and the names each pattern matches, in order. */
  datatype FileSystem = FileSystem(files: map<string, string>, matches: map<string, seq<string>>)

  function Then(a: Reading, b: Reading): Reading {
    if !a.Read? then a else if !b.Read? then b else Read(a.ns + b.ns)
  }

  /** A `server` line. */
  function ReadServerLine(line: string): Reading {
    var fields := SplitRuns(line, EQUALS_AND_BLANKS);
    if |fields| < 4 then Panicked
    else if fields[3] == "domain-override" then
      var domIp := SplitEach(fields[1], {'/'});
      if |domIp| < 3 then Panicked else Read([DnsmasqNs(domIp[2], domIp[1])])
    else Read([DnsmasqNs(fields[1], "")])
  }

  function ReadLine(fs: FileSystem, line: string, fuel: nat): Reading
    decreases fuel, 2
  {
    if Contains(line, SERVER) then ReadServerLine(line)
    else if Contains(line, CONF_DIR) then
      var fields := SplitRuns(line, EQUALS_AND_BLANKS);
      if |fields| < 2 then Panicked
      else
        var dirGlob := SplitEach(fields[1], {','});
        ReadGlobs(fs, dirGlob[0], dirGlob[1..], fuel)
    else Read([])
  }

  /** The names a pattern of a `conf-dir` line matches. */
  function Matched(fs: FileSystem, dir: string, glob: string): seq<string> {
    var pattern := dir + "/" + glob;
    if pattern in fs.matches then fs.matches[pattern] else []
  }

  function ReadGlobs(fs: FileSystem, dir: string, globs: seq<string>, fuel: nat): Reading
    decreases fuel, 1, |globs|
  {
    if globs == [] then Read([])
    else Then(ReadFiles(fs, Matched(fs, dir, globs[0]), fuel), ReadGlobs(fs, dir, globs[1..], fuel))
  }

  function ReadFiles(fs: FileSystem, names: seq<string>, fuel: nat): Reading
    decreases fuel, 0, |names|
  {
    if names == [] then Read([]) else Then(ReadFile(fs, names[0], fuel), ReadFiles(fs, names[1..], fuel))
  }

  /** A file that cannot be opened is passed over. */
  function ReadFile(fs: FileSystem, name: string, fuel: nat): Reading
    decreases fuel, 0, 0
  {
    if name !in fs.files then Read([])
    else if fuel == 0 then Endless
    else ReadLines(fs, Lines(fs.files[name]), fuel - 1)
  }

  function ReadLines(fs: FileSystem, lines: seq<string>, fuel: nat): Reading
    decreases fuel, 3, |lines|
  {
    if lines == [] then Read([]) else Then(ReadLine(fs, lines[0], fuel), ReadLines(fs, lines[1..], fuel))
  }

  /** `readDnsmasqNs`, to a depth of `fuel` included files. */
  function ReadDnsmasqNs(fs: FileSystem, text: string, fuel: nat): Reading {
    ReadLines(fs, Lines(text), fuel)
  }

  /**
   The depth is no part of the meaning: a reading that ends within some depth is the same
   at every greater one, so `Endless` at all depths is what is left of not ending.
   */
  lemma DepthDoesNotMatter(fs: FileSystem, text: string, fuel: nat, more: nat)
    requires fuel <= more && !ReadDnsmasqNs(fs, text, fuel).Endless?
    ensures ReadDnsmasqNs(fs, text, more) == ReadDnsmasqNs(fs, text, fuel)
  {
    LinesDeeper(fs, Lines(text), fuel, more);
  }

  lemma {:induction false} LinesDeeper(fs: FileSystem, lines: seq<string>, fuel: nat, more: nat)
    requires fuel <= more && !ReadLines(fs, lines, fuel).Endless?
    ensures ReadLines(fs, lines, more) == ReadLines(fs, lines, fuel)
    decreases fuel, 3, |lines|
  {
    if lines != [] {
      LineDeeper(fs, lines[0], fuel, more);
      if ReadLine(fs, lines[0], fuel).Read? {
        LinesDeeper(fs, lines[1..], fuel, more);
      }
    }
  }

  lemma {:induction false} LineDeeper(fs: FileSystem, line: string, fuel: nat, more: nat)
    requires fuel <= more && !ReadLine(fs, line, fuel).Endless?
    ensures ReadLine(fs, line, more) == ReadLine(fs, line, fuel)
    decreases fuel, 2
  {
    var fields := SplitRuns(line, EQUALS_AND_BLANKS);
    if !Contains(line, SERVER) && Contains(line, CONF_DIR) && |fields| >= 2 {
      var dirGlob := SplitEach(fields[1], {','});
      GlobsDeeper(fs, dirGlob[0], dirGlob[1..], fuel, more);
    }
  }

  lemma {:induction false} GlobsDeeper(fs: FileSystem, dir: string, globs: seq<string>, fuel: nat, more: nat)
    requires fuel <= more && !ReadGlobs(fs, dir, globs, fuel).Endless?
    ensures ReadGlobs(fs, dir, globs, more) == ReadGlobs(fs, dir, globs, fuel)
    decreases fuel, 1, |globs|
  {
    if globs != [] {
      var names := Matched(fs, dir, globs[0]);
      FilesDeeper(fs, names, fuel, more);
      if ReadFiles(fs, names, fuel).Read? {
        GlobsDeeper(fs, dir, globs[1..], fuel, more);
      }
    }
  }

  lemma {:induction false} FilesDeeper(fs: FileSystem, names: seq<string>, fuel: nat, more: nat)
    requires fuel <= more && !ReadFiles(fs, names, fuel).Endless?
    ensures ReadFiles(fs, names, more) == ReadFiles(fs, names, fuel)
    decreases fuel, 0, |names|
  {
    if names != [] {
      if names[0] in fs.files && fuel > 0 {
        LinesDeeper(fs, Lines(fs.files[names[0]]), fuel - 1, more - 1);
      }
      if ReadFile(fs, names[0], fuel).Read? {
        FilesDeeper(fs, names[1..], fuel, more);
      }
    }
  }

  lemma ThenIsAssociative(a: Reading, b: Reading, c: Reading)
    ensures Then(Then(a, b), c) == Then(a, Then(b, c))
    ensures Then(Read([]), a) == a
  {
  }

  lemma {:induction false} ReadLinesAppend(fs: FileSystem, a: seq<string>, b: seq<string>, fuel: nat)
    ensures ReadLines(fs, a + b, fuel) == Then(ReadLines(fs, a, fuel), ReadLines(fs, b, fuel))
  {
    if a == [] {
      assert a + b == b;
      ThenIsAssociative(ReadLines(fs, b, fuel), Read([]), Read([]));
    } else {
      assert (a + b)[1..] == a[1..] + b;
      ReadLinesAppend(fs, a[1..], b, fuel);
      ThenIsAssociative(ReadLine(fs, a[0], fuel), ReadLines(fs, a[1..], fuel), ReadLines(fs, b, fuel));
    }
  }

  lemma {:induction false} ReadFilesAppend(fs: FileSystem, a: seq<string>, b: seq<string>, fuel: nat)
    ensures ReadFiles(fs, a + b, fuel) == Then(ReadFiles(fs, a, fuel), ReadFiles(fs, b, fuel))
  {
    if a == [] {
      assert a + b == b;
      ThenIsAssociative(ReadFiles(fs, b, fuel), Read([]), Read([]));
    } else {
      assert (a + b)[1..] == a[1..] + b;
      ReadFilesAppend(fs, a[1..], b, fuel);
      ThenIsAssociative(ReadFile(fs, a[0], fuel), ReadFiles(fs, a[1..], fuel), ReadFiles(fs, b, fuel));
    }
  }

  lemma {:induction false} ReadGlobsAppend(fs: FileSystem, dir: string, a: seq<string>, b: seq<string>, fuel: nat)
    ensures ReadGlobs(fs, dir, a + b, fuel) == Then(ReadGlobs(fs, dir, a, fuel), ReadGlobs(fs, dir, b, fuel))
  {
    if a == [] {
      assert a + b == b;
      ThenIsAssociative(ReadGlobs(fs, dir, b, fuel), Read([]), Read([]));
    } else {
      assert (a + b)[1..] == a[1..] + b;
      ReadGlobsAppend(fs, dir, a[1..], b, fuel);
      ThenIsAssociative(ReadFiles(fs, Matched(fs, dir, a[0]), fuel), ReadGlobs(fs, dir, a[1..], fuel),
                        ReadGlobs(fs, dir, b, fuel));
    }
  }

  // ------------------------------------------------------------ server lines

  predicate Word(s: string) {
    Free(s, EQUALS_AND_BLANKS)
  }

  /** A name server that can be written and read back. */
  predicate ServerName(s: string) {
    s != "" && Word(s)
  }

  predicate OverrideName(o: Override) {
    Word(o.domain) && Word(o.server) && Free(o.domain, {'/'}) && Free(o.server, {'/'})
  }

  lemma KeywordField(rest: string)
    requires rest != "" && rest[0] !in EQUALS_AND_BLANKS
    ensures SplitRuns("server" + "=" + rest, EQUALS_AND_BLANKS) == ["server"] + SplitRuns(rest, EQUALS_AND_BLANKS)
  {
    SplitStep("server", "=", rest, EQUALS_AND_BLANKS);
  }

  lemma ValueField(value: string, rest: string)
    requires Word(value) && rest != "" && rest[0] !in EQUALS_AND_BLANKS
    ensures SplitRuns(value + "\t" + rest, EQUALS_AND_BLANKS) == [value] + SplitRuns(rest, EQUALS_AND_BLANKS)
  {
    SplitStep(value, "\t", rest, EQUALS_AND_BLANKS);
  }

  lemma CommentField(rest: string)
    requires rest != "" && rest[0] !in EQUALS_AND_BLANKS
    ensures SplitRuns("#" + " " + rest, EQUALS_AND_BLANKS) == ["#"] + SplitRuns(rest, EQUALS_AND_BLANKS)
  {
    SplitStep("#", " ", rest, EQUALS_AND_BLANKS);
  }

  lemma LineFields(value: string, comment: string)
    requires value != "" && Word(value) && comment != "" && comment[0] !in EQUALS_AND_BLANKS
    ensures SplitRuns("server" + "=" + (value + "\t" + ("#" + " " + comment)), EQUALS_AND_BLANKS)
            == ["server"] + ([value] + (["#"] + SplitRuns(comment, EQUALS_AND_BLANKS)))
  {
    var note := "#" + " " + comment;
    CommentField(comment);
    assert note[0] == '#';
    ValueField(value, note);
    var rest := value + "\t" + note;
    assert rest[0] == value[0];
    KeywordField(rest);
  }

  lemma KeywordWord()
    ensures Word("server") && Within("=", EQUALS_AND_BLANKS)
  {
  }

  lemma NamelessFields(gap: string, comment: string)
    requires Within(gap, EQUALS_AND_BLANKS)
    requires comment != "" && comment[0] !in EQUALS_AND_BLANKS
    ensures SplitRuns("server" + "=" + (gap + ("#" + " " + comment)), EQUALS_AND_BLANKS)
            == ["server"] + (["#"] + SplitRuns(comment, EQUALS_AND_BLANKS))
  {
    var note := "#" + " " + comment;
    CommentField(comment);
    assert note[0] == '#';
    KeywordWord();
    SplitOverTwoGaps("server", "=", gap, note, EQUALS_AND_BLANKS);
  }

  /** The fields of a server line; without a value the comment sign takes its place. */
  lemma ServerFields(value: string, comment: string)
    requires Word(value) && comment != "" && comment[0] !in EQUALS_AND_BLANKS
    ensures SplitRuns(ServerLine(value, comment), EQUALS_AND_BLANKS)
            == ["server"] + ((if value == "" then [] else [value]) + (["#"] + SplitRuns(comment, EQUALS_AND_BLANKS)))
  {
    if value == "" {
      NamelessFields("" + "\t", comment);
    } else {
      LineFields(value, comment);
    }
  }

  /** Whatever a server line says, it is one server, in words. */
  lemma ServerLineWords(line: string)
    requires ReadServerLine(line).Read?
    ensures var r := ReadServerLine(line).ns;
            |r| == 1 && Word(r[0].server) && Word(r[0].domain)
  {
    var fields := SplitRuns(line, EQUALS_AND_BLANKS);
    FieldsFree(line, EQUALS_AND_BLANKS);
    PiecesStayFree(fields[1], {'/'}, EQUALS_AND_BLANKS);
  }

  /** A server line whose comment starts with a word other than `domain-override` is a plain server. */
  lemma PlainLine(value: string, tag: string, more: string)
    requires ServerName(value) && tag != "" && Word(tag) && tag != "domain-override"
    requires more == "" || more[0] in EQUALS_AND_BLANKS
    ensures ReadServerLine(ServerLine(value, tag + more)) == Read([DnsmasqNs(value, "")])
  {
    ServerFields(value, tag + more);
    FirstField(tag, more, EQUALS_AND_BLANKS);
  }

  /** A static name server survives writing and reading exactly when it is one non-empty word. */
  lemma StaticLineRoundTrip(server: string)
    ensures ReadServerLine(StaticLine(server)) == Read([DnsmasqNs(server, "")]) <==> ServerName(server)
  {
    var tag, more := "statically", " configured";
    if ServerName(server) {
      PlainLine(server, tag, more);
    } else if Word(server) {
      ServerFields("", tag + more);
      assert SplitRuns(StaticLine(server), EQUALS_AND_BLANKS)[1] == "#";
      SplitLast("#", {'/'});
    } else if ReadServerLine(StaticLine(server)).Read? {
      ServerLineWords(StaticLine(server));
    }
  }

  /** A domain and a server without slashes come apart again. */
  lemma OverrideParts(domain: string, server: string)
    requires Free(domain, {'/'}) && Free(server, {'/'})
    ensures SplitEach("/" + domain + "/" + server, {'/'}) == ["", domain, server]
  {
    assert "/" + domain + "/" + server == "" + ['/'] + (domain + ['/'] + server);
    SplitEachStep("", '/', domain + ['/'] + server, {'/'});
    SplitEachStep(domain, '/', server, {'/'});
    SplitLast(server, {'/'});
  }

  /** A domain override survives exactly when domain and server are words without slashes. */
  lemma OverrideLineRoundTrip(o: Override)
    ensures ReadServerLine(OverrideLine(o)) == Read([DnsmasqNs(o.server, o.domain)]) <==> OverrideName(o)
  {
    if ReadServerLine(OverrideLine(o)).Read? {
      ServerLineWords(OverrideLine(o));
    }
    if Word(o.domain) && Word(o.server) {
      OverrideFields(o);
      FieldsFree("/" + o.domain + "/" + o.server, {'/'});
      if OverrideName(o) {
        OverrideParts(o.domain, o.server);
      }
    }
  }

  lemma OneWordComment(value: string, comment: string)
    requires ServerName(value) && comment != "" && Word(comment)
    ensures var fields := SplitRuns(ServerLine(value, comment), EQUALS_AND_BLANKS);
            |fields| == 4 && fields[1] == value && fields[3] == comment
  {
    ServerFields(value, comment);
    SplitLast(comment, EQUALS_AND_BLANKS);
  }

  lemma SlashedWord(domain: string, server: string)
    requires Word(domain) && Word(server)
    ensures Word("/" + domain + "/" + server)
  {
  }

  lemma OverrideFields(o: Override)
    requires Word(o.domain) && Word(o.server)
    ensures var fields := SplitRuns(OverrideLine(o), EQUALS_AND_BLANKS);
            |fields| == 4 && fields[1] == "/" + o.domain + "/" + o.server && fields[3] == "domain-override"
  {
    var value := "/" + o.domain + "/" + o.server;
    SlashedWord(o.domain, o.server);
    OneWordComment(value, "domain-override");
  }

  // ------------------------------------------------------------ other lines

  /** The reader passes over this text wherever it is. */
  predicate Quiet(s: string) {
    !Contains(s, SERVER) && !Contains(s, CONF_DIR)
  }

  predicate OneLine(s: string) {
    Free(s, {'\n'})
  }

  /** A path or interface name that puts nothing of its own into the file. */
  predicate Harmless(s: string) {
    Quiet(s) && OneLine(s)
  }

  predicate QuietKey(key: string) {
    Free(key, {'=', '\n'}) && EndsDifferently(key, SERVER) && EndsDifferently(key, CONF_DIR)
  }

  lemma NoEqualsQuiet(s: string)
    requires Free(s, {'='})
    ensures Quiet(s)
  {
    NoEqualsNoMarker(s, SERVER);
    NoEqualsNoMarker(s, CONF_DIR);
  }

  lemma MarkersFree()
    ensures Free(SERVER[..|SERVER| - 1], {'='}) && Free(CONF_DIR[..|CONF_DIR| - 1], {'='})
  {
  }

  lemma KeyLineHarmless(key: string, value: string)
    requires QuietKey(key) && Harmless(value)
    ensures Harmless(KeyLine(key, value))
  {
    MarkersFree();
    assert Free(key, {'='});
    if Contains(KeyLine(key, value), SERVER) {
      MarkerInValue(key, value, SERVER);
    }
    if Contains(KeyLine(key, value), CONF_DIR) {
      MarkerInValue(key, value, CONF_DIR);
    }
    FreeJoined(key + "=", value, {'\n'});
    FreeJoined(key, "=", {'\n'});
  }

  lemma Keys()
    ensures QuietKey("log-facility") && QuietKey("edns-packet-max") && QuietKey("interface")
    ensures QuietKey("cache-size") && QuietKey("resolv-file") && QuietKey("addn-hosts")
  {
  }

  lemma {:induction false} QuietLines(fs: FileSystem, lines: seq<string>, fuel: nat)
    requires forall i :: 0 <= i < |lines| ==> Quiet(lines[i])
    ensures ReadLines(fs, lines, fuel) == Read([])
  {
    if lines != [] {
      QuietLines(fs, lines[1..], fuel);
    }
  }

  // ------------------------------------------------------------ blocks of lines

  /** These lines, each on its own, read as `ns`, however deep the reader may go. */
  ghost predicate Block(fs: FileSystem, lines: seq<string>, ns: seq<DnsmasqNs>) {
    && (forall i :: 0 <= i < |lines| ==> OneLine(lines[i]))
    && (forall fuel: nat :: ReadLines(fs, lines, fuel) == Read(ns))
  }

  lemma BlockAppend(fs: FileSystem, a: seq<string>, na: seq<DnsmasqNs>, b: seq<string>, nb: seq<DnsmasqNs>)
    requires Block(fs, a, na) && Block(fs, b, nb)
    ensures Block(fs, a + b, na + nb)
  {
    forall fuel: nat {
      ReadLinesAppend(fs, a, b, fuel);
    }
  }

  lemma HarmlessBlock(fs: FileSystem, lines: seq<string>)
    requires forall i :: 0 <= i < |lines| ==> Harmless(lines[i])
    ensures Block(fs, lines, [])
  {
    forall fuel: nat {
      QuietLines(fs, lines, fuel);
    }
  }

  lemma ServerLineOneLine(value: string, comment: string)
    requires OneLine(value) && OneLine(comment)
    ensures OneLine(ServerLine(value, comment))
  {
  }

  lemma ServerLineMarked(value: string, comment: string)
    ensures Contains(ServerLine(value, comment), SERVER)
  {
    assert "server" + "=" == SERVER;
    PrefixContains(SERVER, value + "\t" + ("#" + " " + comment));
  }

  lemma ServerBlock(fs: FileSystem, value: string, comment: string, n: DnsmasqNs)
    requires ReadServerLine(ServerLine(value, comment)) == Read([n])
    requires OneLine(value) && OneLine(comment)
    ensures Block(fs, [ServerLine(value, comment)], [n])
  {
    var line := ServerLine(value, comment);
    ServerLineOneLine(value, comment);
    ServerLineMarked(value, comment);
    forall fuel: nat
      ensures ReadLines(fs, [line], fuel) == Read([n])
    {
      assert ReadLine(fs, line, fuel) == Read([n]);
      assert [line][1..] == [];
    }
  }

  function StaticNs(servers: seq<string>): seq<DnsmasqNs> {
    if servers == [] then [] else [DnsmasqNs(servers[0], "")] + StaticNs(servers[1..])
  }

  function OverrideNs(os: seq<Override>): seq<DnsmasqNs> {
    if os == [] then [] else [DnsmasqNs(os[0].server, os[0].domain)] + OverrideNs(os[1..])
  }

  lemma WordOneLine(s: string)
    requires Word(s)
    ensures OneLine(s)
  {
  }

  lemma {:induction false} StaticBlock(fs: FileSystem, servers: seq<string>)
    requires forall i :: 0 <= i < |servers| ==> ServerName(servers[i])
    ensures Block(fs, StaticLines(servers), StaticNs(servers))
  {
    if servers != [] {
      StaticLineRoundTrip(servers[0]);
      WordOneLine(servers[0]);
      ServerBlock(fs, servers[0], "statically" + " configured", DnsmasqNs(servers[0], ""));
      StaticBlock(fs, servers[1..]);
      BlockAppend(fs, [StaticLine(servers[0])], [DnsmasqNs(servers[0], "")],
                  StaticLines(servers[1..]), StaticNs(servers[1..]));
    }
  }

  lemma {:induction false} OverrideBlock(fs: FileSystem, os: seq<Override>)
    requires forall i :: 0 <= i < |os| ==> OverrideName(os[i])
    ensures Block(fs, OverrideLines(os), OverrideNs(os))
  {
    if os != [] {
      OverrideLineRoundTrip(os[0]);
      SlashedWord(os[0].domain, os[0].server);
      WordOneLine("/" + os[0].domain + "/" + os[0].server);
      ServerBlock(fs, "/" + os[0].domain + "/" + os[0].server, "domain-override",
                  DnsmasqNs(os[0].server, os[0].domain));
      OverrideBlock(fs, os[1..]);
      BlockAppend(fs, [OverrideLine(os[0])], [DnsmasqNs(os[0].server, os[0].domain)],
                  OverrideLines(os[1..]), OverrideNs(os[1..]));
    }
  }

  lemma {:induction false} DhcpBlock(fs: FileSystem, intf: string, servers: seq<string>)
    requires OneLine(intf) && forall i :: 0 <= i < |servers| ==> ServerName(servers[i])
    ensures Block(fs, DhcpLines(intf, servers), StaticNs(servers))
  {
    if servers != [] {
      PlainLine(servers[0], "dhcp", " " + intf);
      WordOneLine(servers[0]);
      FreeJoined(" ", intf, {'\n'});
      FreeJoined("dhcp", " " + intf, {'\n'});
      ServerBlock(fs, servers[0], "dhcp" + (" " + intf), DnsmasqNs(servers[0], ""));
      DhcpBlock(fs, intf, servers[1..]);
      BlockAppend(fs, [DhcpLine(intf, servers[0])], [DnsmasqNs(servers[0], "")],
                  DhcpLines(intf, servers[1..]), StaticNs(servers[1..]));
    }
  }

  lemma {:induction false} SystemBlock(fs: FileSystem, servers: seq<string>)
    requires forall i :: 0 <= i < |servers| ==> ServerName(servers[i])
    ensures Block(fs, SystemLines(servers), StaticNs(servers))
  {
    if servers != [] {
      PlainLine(servers[0], "system", "");
      assert "system" + "" == "system";
      WordOneLine(servers[0]);
      ServerBlock(fs, servers[0], "system", DnsmasqNs(servers[0], ""));
      SystemBlock(fs, servers[1..]);
      BlockAppend(fs, [SystemLine(servers[0])], [DnsmasqNs(servers[0], "")],
                  SystemLines(servers[1..]), StaticNs(servers[1..]));
    }
  }

  lemma {:induction false} InterfaceBlock(fs: FileSystem, intfs: seq<string>)
    requires forall i :: 0 <= i < |intfs| ==> Harmless(intfs[i])
    ensures Block(fs, InterfaceLines(intfs), [])
  {
    if intfs != [] {
      Keys();
      KeyLineHarmless("interface", intfs[0]);
      HarmlessBlock(fs, [KeyLine("interface", intfs[0])]);
      InterfaceBlock(fs, intfs[1..]);
      BlockAppend(fs, [KeyLine("interface", intfs[0])], [], InterfaceLines(intfs[1..]), []);
    }
  }

  // ------------------------------------------------------------ whole files

  predicate PathsReadable(p: Paths) {
    && Harmless(p.stateFile) && Harmless(p.hostsFile) && Harmless(p.confFile)
    && Word(p.confDir) && Free(p.confDir, {','})
    && forall i :: 0 <= i < |p.confDirExt| ==> Word(p.confDirExt[i]) && Free(p.confDirExt[i], {','})
  }

  predicate ConfigReadable(c: ConfigData) {
    && (forall i :: 0 <= i < |c.listenInterfaces| ==> Harmless(c.listenInterfaces[i]))
    && (forall i :: 0 <= i < |c.nameservers| ==> ServerName(c.nameservers[i]))
    && (forall i :: 0 <= i < |c.overrides| ==> OverrideName(c.overrides[i]))
  }

  /** What the main file itself configures. */
  function ConfiguredNs(c: ConfigData): seq<DnsmasqNs> {
    StaticNs(c.nameservers) + OverrideNs(c.overrides)
  }

  /** The patterns the main file names; without an extension it names the directory. */
  function Globs(p: Paths): seq<string> {
    if p.confDirExt == [] then [""] else p.confDirExt
  }

  lemma HeadBlock(fs: FileSystem, p: Paths)
    requires PathsReadable(p)
    ensures Block(fs, HeadLines(p), [])
  {
    Keys();
    KeyLineHarmless("log-facility", p.stateFile);
    NoEqualsQuiet("4096");
    KeyLineHarmless("edns-packet-max", "4096");
    Constants();
    var rest := [KeyLine("log-facility", p.stateFile), "no-poll", KeyLine("edns-packet-max", "4096")];
    HarmlessBlock(fs, rest);
    CommentBlocks(fs);
    BlockAppend(fs, HEAD, [], rest, []);
  }

  lemma Constants()
    ensures Harmless("### Autogenerated by vci-service-dns")
    ensures Harmless(MANUAL + " during") && Harmless(MANUAL + ".")
    ensures Harmless("###       the next commit.")
    ensures Harmless("no-poll") && Harmless("no-hosts")
  {
    FewerCharacters("### Autogenerated by vci-service-dns");
    FewerCharacters("###       the next commit.");
    FewerCharacters("no-poll");
    FewerCharacters("no-hosts");
    ManualNotes();
  }

  lemma CommentBlocks(fs: FileSystem)
    ensures Block(fs, HEAD, []) && Block(fs, DHCP_HEAD, [])
  {
    Constants();
    HarmlessBlock(fs, HEAD);
    HarmlessBlock(fs, DHCP_HEAD);
  }

  lemma ManualNotes()
    ensures Harmless(MANUAL + " during") && Harmless(MANUAL + ".")
  {
    var first, second := "### Note: Manual changes", " to this file will be lost";
    assert Free(first, {'=', '\n'}) && Free(second, {'=', '\n'});
    JoinedCharacters(first, second, " during");
    JoinedCharacters(first, second, ".");
  }

  lemma JoinedCharacters(a: string, b: string, c: string)
    requires Free(a, {'=', '\n'}) && Free(b, {'=', '\n'}) && Free(c, {'=', '\n'})
    ensures Harmless(a + b + c)
  {
    FreeJoined(a, b, {'=', '\n'});
    FreeJoined(a + b, c, {'=', '\n'});
    FewerCharacters(a + b + c);
  }

  lemma FewerCharacters(s: string)
    requires Free(s, {'=', '\n'})
    ensures Harmless(s)
  {
    assert Free(s, {'='});
    NoEqualsQuiet(s);
  }

  lemma TailBlock(fs: FileSystem, p: Paths, c: ConfigData)
    requires PathsReadable(p)
    ensures Block(fs, TailLines(p, c), [])
  {
    Keys();
    KeyLineHarmless("resolv-file", p.confFile);
    KeyLineHarmless("addn-hosts", p.hostsFile);
    Constants();
    HarmlessBlock(fs, TailLines(p, c));
  }

  lemma CacheBlock(fs: FileSystem, n: nat)
    ensures Block(fs, [KeyLine("cache-size", Decimal(n))], [])
  {
    Keys();
    NoEqualsQuiet(Decimal(n));
    KeyLineHarmless("cache-size", Decimal(n));
    HarmlessBlock(fs, [KeyLine("cache-size", Decimal(n))]);
  }

  lemma {:induction false} JoinedWords(parts: seq<string>)
    requires forall i :: 0 <= i < |parts| ==> Word(parts[i]) && Free(parts[i], {','})
    ensures Word(Join(parts, ","))
    ensures SplitEach(Join(parts, ","), {','}) == if parts == [] then [""] else parts
  {
    if parts == [] {
      SplitLast("", {','});
    } else if |parts| == 1 {
      SplitLast(parts[0], {','});
    } else {
      JoinedWords(parts[1..]);
      FreeJoined(parts[0] + ",", Join(parts[1..], ","), EQUALS_AND_BLANKS);
      FreeJoined(parts[0], ",", EQUALS_AND_BLANKS);
      SplitEachStep(parts[0], ',', Join(parts[1..], ","), {','});
    }
  }

  lemma ConfDirFields(value: string)
    requires Word(value) && value != ""
    ensures SplitRuns("conf-dir" + "=" + value, EQUALS_AND_BLANKS) == ["conf-dir"] + [value]
  {
    SplitStep("conf-dir", "=", value, EQUALS_AND_BLANKS);
    SplitLast(value, EQUALS_AND_BLANKS);
  }

  lemma ConfDirMarker(value: string)
    requires Word(value)
    ensures !Contains(KeyLine("conf-dir", value), SERVER) && Contains(KeyLine("conf-dir", value), CONF_DIR)
  {
    assert "conf-dir" + "=" == CONF_DIR;
    PrefixContains(CONF_DIR, value);
    MarkersFree();
    NoEqualsQuiet(value);
    if Contains(KeyLine("conf-dir", value), SERVER) {
      MarkerInValue("conf-dir", value, SERVER);
    }
  }

  /** The value of the conf-dir line, and the pieces it is cut into. */
  lemma ConfDirValue(p: Paths)
    requires PathsReadable(p)
    ensures var value := p.confDir + "," + Join(p.confDirExt, ",");
            Word(value) && SplitEach(value, {','}) == [p.confDir] + Globs(p)
  {
    var exts := Join(p.confDirExt, ",");
    JoinedWords(p.confDirExt);
    FreeJoined(p.confDir + ",", exts, EQUALS_AND_BLANKS);
    FreeJoined(p.confDir, ",", EQUALS_AND_BLANKS);
    SplitEachStep(p.confDir, ',', exts, {','});
  }

  lemma ConfDirLineReads(fs: FileSystem, value: string, fuel: nat)
    requires Word(value) && value != ""
    ensures OneLine(KeyLine("conf-dir", value))
    ensures var dirGlob := SplitEach(value, {','});
            ReadLine(fs, KeyLine("conf-dir", value), fuel) == ReadGlobs(fs, dirGlob[0], dirGlob[1..], fuel)
  {
    ConfDirMarker(value);
    ConfDirFields(value);
    WordOneLine(value);
    FreeJoined("conf-dir" + "=", value, {'\n'});
  }

  lemma ConfDirReads(fs: FileSystem, p: Paths, fuel: nat)
    requires PathsReadable(p)
    ensures OneLine(ConfDirLine(p))
    ensures ReadLine(fs, ConfDirLine(p), fuel) == ReadGlobs(fs, p.confDir, Globs(p), fuel)
  {
    ConfDirValue(p);
    ConfDirLineReads(fs, p.confDir + "," + Join(p.confDirExt, ","), fuel);
  }

  /** Three blocks without servers. */
  lemma QuietBlocks(fs: FileSystem, a: seq<string>, b: seq<string>, c: seq<string>)
    requires Block(fs, a, []) && Block(fs, b, []) && Block(fs, c, [])
    ensures Block(fs, a + b + c, [])
  {
    BlockAppend(fs, a, [], b, []);
    BlockAppend(fs, a + b, [], c, []);
  }

  /** Blocks of servers between blocks without. */
  lemma ServerBlocks(fs: FileSystem, front: seq<string>, a: seq<string>, an: seq<DnsmasqNs>,
                     b: seq<string>, bn: seq<DnsmasqNs>, end: seq<string>)
    requires Block(fs, front, []) && Block(fs, a, an) && Block(fs, b, bn) && Block(fs, end, [])
    ensures Block(fs, front + a + b + end, an + bn)
  {
    BlockAppend(fs, front, [], a, an);
    BlockAppend(fs, front + a, [] + an, b, bn);
    BlockAppend(fs, front + a + b, [] + an + bn, end, []);
    assert [] + an + bn + [] == an + bn;
  }

  lemma WithoutLast(lines: seq<string>, last: string)
    ensures (lines + [last])[..|lines + [last]| - 1] == lines
  {
  }

  /** The main file without its last line. */
  lemma MainBlock(fs: FileSystem, p: Paths, c: ConfigData)
    requires PathsReadable(p) && ConfigReadable(c)
    ensures Block(fs, MainLines(p, c)[..|MainLines(p, c)| - 1], ConfiguredNs(c))
  {
    var head, intfs, cache := HeadLines(p), InterfaceLines(c.listenInterfaces), [KeyLine("cache-size", Decimal(c.cacheSize))];
    var statics, overrides, tail := StaticLines(c.nameservers), OverrideLines(c.overrides), TailLines(p, c);
    HeadBlock(fs, p);
    InterfaceBlock(fs, c.listenInterfaces);
    CacheBlock(fs, c.cacheSize);
    StaticBlock(fs, c.nameservers);
    OverrideBlock(fs, c.overrides);
    TailBlock(fs, p, c);
    QuietBlocks(fs, head, intfs, cache);
    ServerBlocks(fs, head + intfs + cache, statics, StaticNs(c.nameservers), overrides, OverrideNs(c.overrides), tail);
    WithoutLast(head + intfs + cache + statics + overrides + tail, ConfDirLine(p));
  }

  lemma FileReads(fs: FileSystem, lines: seq<string>, ns: seq<DnsmasqNs>, last: string, fuel: nat)
    requires Block(fs, lines, ns) && OneLine(last)
    ensures ReadDnsmasqNs(fs, Unlines(lines + [last]), fuel) == Then(Read(ns), ReadLine(fs, last, fuel))
  {
    LinesOfUnlines(lines + [last]);
    ReadLinesAppend(fs, lines, [last], fuel);
    assert [last][1..] == [];
  }

  /**
   Reading the main file back gives its static name servers and its overrides, in order,
   followed by whatever the files its `conf-dir` line matches hold.
   */
  lemma MainFileRoundTrip(fs: FileSystem, p: Paths, c: ConfigData, fuel: nat)
    requires PathsReadable(p) && ConfigReadable(c)
    ensures ReadDnsmasqNs(fs, WriteForwardingConfig(p, c), fuel)
            == Then(Read(ConfiguredNs(c)), ReadGlobs(fs, p.confDir, Globs(p), fuel))
  {
    var lines := MainLines(p, c);
    var n := |lines| - 1;
    MainBlock(fs, p, c);
    ConfDirReads(fs, p, fuel);
    FileReads(fs, lines[..n], ConfiguredNs(c), ConfDirLine(p), fuel);
    assert lines == lines[..n] + [ConfDirLine(p)];
  }
}
