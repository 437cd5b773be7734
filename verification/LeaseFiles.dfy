/**
 What the DHCP and system watchers read, and the files they derive from it
 (internal/forwarding/dhcp.go, system.go).
 */
module LeaseFiles {
  import opened Text
  import opened Provenance
  import opened DnsmasqFiles
  import opened EndToEnd

  // ------------------------------------------------------------ leases

  const LEASE_KEY := "new_domain_name_servers"
  const EQUALS_AND_SPACE: set<char> := {'=', ' '}

  /** Each field without the quotes at its ends. */
  function Unquoted(fields: seq<string>): seq<string> {
    if fields == [] then [] else [Trim(fields[0], '\'')] + Unquoted(fields[1..])
  }

  function LeaseLineServers(line: string): seq<string> {
    if Contains(line, LEASE_KEY) then Unquoted(SplitEach(line, EQUALS_AND_SPACE)[1..]) else []
  }

  function LeaseServers(lines: seq<string>): seq<string> {
    if lines == [] then [] else LeaseServers(lines[..|lines| - 1]) + LeaseLineServers(lines[|lines| - 1])
  }

  /** Adds the fields after the first to `ns`. */
  method AddServers(ns: seq<string>, fields: seq<string>) returns (all: seq<string>)
    requires fields != []
    ensures all == ns + Unquoted(fields[1..])
  {
    all := ns;
    var k := 1;
    while k < |fields|
      invariant 1 <= k <= |fields| && all + Unquoted(fields[k..]) == ns + Unquoted(fields[1..])
    {
      assert fields[k..][1..] == fields[k + 1..];
      all := all + [Trim(fields[k], '\'')];
      k := k + 1;
    }
  }

  /** `readDhcpNameservers`. */
  method ReadLease(text: string) returns (ns: seq<string>)
    ensures ns == LeaseServers(Lines(text))
  {
    ns := [];
    var lines := Lines(text);
    var n := 0;
    while n < |lines|
      invariant 0 <= n <= |lines| && ns == LeaseServers(lines[..n])
    {
      if Contains(lines[n], LEASE_KEY) {
        ns := AddServers(ns, SplitEach(lines[n], EQUALS_AND_SPACE));
      }
      assert lines[..n + 1][..n] == lines[..n];
      n := n + 1;
    }
    assert lines[..n] == lines;
  }

  // ------------------------------------------------------------ resolv.conf

  const SYSTEM_MARK := "# system added by" + " vyatta-system-nameservers"

  function SystemLineServers(line: string): seq<string> {
    if Contains(line, SYSTEM_MARK) then
      SystemLineHasTwoFields(line);
      [SplitRuns(line, BLANKS)[1]]
    else []
  }

  /** A marked line always has a second field, so the reader never indexes out of range. */
  lemma SystemLineHasTwoFields(line: string)
    requires Contains(line, SYSTEM_MARK)
    ensures |SplitRuns(line, BLANKS)| >= 2
  {
    var i :| 0 <= i <= |line| && MatchesAt(line, SYSTEM_MARK, i);
    assert line[i + 1] == line[i..i + |SYSTEM_MARK|][1] == ' ';
    assert !Free(line, BLANKS) && line[..|line|] == line;
  }

  /** A line with the mark gives its second word, whatever its first. */
  lemma MarkAnywhere(line: string, words: seq<string>, gaps: seq<string>)
    requires Apart(words, gaps, BLANKS) && line == Spaced(words, gaps)
    requires Contains(line, "# system added by" + " vyatta-system-nameservers")
    ensures |words| >= 2 && SystemLineServers(line) == [words[1]]
  {
    FieldsOfSpaced(words, gaps, BLANKS);
    SystemLineHasTwoFields(line);
  }

  function SystemFileServers(lines: seq<string>): seq<string> {
    if lines == [] then [] else SystemFileServers(lines[..|lines| - 1]) + SystemLineServers(lines[|lines| - 1])
  }

  /** `readSystemNameservers`. */
  method ReadSystem(text: string) returns (ns: seq<string>)
    ensures ns == SystemFileServers(Lines(text))
  {
    ns := [];
    var lines := Lines(text);
    var n := 0;
    while n < |lines|
      invariant 0 <= n <= |lines| && ns == SystemFileServers(lines[..n])
    {
      if Contains(lines[n], SYSTEM_MARK) {
        SystemLineHasTwoFields(lines[n]);
        ns := ns + [SplitRuns(lines[n], BLANKS)[1]];
      }
      assert lines[..n + 1][..n] == lines[..n];
      n := n + 1;
    }
    assert lines[..n] == lines;
  }

  // ------------------------------------------------------------ derived files

  /**
   Where one watcher's files are, and which reader and template it has.  The system
   watcher has one file: the one of the name "".
   */
  datatype Formats = Formats(system: bool, watchBefore: string, watchAfter: string, confBefore: string, confAfter: string)

  function WatchFile(fm: Formats, name: string): string {
    fm.watchBefore + name + fm.watchAfter
  }

  function ConfFile(fm: Formats, name: string): string {
    fm.confBefore + name + fm.confAfter
  }

  /** The name servers in a watched file. */
  function Servers(fm: Formats, text: string): seq<string> {
    if fm.system then SystemFileServers(Lines(text)) else LeaseServers(Lines(text))
  }

  /** The derived file of a watched file with this text. */
  function Derived(fm: Formats, name: string, text: string): string {
    if fm.system then WriteSystemConfig(Servers(fm, text)) else WriteDhcpConfig(name, Servers(fm, text))
  }

  /** Different names have different files. */
  lemma FilesApart(fm: Formats)
    ensures forall n, m :: WatchFile(fm, n) == WatchFile(fm, m) ==> n == m
    ensures forall n, m :: ConfFile(fm, n) == ConfFile(fm, m) ==> n == m
  {
    forall n, m | WatchFile(fm, n) == WatchFile(fm, m)
      ensures n == m
    {
      SameMiddle(fm.watchBefore, fm.watchAfter, n, m);
    }
    forall n, m | ConfFile(fm, n) == ConfFile(fm, m)
      ensures n == m
    {
      SameMiddle(fm.confBefore, fm.confAfter, n, m);
    }
  }

  // ------------------------------------------------------------ a lease read back

  /** How a DHCP client records its name servers. */
  function LeaseLine(servers: seq<string>): string {
    LEASE_KEY + "=" + ("'" + (Join(servers, " ") + "'"))
  }

  predicate LeaseName(s: string) {
    Free(s, {'=', ' ', '\'', '\n'})
  }

  lemma {:induction false} TrimEnds(s: string)
    requires Free(s, {'\''})
    ensures Trim(s, '\'') == s && Trim(s + "'", '\'') == s && Trim("'" + s, '\'') == s
    ensures Trim("'" + (s + "'"), '\'') == s
  {
  }

  lemma QuotesFree(s: string)
    requires LeaseName(s)
    ensures Free(s, EQUALS_AND_SPACE) && Free(s + "'", EQUALS_AND_SPACE)
    ensures Free("'" + s, EQUALS_AND_SPACE) && Free("'" + (s + "'"), EQUALS_AND_SPACE)
  {
  }

  lemma UnquotedFirst(first: string, rest: seq<string>)
    ensures Unquoted([first] + rest) == [Trim(first, '\'')] + Unquoted(rest)
  {
  }

  lemma LastServer(s: string)
    requires LeaseName(s)
    ensures Unquoted(SplitEach(s + "'", EQUALS_AND_SPACE)) == [s]
    ensures Unquoted(SplitEach("'" + (s + "'"), EQUALS_AND_SPACE)) == [s]
  {
    QuotesFree(s);
    TrimEnds(s);
    SplitLast(s + "'", EQUALS_AND_SPACE);
    SplitLast("'" + (s + "'"), EQUALS_AND_SPACE);
    UnquotedFirst(s + "'", []);
    UnquotedFirst("'" + (s + "'"), []);
  }

  lemma FirstServer(s: string, rest: string, servers: seq<string>)
    requires LeaseName(s) && Unquoted(SplitEach(rest, EQUALS_AND_SPACE)) == servers
    ensures Unquoted(SplitEach(s + [' '] + rest, EQUALS_AND_SPACE)) == [s] + servers
    ensures Unquoted(SplitEach(("'" + s) + [' '] + rest, EQUALS_AND_SPACE)) == [s] + servers
  {
    QuotesFree(s);
    TrimEnds(s);
    SplitEachStep(s, ' ', rest, EQUALS_AND_SPACE);
    SplitEachStep("'" + s, ' ', rest, EQUALS_AND_SPACE);
    UnquotedFirst(s, SplitEach(rest, EQUALS_AND_SPACE));
    UnquotedFirst("'" + s, SplitEach(rest, EQUALS_AND_SPACE));
  }

  lemma JoinStep(servers: seq<string>)
    requires |servers| > 1
    ensures var rest := Join(servers[1..], " ") + "'";
            && Join(servers, " ") + "'" == servers[0] + [' '] + rest
            && "'" + (Join(servers, " ") + "'") == ("'" + servers[0]) + [' '] + rest
  {
    Regroup(servers[0], Join(servers[1..], " "), "'");
  }

  lemma Regroup(s: string, t: string, quote: string)
    ensures s + " " + t + quote == s + [' '] + (t + quote)
    ensures quote + (s + " " + t + quote) == (quote + s) + [' '] + (t + quote)
  {
  }

  lemma {:induction false} TailServers(servers: seq<string>)
    requires servers != [] && forall i :: 0 <= i < |servers| ==> LeaseName(servers[i])
    ensures Unquoted(SplitEach(Join(servers, " ") + "'", EQUALS_AND_SPACE)) == servers
    ensures Unquoted(SplitEach("'" + (Join(servers, " ") + "'"), EQUALS_AND_SPACE)) == servers
  {
    if |servers| == 1 {
      LastServer(servers[0]);
    } else {
      TailServers(servers[1..]);
      JoinStep(servers);
      FirstServer(servers[0], Join(servers[1..], " ") + "'", servers[1..]);
    }
  }

  lemma KeyFree()
    ensures Free(LEASE_KEY, EQUALS_AND_SPACE)
  {
  }

  lemma MarkedLine(key: string, value: string)
    ensures Contains(key + "=" + value, key)
  {
    assert key + "=" + value == key + ("=" + value);
    PrefixContains(key, "=" + value);
  }

  lemma KeyedLineFields(key: string, value: string)
    requires Free(key, EQUALS_AND_SPACE)
    ensures SplitEach(key + "=" + value, EQUALS_AND_SPACE) == [key] + SplitEach(value, EQUALS_AND_SPACE)
  {
    assert "=" == ['='];
    SplitEachStep(key, '=', value, EQUALS_AND_SPACE);
  }

  lemma LeaseLineFields(value: string)
    ensures LeaseLineServers(LEASE_KEY + "=" + value) == Unquoted(SplitEach(value, EQUALS_AND_SPACE))
  {
    KeyFree();
    KeyedLineFields(LEASE_KEY, value);
    MarkedLine(LEASE_KEY, value);
  }

  /** A lease line reads back as its servers exactly when there are any: none reads as one empty name. */
  lemma LeaseLineRoundTrip(servers: seq<string>)
    requires forall i :: 0 <= i < |servers| ==> LeaseName(servers[i])
    ensures LeaseLineServers(LeaseLine(servers)) == servers <==> servers != []
    ensures servers == [] ==> LeaseLineServers(LeaseLine(servers)) == [""]
  {
    LeaseLineFields("'" + (Join(servers, " ") + "'"));
    if servers == [] {
      LastServer("");
      assert Join(servers, " ") + "'" == "" + "'";
    } else {
      TailServers(servers);
    }
  }

  lemma {:induction false} UnmarkedLines(a: seq<string>, b: seq<string>)
    requires forall i :: 0 <= i < |b| ==> !Contains(b[i], LEASE_KEY)
    ensures LeaseServers(a + b) == LeaseServers(a)
  {
    if b == [] {
      assert a + b == a;
    } else {
      var k := |b| - 1;
      assert (a + b)[..|a + b| - 1] == a + b[..k];
      UnmarkedLines(a, b[..k]);
    }
  }

  /** The lines of a lease: one of them gives the servers. */
  ghost predicate LeaseOf(before: seq<string>, servers: seq<string>, after: seq<string>) {
    && (forall i :: 0 <= i < |before| ==> OneLine(before[i]) && !Contains(before[i], LEASE_KEY))
    && (forall i :: 0 <= i < |after| ==> OneLine(after[i]) && !Contains(after[i], LEASE_KEY))
    && (forall i :: 0 <= i < |servers| ==> LeaseName(servers[i]))
    && servers != []
  }

  lemma {:induction false} JoinedOneLine(servers: seq<string>)
    requires forall i :: 0 <= i < |servers| ==> LeaseName(servers[i])
    ensures OneLine(Join(servers, " "))
  {
    if |servers| > 1 {
      JoinedOneLine(servers[1..]);
    }
  }

  lemma LeaseLineOneLine(servers: seq<string>)
    requires forall i :: 0 <= i < |servers| ==> LeaseName(servers[i])
    ensures OneLine(LeaseLine(servers))
  {
    JoinedOneLine(servers);
    FreeJoined(Join(servers, " "), "'", {'\n'});
    FreeJoined("'", Join(servers, " ") + "'", {'\n'});
    FreeJoined(LEASE_KEY + "=", "'" + (Join(servers, " ") + "'"), {'\n'});
  }

  /** A lease gives the name servers its one line names. */
  lemma LeaseRoundTrip(before: seq<string>, servers: seq<string>, after: seq<string>)
    requires LeaseOf(before, servers, after)
    ensures LeaseServers(Lines(Unlines(before + [LeaseLine(servers)] + after))) == servers
  {
    var line := LeaseLine(servers);
    LeaseLineOneLine(servers);
    LinesOfUnlines(before + [line] + after);
    UnmarkedLines(before + [line], after);
    UnmarkedLines([], before);
    assert [] + before == before && (before + [line])[..|before|] == before;
    LeaseLineRoundTrip(servers);
  }

  /** A line with the key anywhere gives everything after its first `=` or space, in pieces and without quotes. */
  lemma KeyAnywhere(first: string, sep: char, rest: string)
    requires Free(first, {'=', ' '}) && sep in {'=', ' '} && Contains(first + [sep] + rest, "new_domain_name_servers")
    ensures LeaseLineServers(first + [sep] + rest) == Unquoted(SplitEach(rest, {'=', ' '}))
  {
    SplitEachStep(first, sep, rest, EQUALS_AND_SPACE);
  }

  /** Several lines of servers give them all, in order. */
  lemma {:induction false} LeasesAppend(a: seq<string>, b: seq<string>)
    ensures LeaseServers(a + b) == LeaseServers(a) + LeaseServers(b)
  {
    if b == [] {
      assert a + b == a;
    } else {
      assert (a + b)[..|a + b| - 1] == a + b[..|b| - 1];
      LeasesAppend(a, b[..|b| - 1]);
    }
  }

  /**
   From the lease to what dnsmasq is told: the derived file, read as `readDnsmasqNs` reads
   it, gives the servers of the lease.
   */
  lemma LeaseToServers(fm: Formats, name: string, before: seq<string>, servers: seq<string>, after: seq<string>,
                       fs: FileSystem, fuel: nat)
    requires !fm.system && OneLine(name) && LeaseOf(before, servers, after)
    requires forall i :: 0 <= i < |servers| ==> ServerName(servers[i])
    ensures ReadDnsmasqNs(fs, Derived(fm, name, Unlines(before + [LeaseLine(servers)] + after)), fuel)
            == Read(StaticNs(servers))
  {
    LeaseRoundTrip(before, servers, after);
    GeneratedRoundTrip(fs, DhcpFile(name, servers), fuel);
  }
}
