/**
 resolv.conf, read twice: all its name servers for the operational state
 (internal/forwarding/state.go), the marked ones for dnsmasq (internal/forwarding/system.go).
 */
module ResolvFiles {
  import opened Wrappers
  import opened Text
  import opened DnsmasqFiles
  import opened EndToEnd
  import opened LeaseFiles
  import opened Statistics

  /** A name server, `system` saying that the system name-server component added it, or any other line. */
  datatype Entry = Server(gap: string, server: string, system: bool) | Other(text: string)

  function EntryLine(e: Entry): string {
    match e
    case Server(gap, server, system) => "nameserver" + gap + (if system then server + " " + SYSTEM_MARK else server)
    case Other(text) => text
  }

  function EntryLines(es: seq<Entry>): seq<string> {
    if es == [] then [] else EntryLines(es[..|es| - 1]) + [EntryLine(es[|es| - 1])]
  }

  function AllServers(es: seq<Entry>): seq<string> {
    if es == [] then []
    else AllServers(es[..|es| - 1]) + if es[|es| - 1].Server? then [es[|es| - 1].server] else []
  }

  predicate Marked(e: Entry) {
    e.Server? && e.system
  }

  function MarkedServers(es: seq<Entry>): seq<string> {
    if es == [] then []
    else MarkedServers(es[..|es| - 1]) + if Marked(es[|es| - 1]) then [es[|es| - 1].server] else []
  }

  /** The keyword, blanks and one word; another line has neither the keyword first nor the mark. */
  predicate GoodEntry(e: Entry) {
    match e
    case Server(gap, server, _) =>
      gap != "" && Within(gap, BLANKS) && Free(gap, {'\n'}) && server != "" && Free(server, BLANKS)
    case Other(text) =>
      !("nameserver" <= text) && !Contains(text, SYSTEM_MARK) && OneLine(text)
  }

  predicate GoodEntries(es: seq<Entry>) {
    forall i :: 0 <= i < |es| ==> GoodEntry(es[i])
  }

  lemma KeywordFree()
    ensures Free("nameserver", BLANKS)
  {
  }

  /** The second field of an entry is its server. */
  lemma EntryFields(e: Entry)
    requires GoodEntry(e) && e.Server?
    ensures |Fields(EntryLine(e))| >= 2 && Fields(EntryLine(e))[1] == e.server
  {
    KeywordFree();
    var rest := if e.system then e.server + " " + SYSTEM_MARK else e.server;
    assert rest[0] == e.server[0];
    SplitStep("nameserver", e.gap, rest, BLANKS);
    if e.system {
      SplitStep(e.server, " ", SYSTEM_MARK, BLANKS);
    } else {
      SplitLast(e.server, BLANKS);
    }
  }

  /** No `#` is followed by a space. */
  predicate NoComment(s: string) {
    forall i :: 0 <= i < |s| - 1 && s[i] == '#' ==> s[i + 1] != ' '
  }

  lemma MarkStarts(s: string, i: nat)
    requires MatchesAt(s, SYSTEM_MARK, i)
    ensures i + 1 < |s| && s[i] == '#' && s[i + 1] == ' '
  {
    assert s[i] == s[i..i + |SYSTEM_MARK|][0] && s[i + 1] == s[i..i + |SYSTEM_MARK|][1];
  }

  lemma MarkIsComment(s: string)
    ensures Contains(s, SYSTEM_MARK) ==> !NoComment(s)
  {
    if Contains(s, SYSTEM_MARK) {
      var i :| 0 <= i <= |s| && MatchesAt(s, SYSTEM_MARK, i);
      MarkStarts(s, i);
    }
  }

  lemma KeywordNoSharp()
    ensures Free("nameserver", {'#'})
  {
  }

  lemma CommentLater(pre: string, s: string)
    requires Free(pre, {'#'}) && NoComment(s)
    ensures NoComment(pre + s)
  {
    assert forall i :: |pre| <= i < |pre + s| ==> (pre + s)[i] == s[i - |pre|];
    assert forall i :: 0 <= i < |pre| ==> (pre + s)[i] == pre[i];
  }

  lemma UnmarkedEntry(e: Entry)
    requires GoodEntry(e) && !Marked(e)
    ensures !Contains(EntryLine(e), SYSTEM_MARK)
  {
    if e.Server? {
      KeywordNoSharp();
      FreeJoined("nameserver", e.gap, {'#'});
      CommentLater("nameserver" + e.gap, e.server);
      MarkIsComment(EntryLine(e));
    }
  }

  lemma MarkedEntry(e: Entry)
    requires Marked(e)
    ensures Contains(EntryLine(e), SYSTEM_MARK)
  {
    var pre := "nameserver" + e.gap + (e.server + " ");
    assert EntryLine(e) == pre + SYSTEM_MARK;
    assert (pre + SYSTEM_MARK)[|pre|..|pre| + |SYSTEM_MARK|] == SYSTEM_MARK;
    assert MatchesAt(pre + SYSTEM_MARK, SYSTEM_MARK, |pre|);
  }

  /** The operational state sees every name server, in order. */
  lemma {:induction false} ResolvRoundTrip(es: seq<Entry>)
    requires GoodEntries(es)
    ensures ResolvServers(EntryLines(es)) == Value(AllServers(es))
  {
    if es != [] {
      var pre, e := es[..|es| - 1], es[|es| - 1];
      ResolvRoundTrip(pre);
      assert EntryLines(es)[..|EntryLines(es)| - 1] == EntryLines(pre);
      if e.Server? {
        EntryFields(e);
        assert "nameserver" <= EntryLine(e);
      } else {
        assert AllServers(es) == AllServers(pre) + [] == AllServers(pre);
      }
    }
  }

  /** dnsmasq is given those the system component added, in order. */
  lemma {:induction false} SystemRoundTrip(es: seq<Entry>)
    requires GoodEntries(es)
    ensures SystemFileServers(EntryLines(es)) == MarkedServers(es)
  {
    if es != [] {
      var pre, e := es[..|es| - 1], es[|es| - 1];
      SystemRoundTrip(pre);
      assert EntryLines(es)[..|EntryLines(es)| - 1] == EntryLines(pre);
      if Marked(e) {
        MarkedEntry(e);
        EntryFields(e);
      } else {
        UnmarkedEntry(e);
      }
    }
  }

  lemma MarkOneLine()
    ensures OneLine(SYSTEM_MARK)
  {
  }

  lemma EntryOneLine(e: Entry)
    requires GoodEntry(e)
    ensures OneLine(EntryLine(e))
  {
    if e.Server? {
      MarkOneLine();
      FreeJoined(e.server + " ", SYSTEM_MARK, {'\n'});
      FreeJoined(e.server, " ", {'\n'});
      FreeJoined("nameserver" + e.gap, if e.system then e.server + " " + SYSTEM_MARK else e.server, {'\n'});
      FreeJoined("nameserver", e.gap, {'\n'});
    }
  }

  lemma {:induction false} EntriesOneLine(es: seq<Entry>)
    requires GoodEntries(es)
    ensures forall i :: 0 <= i < |EntryLines(es)| ==> OneLine(EntryLines(es)[i])
  {
    if es != [] {
      EntriesOneLine(es[..|es| - 1]);
      EntryOneLine(es[|es| - 1]);
    }
  }

  /** The marked servers can be written and read back. */
  predicate MarkedReadable(es: seq<Entry>) {
    forall i :: 0 <= i < |es| && Marked(es[i]) ==> ServerName(es[i].server)
  }

  lemma {:induction false} MarkedAreServers(es: seq<Entry>)
    requires MarkedReadable(es)
    ensures forall i :: 0 <= i < |MarkedServers(es)| ==> ServerName(MarkedServers(es)[i])
  {
    if es != [] {
      MarkedAreServers(es[..|es| - 1]);
    }
  }

  /** From resolv.conf to what dnsmasq is told: the derived file reads as the servers the system component added. */
  lemma SystemToServers(fm: Formats, es: seq<Entry>, fs: FileSystem, fuel: nat)
    requires fm.system && GoodEntries(es) && MarkedReadable(es)
    ensures ReadDnsmasqNs(fs, Derived(fm, "", Unlines(EntryLines(es))), fuel) == Read(StaticNs(MarkedServers(es)))
  {
    EntriesOneLine(es);
    LinesOfUnlines(EntryLines(es));
    SystemRoundTrip(es);
    MarkedAreServers(es);
    GeneratedRoundTrip(fs, SystemFile(MarkedServers(es)), fuel);
  }
}
