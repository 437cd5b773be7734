/**
 Whole logs of dnsmasq (internal/forwarding/state.go, `readStateData`): which lines count
 for which statistics, and what a log of any lines is read as.
 */
module DnsmasqLog {
  import opened Wrappers
  import opened Text
  import opened ForwardingData
  import opened Provenance
  import opened Statistics

  // ------------------------------------------------------------ lines that do not count

  /** A line without the words leaves the cache figures as they are, wherever it stands. */
  lemma {:induction false} NoCacheLine(c: Cache, pre: seq<string>, line: string, post: seq<string>)
    requires !Contains(line, "cache size")
    ensures CacheOf(c, pre + [line] + post) == CacheOf(c, pre + post)
  {
    if post == [] {
      assert (pre + [line] + post)[..|pre|] == pre && pre + post == pre;
    } else {
      var n := |post| - 1;
      NoCacheLine(c, pre, line, post[..n]);
      assert (pre + [line] + post)[..|pre| + 1 + n] == pre + [line] + post[..n];
      assert (pre + post)[..|pre| + n] == pre + post[..n];
    }
  }

  lemma {:induction false} NoQueryLine(q: Queries, pre: seq<string>, line: string, post: seq<string>)
    requires !Contains(line, "queries forwarded")
    ensures QueriesOf(q, pre + [line] + post) == QueriesOf(q, pre + post)
  {
    if post == [] {
      assert (pre + [line] + post)[..|pre|] == pre && pre + post == pre;
    } else {
      var n := |post| - 1;
      NoQueryLine(q, pre, line, post[..n]);
      assert (pre + [line] + post)[..|pre| + 1 + n] == pre + [line] + post[..n];
      assert (pre + post)[..|pre| + n] == pre + post[..n];
    }
  }

  lemma NoServer(line: string)
    requires !Contains(line, "server")
    ensures ServersOf([line]) == []
  {
    assert [line][..0] == [];
  }

  lemma NoServerLine(pre: seq<string>, line: string, post: seq<string>)
    requires !Contains(line, "server")
    ensures ServersOf(pre + [line] + post) == ServersOf(pre + post)
  {
    ServersAppend(pre + [line], post);
    ServersAppend(pre, [line]);
    ServersAppend(pre, post);
    NoServer(line);
    assert ServersOf(pre) + [] == ServersOf(pre);
  }

  // ------------------------------------------------------------ words in a line

  predicate EndsWith(s: string, end: string) {
    |end| <= |s| && s[|s| - |end|..] == end
  }

  /** Two words one after the other, the first ending in `a` and the second starting with `b`. */
  predicate PairAt(words: seq<string>, i: nat, a: string, b: string) {
    i + 1 < |words| && EndsWith(words[i], a) && b <= words[i + 1]
  }

  /** Where `a b` stands in a line of words, a word ends in `a` and the next one starts with `b`. */
  lemma {:induction false} PairInWords(words: seq<string>, a: string, b: string) returns (i: nat)
    requires words != [] && LogWords(words) && LogWord(a) && LogWord(b)
    requires Contains(Join(words, " "), a + " " + b)
    ensures PairAt(words, i, a, b)
  {
    var s, pat := Join(words, " "), a + " " + b;
    var k :| 0 <= k <= |s| && MatchesAt(s, pat, k);
    assert s[k..k + |pat|] == pat;
    assert s[k + |a|] == pat[|a|] == ' ';
    if |words| == 1 {
      assert false;
    }
    var w, rest := words[0], Join(words[1..], " ");
    assert s == w + " " + rest;
    if k + |a| < |w| {
      assert false;
    } else if k + |a| == |w| {
      FirstWords(w, rest, a, b, k);
      StartOfFirst(words[1..], b);
      i := 0;
    } else {
      NotAcross(w, rest, a, b, k);
      i := PairInWords(words[1..], a, b);
      i := i + 1;
    }
  }

  /** The pair stands where the first word ends. */
  lemma FirstWords(w: string, rest: string, a: string, b: string, k: nat)
    requires MatchesAt(w + " " + rest, a + " " + b, k) && k + |a| == |w|
    ensures EndsWith(w, a) && b <= rest
  {
    var s, pat := w + " " + rest, a + " " + b;
    assert s[k..k + |pat|] == pat;
    assert pat[..|a|] == a && pat[|a| + 1..] == b;
    assert s[k..|w|] == w[k..];
    assert s[|w| + 1..|w| + 1 + |b|] == rest[..|b|];
  }

  lemma StartOfFirst(words: seq<string>, b: string)
    requires words != [] && LogWord(b) && b <= Join(words, " ")
    ensures b <= words[0]
  {
    if |words| > 1 {
      var s := Join(words, " ");
      assert s == words[0] + " " + Join(words[1..], " ");
      assert s[|words[0]|] == ' ';
      assert forall i :: 0 <= i < |b| ==> b[i] == s[i];
    }
  }

  /** The pair stands after the first word and its blank. */
  lemma NotAcross(w: string, rest: string, a: string, b: string, k: nat)
    requires LogWord(a) && MatchesAt(w + " " + rest, a + " " + b, k) && k + |a| > |w|
    ensures Contains(rest, a + " " + b)
  {
    var s, pat := w + " " + rest, a + " " + b;
    assert s[k..k + |pat|] == pat;
    assert forall i :: 0 <= i < |a| ==> a[i] == pat[i] == s[k + i];
    assert s[|w|] == ' ';
    if k <= |w| {
      assert false;
    }
    var j := k - |w| - 1;
    assert rest[j..j + |pat|] == s[k..k + |pat|];
    assert MatchesAt(rest, pat, j);
  }

  /** Where a word stands in a line of words, it stands in one of them. */
  lemma {:induction false} WordInWords(words: seq<string>, pat: string) returns (i: nat)
    requires words != [] && LogWord(pat) && Contains(Join(words, " "), pat)
    ensures i < |words| && Contains(words[i], pat)
  {
    if |words| == 1 {
      i := 0;
    } else {
      var s, w, rest := Join(words, " "), words[0], Join(words[1..], " ");
      var k :| 0 <= k <= |s| && MatchesAt(s, pat, k);
      assert s[k..k + |pat|] == pat;
      assert s == w + " " + rest;
      assert s[|w|] == ' ' && forall i :: 0 <= i < |pat| ==> pat[i] == s[k + i];
      if k + |pat| <= |w| {
        assert w[k..k + |pat|] == s[k..k + |pat|];
        assert MatchesAt(w, pat, k);
        i := 0;
      } else if k <= |w| {
        assert false;
      } else {
        var j := k - |w| - 1;
        assert rest[j..j + |pat|] == s[k..k + |pat|];
        assert MatchesAt(rest, pat, j);
        i := WordInWords(words[1..], pat);
        i := i + 1;
      }
    }
  }

  // ------------------------------------------------------------ logs

  /** A line of the log, by what it reports; `Other` is anything else. */
  datatype Entry =
    | CacheEntry(stamp: seq<string>, size: nat, reused: nat, entries: nat, tail: seq<string>)
    | QueryEntry(stamp: seq<string>, forwarded: nat, answered: nat)
    | ServerEntry(stamp: seq<string>, server: string, port: nat, sent: nat, failed: nat)
    | Other(line: string)

  function LineOf(e: Entry): string {
    match e
    case CacheEntry(stamp, size, reused, entries, tail) => CacheLog(stamp, size, reused, entries, tail)
    case QueryEntry(stamp, forwarded, answered) => QueryLog(stamp, forwarded, answered)
    case ServerEntry(stamp, server, port, sent, failed) => ServerLog(stamp, server, port, sent, failed)
    case Other(line) => line
  }

  /** No word is taken for one of those looked for. */
  predicate QuietWords(words: seq<string>) {
    forall i :: 0 <= i < |words| ==>
      LogWord(words[i]) && !Contains(words[i], "server") && !EndsWith(words[i], "queries")
  }

  predicate QuietStamp(stamp: seq<string>) {
    Stamp(stamp) && QuietWords(stamp) && forall i :: 0 <= i < |stamp| ==> !EndsWith(stamp[i], "cache")
  }

  /** Other lines have none of the words looked for; an address has neither blanks nor `#`. */
  predicate Sound(e: Entry) {
    match e
    case CacheEntry(stamp, _, _, _, tail) => QuietStamp(stamp) && QuietWords(tail)
    case QueryEntry(stamp, _, _) => QuietStamp(stamp)
    case ServerEntry(stamp, server, _, _, _) =>
      QuietStamp(stamp) && Free(server, BLANKS) && Free(server, {'#'}) && (server != "" ==> server[0] != ':')
    case Other(line) =>
      Free(line, {'\n'}) && !Contains(line, "cache size") && !Contains(line, "queries forwarded") && !Contains(line, "server")
  }

  lemma ServerHasV(w: string)
    requires Contains(w, "server")
    ensures !Free(w, {'v'})
  {
    var i :| 0 <= i <= |w| && MatchesAt(w, "server", i);
    assert w[i + 3] == w[i..i + 6][3] == "server"[3];
  }

  lemma EndsLast(w: string, end: string)
    requires EndsWith(w, end) && end != ""
    ensures w[|w| - 1] == end[|end| - 1]
  {
    assert w[|w| - |end|..][|end| - 1] == end[|end| - 1];
  }

  lemma QuietWord(w: string)
    requires w != "" && Free(w, {'v'})
    ensures !Contains(w, "server") && (w[|w| - 1] != 's' ==> !EndsWith(w, "queries"))
  {
    if Contains(w, "server") {
      ServerHasV(w);
    }
    if EndsWith(w, "queries") {
      EndsLast(w, "queries");
    }
  }

  predicate NumberWord(w: string) {
    LogWord(w) && !Contains(w, "server") && !EndsWith(w, "queries") && w[|w| - 1] !in {'e', 's'} && w[0] != 'f'
  }

  lemma NumbersQuiet(n: nat)
    ensures NumberWord(Decimal(n)) && NumberWord(Decimal(n) + ",")
  {
    NumberWords(n);
    QuietWord(Decimal(n));
    QuietWord(Decimal(n) + ",");
  }

  lemma PairQuiet(a: nat, b: nat)
    ensures NumberWord(Decimal(a) + "/" + Decimal(b))
  {
    PairWord(a, b);
    FreeJoined(Decimal(a) + "/", Decimal(b), {'v'});
    FreeJoined(Decimal(a), "/", {'v'});
    QuietWord(Decimal(a) + "/" + Decimal(b));
  }

  /** Where a pair of words stands in a stamped line, it stands after the stamp. */
  lemma PairInStamped(stamp: seq<string>, rest: seq<string>, a: string, b: string) returns (i: nat)
    requires Stamp(stamp) && rest != [] && LogWords(rest) && LogWord(a) && LogWord(b)
    requires forall i :: 0 <= i < |stamp| ==> !EndsWith(stamp[i], a)
    requires Contains(Join(stamp + rest, " "), a + " " + b)
    ensures PairAt(rest, i, a, b)
    ensures rest[i][|rest[i]| - 1] == a[|a| - 1] && rest[i + 1][0] == b[0]
  {
    i := PairInWords(stamp + rest, a, b);
    i := i - |stamp|;
    assert (stamp + rest)[i + |stamp|] == rest[i] && (stamp + rest)[i + 1 + |stamp|] == rest[i + 1];
    EndsLast(rest[i], a);
  }

  /** A stamped line of words that do not end like `cache` does not report on the cache. */
  lemma NotOfCache(stamp: seq<string>, rest: seq<string>)
    requires QuietStamp(stamp) && rest != [] && LogWords(rest) && forall i :: 0 <= i < |rest| ==> rest[i][|rest[i]| - 1] != 'e'
    ensures !Contains(Join(stamp + rest, " "), "cache size")
  {
    assert "cache" + " " + "size" == "cache size";
    if Contains(Join(stamp + rest, " "), "cache" + " " + "size") {
      var i := PairInStamped(stamp, rest, "cache", "size");
    }
  }

  /** One in which no word that ends like `queries` has one that starts like `forwarded` after it does not report on queries. */
  lemma NotOfQueries(stamp: seq<string>, rest: seq<string>)
    requires QuietStamp(stamp) && rest != [] && LogWords(rest)
    requires forall i :: 0 <= i < |rest| - 1 ==> !EndsWith(rest[i], "queries") || rest[i + 1][0] != 'f'
    ensures !Contains(Join(stamp + rest, " "), "queries forwarded")
  {
    assert "queries" + " " + "forwarded" == "queries forwarded";
    if Contains(Join(stamp + rest, " "), "queries" + " " + "forwarded") {
      var i := PairInStamped(stamp, rest, "queries", "forwarded");
    }
  }

  lemma NotOfServers(stamp: seq<string>, rest: seq<string>)
    requires QuietStamp(stamp) && rest != [] && LogWords(rest)
    requires forall i :: 0 <= i < |rest| ==> !Contains(rest[i], "server")
    ensures !Contains(Join(stamp + rest, " "), "server")
  {
    if Contains(Join(stamp + rest, " "), "server") {
      var i := WordInWords(stamp + rest, "server");
    }
  }

  lemma CacheEntryAlone(stamp: seq<string>, size: string, entries: string, tail: seq<string>)
    requires QuietStamp(stamp) && QuietWords(tail) && NumberWord(size) && NumberWord(entries)
    ensures var line := Join(stamp + (["cache", "size", size, entries] + tail), " ");
            !Contains(line, "queries forwarded") && !Contains(line, "server")
  {
    var rest := ["cache", "size", size, entries] + tail;
    QuietWord("cache");
    QuietWord("size");
    NotOfQueries(stamp, rest);
    NotOfServers(stamp, rest);
  }

  function QueryRest(forwarded: string, answered: string): seq<string> {
    ["queries", "forwarded", forwarded, "queries", "answered", "locally", answered]
  }

  lemma QueryNotOfCache(stamp: seq<string>, forwarded: string, answered: string)
    requires QuietStamp(stamp) && NumberWord(forwarded) && NumberWord(answered)
    ensures !Contains(Join(stamp + QueryRest(forwarded, answered), " "), "cache size")
  {
    NotOfCache(stamp, QueryRest(forwarded, answered));
  }

  lemma FirstWordsQuiet()
    ensures !Contains("queries", "server") && !Contains("forwarded", "server")
  {
    QuietWord("queries");
    QuietWord("forwarded");
  }

  lemma LaterWordsQuiet()
    ensures !Contains("answered", "server") && !Contains("locally", "server")
  {
    QuietWord("answered");
    QuietWord("locally");
  }

  lemma QueryWords(forwarded: string, answered: string)
    requires LogWord(forwarded) && LogWord(answered)
    ensures LogWords(QueryRest(forwarded, answered))
  {
  }

  lemma QueryNotOfServers(stamp: seq<string>, forwarded: string, answered: string)
    requires QuietStamp(stamp) && NumberWord(forwarded) && NumberWord(answered)
    ensures !Contains(Join(stamp + QueryRest(forwarded, answered), " "), "server")
  {
    FirstWordsQuiet();
    LaterWordsQuiet();
    QueryWords(forwarded, answered);
    NotOfServers(stamp, QueryRest(forwarded, answered));
  }

  lemma ServerEntryAlone(stamp: seq<string>, address: string, sent: string, failed: string)
    requires QuietStamp(stamp) && NumberWord(sent) && NumberWord(failed)
    requires LogWord(address) && address[|address| - 1] == ':'
    ensures var line := Join(stamp + ["server", address, "queries", "sent", sent, "retried", "or", "failed", failed], " ");
            !Contains(line, "cache size") && !Contains(line, "queries forwarded")
  {
    var rest := ["server", address, "queries", "sent", sent, "retried", "or", "failed", failed];
    NotOfCache(stamp, rest);
    forall i | 0 <= i < |rest| - 1
      ensures !EndsWith(rest[i], "queries") || rest[i + 1][0] != 'f'
    {
      if EndsWith(rest[i], "queries") {
        EndsLast(rest[i], "queries");
      }
    }
    NotOfQueries(stamp, rest);
  }

  // ------------------------------------------------------------ what a log says

  /** The cache figures after the log: those of its last cache line, if it has one. */
  function LastCache(c: Cache, log: seq<Entry>): Cache {
    if log == [] then c
    else
      var e := log[|log| - 1];
      if e.CacheEntry? then Cache(Saturated(e.size, MAX32), Saturated(e.entries, MAX64), Saturated(e.reused, MAX64))
      else LastCache(c, log[..|log| - 1])
  }

  function LastQueries(q: Queries, log: seq<Entry>): Queries {
    if log == [] then q
    else
      var e := log[|log| - 1];
      if e.QueryEntry? then Queries(Saturated(e.forwarded, MAX64), Saturated(e.answered, MAX64))
      else LastQueries(q, log[..|log| - 1])
  }

  /** Every server reported, in order. */
  function Reported(log: seq<Entry>): seq<NameserverState> {
    if log == [] then []
    else
      var e := log[|log| - 1];
      Reported(log[..|log| - 1])
      + if e.ServerEntry?
        then [NameserverState(e.server, Saturated(e.port, MAX16), Saturated(e.sent, MAX64), Saturated(e.failed, MAX64),
                              System, true, false, [])]
        else []
  }

  function LinesOfLog(log: seq<Entry>): seq<string> {
    if log == [] then [] else LinesOfLog(log[..|log| - 1]) + [LineOf(log[|log| - 1])]
  }

  lemma EntryCache(c: Cache, e: Entry)
    requires Sound(e)
    ensures ReadCacheLine(c, LineOf(e)) == LastCache(c, [e])
  {
    assert [e][..0] == [];
    match e {
      case CacheEntry(stamp, size, reused, entries, tail) => CacheLogRoundTrip(c, stamp, size, reused, entries, tail);
      case QueryEntry(stamp, forwarded, answered) =>
        NumbersQuiet(forwarded);
        NumbersQuiet(answered);
        QueryNotOfCache(stamp, Decimal(forwarded) + ",", Decimal(answered));
      case ServerEntry(stamp, server, port, sent, failed) =>
        NumbersQuiet(sent);
        NumbersQuiet(failed);
        AddressWord(server, port);
        ServerEntryAlone(stamp, server + ("#" + Decimal(port) + ":"), Decimal(sent) + ",", Decimal(failed));
      case Other(_) =>
    }
  }

  lemma EntryQueries(q: Queries, e: Entry)
    requires Sound(e)
    ensures ReadQueryLine(q, LineOf(e)) == LastQueries(q, [e])
  {
    assert [e][..0] == [];
    match e {
      case CacheEntry(stamp, size, reused, entries, tail) =>
        NumbersQuiet(size);
        PairQuiet(reused, entries);
        CacheEntryAlone(stamp, Decimal(size) + ",", Decimal(reused) + "/" + Decimal(entries), tail);
      case QueryEntry(stamp, forwarded, answered) => QueryLogRoundTrip(q, stamp, forwarded, answered);
      case ServerEntry(stamp, server, port, sent, failed) =>
        NumbersQuiet(sent);
        NumbersQuiet(failed);
        AddressWord(server, port);
        ServerEntryAlone(stamp, server + ("#" + Decimal(port) + ":"), Decimal(sent) + ",", Decimal(failed));
      case Other(_) =>
    }
  }

  lemma EntryServers(e: Entry)
    requires Sound(e)
    ensures ReadServerLine(LineOf(e)) == Reported([e])
  {
    assert [e][..0] == [];
    match e {
      case CacheEntry(stamp, size, reused, entries, tail) =>
        NumbersQuiet(size);
        PairQuiet(reused, entries);
        CacheEntryAlone(stamp, Decimal(size) + ",", Decimal(reused) + "/" + Decimal(entries), tail);
      case QueryEntry(stamp, forwarded, answered) =>
        NumbersQuiet(forwarded);
        NumbersQuiet(answered);
        QueryNotOfServers(stamp, Decimal(forwarded) + ",", Decimal(answered));
      case ServerEntry(stamp, server, port, sent, failed) => ServerLogRoundTrip(stamp, server, port, sent, failed);
      case Other(_) =>
    }
  }

  lemma CacheLineWords(size: string, entries: string, tail: seq<string>)
    requires LogWord(size) && LogWord(entries) && LogWords(tail)
    ensures LogWords(["cache", "size", size, entries] + tail)
  {
  }

  lemma ServerLineWords(address: string, sent: string, failed: string)
    requires LogWord(address) && LogWord(sent) && LogWord(failed)
    ensures LogWords(["server", address, "queries", "sent", sent, "retried", "or", "failed", failed])
  {
  }

  lemma StampedOneLine(stamp: seq<string>, rest: seq<string>)
    requires LogWords(stamp) && LogWords(rest)
    ensures Free(Join(stamp + rest, " "), {'\n'})
  {
    WordsOneLine(stamp + rest);
  }

  lemma LineOneLine(e: Entry)
    requires Sound(e)
    ensures Free(LineOf(e), {'\n'})
  {
    match e {
      case CacheEntry(stamp, size, reused, entries, tail) =>
        NumberWords(size);
        PairWord(reused, entries);
        CacheLineWords(Decimal(size) + ",", Decimal(reused) + "/" + Decimal(entries), tail);
        StampedOneLine(stamp, ["cache", "size", Decimal(size) + ",", Decimal(reused) + "/" + Decimal(entries)] + tail);
      case QueryEntry(stamp, forwarded, answered) =>
        NumberWords(forwarded);
        NumberWords(answered);
        QueryWords(Decimal(forwarded) + ",", Decimal(answered));
        StampedOneLine(stamp, QueryRest(Decimal(forwarded) + ",", Decimal(answered)));
      case ServerEntry(stamp, server, port, sent, failed) =>
        NumberWords(sent);
        NumberWords(failed);
        AddressWord(server, port);
        ServerLineWords(server + ("#" + Decimal(port) + ":"), Decimal(sent) + ",", Decimal(failed));
        StampedOneLine(stamp, ["server", server + ("#" + Decimal(port) + ":"), "queries", "sent", Decimal(sent) + ",",
                               "retried", "or", "failed", Decimal(failed)]);
      case Other(_) =>
    }
  }

  lemma {:induction false} WordsOneLine(words: seq<string>)
    requires LogWords(words)
    ensures Free(Join(words, " "), {'\n'})
  {
    if |words| > 1 {
      WordsOneLine(words[1..]);
      FreeJoined(words[0] + " ", Join(words[1..], " "), {'\n'});
      FreeJoined(words[0], " ", {'\n'});
    }
  }

  lemma {:induction false} LogLines(log: seq<Entry>)
    requires forall i :: 0 <= i < |log| ==> Sound(log[i])
    ensures forall i :: 0 <= i < |LinesOfLog(log)| ==> Free(LinesOfLog(log)[i], {'\n'})
  {
    if log != [] {
      LogLines(log[..|log| - 1]);
      LineOneLine(log[|log| - 1]);
    }
  }

  lemma {:induction false} LogFigures(c: Cache, q: Queries, log: seq<Entry>)
    requires forall i :: 0 <= i < |log| ==> Sound(log[i])
    ensures CacheOf(c, LinesOfLog(log)) == LastCache(c, log)
    ensures QueriesOf(q, LinesOfLog(log)) == LastQueries(q, log)
    ensures ServersOf(LinesOfLog(log)) == Reported(log)
  {
    if log != [] {
      var pre, e := log[..|log| - 1], log[|log| - 1];
      LogFigures(c, q, pre);
      assert LinesOfLog(log)[..|LinesOfLog(log)| - 1] == LinesOfLog(pre);
      EntryCache(LastCache(c, pre), e);
      EntryQueries(LastQueries(q, pre), e);
      EntryServers(e);
    }
  }

  /**
   A log that mixes lines of every kind is read as exactly what it reports: the figures of
   its last cache line and its last query line, and every server, in order.
   */
  lemma LogReads(c: Cache, q: Queries, log: seq<Entry>)
    requires forall i :: 0 <= i < |log| ==> Sound(log[i])
    ensures var lines := Lines(Unlines(LinesOfLog(log)));
            && CacheOf(c, lines) == LastCache(c, log)
            && QueriesOf(q, lines) == LastQueries(q, log)
            && ServersOf(lines) == Reported(log)
  {
    LogLines(log);
    LinesOfUnlines(LinesOfLog(log));
    LogFigures(c, q, log);
  }

  /** With one cache line among any others the figures are its own. */
  lemma {:induction false} OneCacheEntry(c: Cache, log: seq<Entry>, i: nat)
    requires i < |log| && log[i].CacheEntry? && forall j :: i < j < |log| ==> !log[j].CacheEntry?
    ensures LastCache(c, log) == Cache(Saturated(log[i].size, MAX32), Saturated(log[i].entries, MAX64), Saturated(log[i].reused, MAX64))
  {
    if i < |log| - 1 {
      OneCacheEntry(c, log[..|log| - 1], i);
    }
  }
}
