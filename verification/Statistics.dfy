/**
 The statistics dnsmasq logs and the name servers of resolv.conf files, as
 internal/forwarding/state.go reads them line by line.
 */
module Statistics {
  import opened Wrappers
  import opened Text
  import opened ForwardingData
  import opened Provenance

  type uint16 = n: nat | n < 0x1_0000
  type uint64 = n: nat | n < 0x1_0000_0000_0000_0000

  const MAX16: uint16 := 0xFFFF
  const MAX32: uint32 := 0xFFFF_FFFF
  const MAX64: uint64 := 0xFFFF_FFFF_FFFF_FFFF

  // ------------------------------------------------------------ numbers

  predicate IsDigit(c: char) {
    '0' <= c <= '9'
  }

  /** Where the leading digits end. */
  function DigitEnd(s: string): (n: nat)
    ensures n <= |s| && forall i :: 0 <= i < n ==> IsDigit(s[i])
    ensures n < |s| ==> !IsDigit(s[n])
  {
    if s == "" || !IsDigit(s[0]) then 0 else 1 + DigitEnd(s[1..])
  }

  /** The number digits stand for. */
  function Number(digits: string): nat
    requires forall i :: 0 <= i < |digits| ==> IsDigit(digits[i])
  {
    if digits == "" then 0
    else
      assert IsDigit(digits[|digits| - 1]);
      10 * Number(digits[..|digits| - 1]) + (digits[|digits| - 1] as int - '0' as int)
  }

  /**
   What `strconv.ParseUint` gives, whatever error it reports: the leading digits decide
   whether the number is too large, and only then does it count what follows them.
   */
  function Parsed(s: string, max: nat): nat {
    var digits := s[..DigitEnd(s)];
    if Number(digits) > max then max
    else if digits != s then 0
    else Number(digits)
  }

  lemma {:induction false} NumberGrows(digits: string, i: nat)
    requires i <= |digits| && forall k :: 0 <= k < |digits| ==> IsDigit(digits[k])
    ensures Number(digits[..i]) <= Number(digits)
    decreases |digits| - i
  {
    if i == |digits| {
      assert digits[..i] == digits;
    } else {
      assert digits[..i + 1][..i] == digits[..i];
      NumberGrows(digits, i + 1);
    }
  }

  /** `strconv.ParseUint(s, 10, bits)` where `max` is the largest number of that width; it never exceeds the width. */
  method ParseUint(s: string, max: nat) returns (n: nat)
    ensures n == Parsed(s, max) && n <= max
  {
    n := 0;
    var i := 0;
    var end := DigitEnd(s);
    while i < |s|
      invariant 0 <= i <= |s| && n <= max && i <= DigitEnd(s)
      invariant n == Number(s[..i])
    {
      if !IsDigit(s[i]) {
        assert s[..i] != s;
        return 0;
      }
      assert s[..i + 1][..i] == s[..i];
      if n * 10 + (s[i] as int - '0' as int) > max {
        assert s[..DigitEnd(s)][..i + 1] == s[..i + 1];
        NumberGrows(s[..DigitEnd(s)], i + 1);
        return max;
      }
      n := n * 10 + (s[i] as int - '0' as int);
      i := i + 1;
    }
  }

  lemma {:induction false} NumberOfDecimal(n: nat)
    ensures Number(Decimal(n)) == n
  {
    if n >= 10 {
      var s := Decimal(n);
      assert s[..|s| - 1] == Decimal(n / 10);
      NumberOfDecimal(n / 10);
    } else {
      assert Decimal(n)[..0] == "";
    }
  }

  lemma AllDigits(s: string)
    requires forall i :: 0 <= i < |s| ==> IsDigit(s[i])
    ensures s[..DigitEnd(s)] == s
  {
  }

  /** A printed number is read back, or as the largest of the width if it does not fit. */
  lemma DecimalRoundTrip(n: nat, max: nat)
    ensures Parsed(Decimal(n), max) == if n <= max then n else max
  {
    NumberOfDecimal(n);
    AllDigits(Decimal(n));
  }

  lemma {:induction false} LeadingZeros(zeros: string, digits: string)
    requires Within(zeros, {'0'}) && forall i :: 0 <= i < |digits| ==> IsDigit(digits[i])
    ensures forall i :: 0 <= i < |zeros + digits| ==> IsDigit((zeros + digits)[i])
    ensures Number(zeros + digits) == Number(digits)
  {
    var s := zeros + digits;
    if digits != "" {
      LeadingZeros(zeros, digits[..|digits| - 1]);
      assert s[..|s| - 1] == zeros + digits[..|digits| - 1];
    } else if zeros != "" {
      LeadingZeros(zeros[..|zeros| - 1], "");
      assert s[..|s| - 1] == zeros[..|zeros| - 1] + "";
    }
  }

  /**
   What any text is read as: its number if it is digits and nothing else, the largest of the
   width if they are too many, and 0 if anything follows a number that fits.
   */
  lemma ParsedExactly(zeros: string, n: nat, junk: string, max: nat)
    requires Within(zeros, {'0'}) && (junk == "" || !IsDigit(junk[0]))
    ensures Parsed(zeros + Decimal(n) + junk, max) == if n > max then max else if junk == "" then n else 0
  {
    var s, digits := zeros + Decimal(n) + junk, zeros + Decimal(n);
    LeadingZeros(zeros, Decimal(n));
    NumberOfDecimal(n);
    assert forall i :: 0 <= i < |digits| ==> s[i] == digits[i];
    assert junk != "" ==> s[|digits|] == junk[0];
    assert DigitEnd(s) == |digits| && s[..|digits|] == digits;
  }

  lemma NoNumber(s: string, max: nat)
    requires s == "" || !IsDigit(s[0])
    ensures Parsed(s, max) == 0
  {
    assert s[..0] == "";
  }

  // ------------------------------------------------------------ lines

  datatype Cache = Cache(size: uint32, entries: uint64, reused: uint64)

  datatype Queries = Queries(forwarded: uint64, answered: uint64)

  function Fields(line: string): seq<string> {
    SplitRuns(line, BLANKS)
  }

  predicate CacheLine(line: string) {
    Contains(line, "cache size") && |Fields(line)| >= 8
  }

  /** A cache line; without a pair of entries only the size is taken. */
  function ReadCacheLine(c: Cache, line: string): Cache {
    if !CacheLine(line) then c
    else
      var fields := Fields(line);
      var c1 := c.(size := Parsed(Trim(fields[6], ','), MAX32));
      var entries := SplitEach(fields[7], {'/'});
      if |entries| != 2 then c1
      else c1.(entries := Parsed(entries[1], MAX64), reused := Parsed(entries[0], MAX64))
  }

  predicate QueryLine(line: string) {
    Contains(line, "queries forwarded") && |Fields(line)| >= 11
  }

  function ReadQueryLine(q: Queries, line: string): Queries {
    if !QueryLine(line) then q
    else Queries(Parsed(Trim(Fields(line)[6], ','), MAX64), Parsed(Fields(line)[10], MAX64))
  }

  function ReadServerLine(line: string): seq<NameserverState> {
    if !Contains(line, "server") || |Fields(line)| < 13 then []
    else
      var fields := Fields(line);
      var serverPort := SplitEach(Trim(fields[5], ':'), {'#'});
      if |serverPort| != 2 then []
      else
        var port: uint16 := Parsed(serverPort[1], MAX16);
        [NameserverState(serverPort[0], port, Parsed(Trim(fields[8], ','), MAX64), Parsed(fields[12], MAX64),
                         System, true, false, [])]
  }

  function CacheOf(c: Cache, lines: seq<string>): Cache {
    if lines == [] then c else ReadCacheLine(CacheOf(c, lines[..|lines| - 1]), lines[|lines| - 1])
  }

  function QueriesOf(q: Queries, lines: seq<string>): Queries {
    if lines == [] then q else ReadQueryLine(QueriesOf(q, lines[..|lines| - 1]), lines[|lines| - 1])
  }

  function ServersOf(lines: seq<string>): seq<NameserverState> {
    if lines == [] then [] else ServersOf(lines[..|lines| - 1]) + ReadServerLine(lines[|lines| - 1])
  }

  // ------------------------------------------------------------ the object

  /** The statistics part of the state. */
  class Stats {
    var cache: Cache
    var queries: Queries
    var nameservers: seq<NameserverState>

    constructor ()
      ensures cache == Cache(0, 0, 0) && queries == Queries(0, 0) && nameservers == []
    {
      cache, queries, nameservers := Cache(0, 0, 0), Queries(0, 0), [];
    }

    method ReadOneCacheLine(line: string)
      modifies this`cache
      ensures cache == ReadCacheLine(old(cache), line)
    {
      if Contains(line, "cache size") {
        var fields := Fields(line);
        if |fields| < 8 {
          return;
        }
        var size := ParseUint(Trim(fields[6], ','), MAX32);
        cache := cache.(size := size);
        var entries := SplitEach(fields[7], {'/'});
        if |entries| != 2 {
          return;
        }
        var all := ParseUint(entries[1], MAX64);
        var reused := ParseUint(entries[0], MAX64);
        cache := cache.(entries := all, reused := reused);
      }
    }

    method ReadCacheStats(lines: seq<string>)
      modifies this`cache
      ensures cache == CacheOf(old(cache), lines)
    {
      var n := 0;
      while n < |lines|
        invariant 0 <= n <= |lines| && cache == CacheOf(old(cache), lines[..n])
      {
        assert lines[..n + 1][..n] == lines[..n];
        ReadOneCacheLine(lines[n]);
        n := n + 1;
      }
      assert lines[..n] == lines;
    }

    method ReadQueryStats(lines: seq<string>)
      modifies this`queries
      ensures queries == QueriesOf(old(queries), lines)
    {
      var n := 0;
      while n < |lines|
        invariant 0 <= n <= |lines| && queries == QueriesOf(old(queries), lines[..n])
      {
        assert lines[..n + 1][..n] == lines[..n];
        if Contains(lines[n], "queries forwarded") {
          var fields := Fields(lines[n]);
          if |fields| >= 11 {
            var forwarded := ParseUint(Trim(fields[6], ','), MAX64);
            var answered := ParseUint(fields[10], MAX64);
            queries := Queries(forwarded, answered);
          }
        }
        n := n + 1;
      }
      assert lines[..n] == lines;
    }

    method ReadOneServerLine(line: string) returns (ns: seq<NameserverState>)
      ensures ns == ReadServerLine(line)
    {
      ns := [];
      if Contains(line, "server") {
        var fields := Fields(line);
        if |fields| < 13 {
          return;
        }
        var sent := ParseUint(Trim(fields[8], ','), MAX64);
        var retried := ParseUint(fields[12], MAX64);
        var serverPort := SplitEach(Trim(fields[5], ':'), {'#'});
        if |serverPort| != 2 {
          return;
        }
        var port := ParseUint(serverPort[1], MAX16);
        ns := [NameserverState(serverPort[0], port, sent, retried, System, true, false, [])];
      }
    }

    method ReadNameserverStats(lines: seq<string>)
      modifies this`nameservers
      ensures nameservers == ServersOf(lines)
    {
      var all: seq<NameserverState> := [];
      var n := 0;
      while n < |lines|
        invariant 0 <= n <= |lines| && all == ServersOf(lines[..n])
      {
        assert lines[..n + 1][..n] == lines[..n];
        var ns := ReadOneServerLine(lines[n]);
        all := all + ns;
        n := n + 1;
      }
      assert lines[..n] == lines;
      nameservers := all;
    }

    /** `readStateData`. */
    method ReadStateData(text: string)
      modifies this
      ensures cache == CacheOf(old(cache), Lines(text))
      ensures queries == QueriesOf(old(queries), Lines(text))
      ensures nameservers == ServersOf(Lines(text))
    {
      var lines := Lines(text);
      ReadCacheStats(lines);
      ReadQueryStats(lines);
      ReadNameserverStats(lines);
    }
  }

  // ------------------------------------------------------------ whole logs

  /** A log that ends at the end of a line. */
  predicate WholeLines(text: string) {
    text == "" || text[|text| - 1] == '\n'
  }

  lemma CutAppended(a: string, b: string, k: nat)
    requires k <= |a|
    ensures (a + b)[..k] == a[..k] && (a + b)[k..] == a[k..] + b
  {
  }

  /** A log that is not empty has a line to its end. */
  lemma FirstLine(a: string, b: string)
    requires WholeLines(a) && a != ""
    ensures var n := FieldEnd(a, {'\n'});
            n < |a| && WholeLines(a[n + 1..]) && FieldEnd(a + b, {'\n'}) == n
  {
    var n := FieldEnd(a, {'\n'});
    assert a[..|a|] == a && !Free(a, {'\n'});
    CutAppended(a, b, n);
    FieldEndIs(a + b, {'\n'}, n);
  }

  lemma LinesStep(a: string, b: string) returns (line: string, rest: string)
    requires WholeLines(a) && a != ""
    ensures |rest| < |a| && WholeLines(rest)
    ensures Lines(a) == [line] + Lines(rest) && Lines(a + b) == [line] + Lines(rest + b)
  {
    FirstLine(a, b);
    var n := FieldEnd(a, {'\n'});
    CutAppended(a, b, n);
    CutAppended(a, b, n + 1);
    line, rest := a[..n], a[n + 1..];
  }

  lemma {:induction false} LinesAppend(a: string, b: string)
    requires WholeLines(a)
    ensures Lines(a + b) == Lines(a) + Lines(b)
    decreases |a|
  {
    if a == "" {
      assert a + b == b;
    } else {
      var line, rest := LinesStep(a, b);
      LinesAppend(rest, b);
      Regrouped(line, Lines(rest), Lines(b));
    }
  }

  lemma Regrouped(line: string, a: seq<string>, b: seq<string>)
    ensures [line] + (a + b) == [line] + a + b
  {
  }

  lemma {:induction false} ServersAppend(a: seq<string>, b: seq<string>)
    ensures ServersOf(a + b) == ServersOf(a) + ServersOf(b)
  {
    if b == [] {
      assert a + b == a;
    } else {
      assert (a + b)[..|a + b| - 1] == a + b[..|b| - 1];
      ServersAppend(a, b[..|b| - 1]);
    }
  }

  /** The name servers of two logs, one after the other, are those of the first and then those of the second. */
  lemma ServersOfConcatenation(a: string, b: string)
    requires WholeLines(a)
    ensures ServersOf(Lines(a + b)) == ServersOf(Lines(a)) + ServersOf(Lines(b))
  {
    LinesAppend(a, b);
    ServersAppend(Lines(a), Lines(b));
  }

  /** The last cache line decides, if it has a pair of entries, whatever went before. */
  lemma {:induction false} LaterCacheWins(c: Cache, pre: seq<string>, line: string, post: seq<string>)
    requires CacheLine(line) && |SplitEach(Fields(line)[7], {'/'})| == 2
    requires forall i :: 0 <= i < |post| ==> !CacheLine(post[i])
    ensures CacheOf(c, pre + [line] + post) == ReadCacheLine(Cache(0, 0, 0), line)
  {
    if post == [] {
      assert pre + [line] + post == pre + [line];
      assert (pre + [line])[..|pre|] == pre;
    } else {
      var lines := pre + [line] + post;
      assert lines[..|lines| - 1] == pre + [line] + post[..|post| - 1];
      LaterCacheWins(c, pre, line, post[..|post| - 1]);
    }
  }

  /** So does the last query line. */
  lemma {:induction false} LaterQueriesWin(q: Queries, pre: seq<string>, line: string, post: seq<string>)
    requires QueryLine(line) && forall i :: 0 <= i < |post| ==> !QueryLine(post[i])
    ensures QueriesOf(q, pre + [line] + post) == ReadQueryLine(Queries(0, 0), line)
  {
    if post == [] {
      assert pre + [line] + post == pre + [line];
      assert (pre + [line])[..|pre|] == pre;
    } else {
      var lines := pre + [line] + post;
      assert lines[..|lines| - 1] == pre + [line] + post[..|post| - 1];
      LaterQueriesWin(q, pre, line, post[..|post| - 1]);
    }
  }

  // ------------------------------------------------------------ resolv.conf

  function ResolvServers(lines: seq<string>): Outcome<seq<string>> {
    if lines == [] then Value([])
    else
      var before, line := ResolvServers(lines[..|lines| - 1]), lines[|lines| - 1];
      if before.Panic? || !("nameserver" <= line) then before
      else if |Fields(line)| < 2 then Panic
      else Value(before.value + [Fields(line)[1]])
  }

  /** `readResolvNs`; `Panic` is the index out of range. */
  method ReadResolvNs(text: string) returns (ns: Outcome<seq<string>>)
    ensures ns == ResolvServers(Lines(text))
  {
    var lines := Lines(text);
    var n := 0;
    ns := Value([]);
    while n < |lines|
      invariant 0 <= n <= |lines| && ns.Value? && ns == ResolvServers(lines[..n])
    {
      assert lines[..n + 1][..n] == lines[..n];
      if "nameserver" <= lines[n] {
        var fields := Fields(lines[n]);
        if |fields| < 2 {
          PanicStays(lines, n + 1);
          return Panic;
        }
        ns := Value(ns.value + [fields[1]]);
      }
      n := n + 1;
    }
    assert lines[..n] == lines;
  }

  lemma {:induction false} PanicStays(lines: seq<string>, n: nat)
    requires n <= |lines| && ResolvServers(lines[..n]).Panic?
    ensures ResolvServers(lines).Panic?
    decreases |lines| - n
  {
    if n == |lines| {
      assert lines[..n] == lines;
    } else {
      assert lines[..n + 1][..n] == lines[..n];
      PanicStays(lines, n + 1);
    }
  }

  /** The reader panics exactly when a line that starts with `nameserver` has no blank in it. */
  lemma {:induction false} PanicsExactly(lines: seq<string>)
    ensures ResolvServers(lines).Panic? <==>
            exists i :: 0 <= i < |lines| && "nameserver" <= lines[i] && Free(lines[i], BLANKS)
  {
    if lines != [] {
      var n := |lines| - 1;
      PanicsExactly(lines[..n]);
      OneField(lines[n]);
      if i :| 0 <= i < n && "nameserver" <= lines[..n][i] && Free(lines[..n][i], BLANKS) {
        assert "nameserver" <= lines[i] && Free(lines[i], BLANKS);
      }
      if i :| 0 <= i < |lines| && "nameserver" <= lines[i] && Free(lines[i], BLANKS) {
        assert i < n ==> lines[..n][i] == lines[i];
      }
    }
  }

  lemma OneField(line: string)
    ensures |Fields(line)| < 2 <==> Free(line, BLANKS)
  {
  }

  /** A line that starts with `nameserver`, even within a longer word, gives its second word. */
  lemma KeywordLine(line: string, words: seq<string>, gaps: seq<string>)
    requires Apart(words, gaps, BLANKS) && line == Spaced(words, gaps) && "nameserver" <= line
    ensures ResolvServers([line]) == if |words| < 2 then Panic else Value([words[1]])
  {
    FieldsOfSpaced(words, gaps, BLANKS);
    assert [line][..0] == [] && ResolvServers([]) == Value([]);
    var none: seq<string> := [];
    assert forall w: string :: none + [w] == [w];
  }

  // ------------------------------------------------------------ dnsmasq's own lines

  predicate LogWord(s: string) {
    s != "" && Free(s, BLANKS)
  }

  lemma {:induction false} WordsApart(words: seq<string>)
    requires words != [] && forall i :: 0 <= i < |words| ==> LogWord(words[i])
    ensures Fields(Join(words, " ")) == words && Join(words, " ") != "" && Join(words, " ")[0] !in BLANKS
  {
    if |words| == 1 {
      SplitLast(words[0], BLANKS);
    } else {
      WordsApart(words[1..]);
      SplitStep(words[0], " ", Join(words[1..], " "), BLANKS);
      assert Join(words, " ")[0] == words[0][0];
    }
  }

  lemma {:induction false} JoinContains(words: seq<string>, i: nat)
    requires i < |words|
    ensures Contains(Join(words, " "), words[i])
    ensures i + 1 < |words| ==> Contains(Join(words, " "), words[i] + " " + words[i + 1])
  {
    if i > 0 {
      JoinContains(words[1..], i - 1);
      ContainsLater(words[0] + " ", Join(words[1..], " "), words[i]);
      if i + 1 < |words| {
        ContainsLater(words[0] + " ", Join(words[1..], " "), words[i] + " " + words[i + 1]);
      }
    } else if |words| == 1 {
      PrefixContains(words[0], "");
      assert words[0] + "" == words[0];
    } else {
      var rest := Join(words[1..], " ");
      PrefixContains(words[0], " " + rest);
      assert words[0] + (" " + rest) == Join(words, " ");
      var more := if |words| == 2 then "" else " " + Join(words[2..], " ");
      assert words[1..][1..] == words[2..];
      assert rest == words[1] + more;
      PrefixContains(words[0] + " " + words[1], more);
      assert words[0] + " " + words[1] + more == words[0] + " " + (words[1] + more);
    }
  }

  lemma ContainsLater(pre: string, s: string, pat: string)
    requires Contains(s, pat)
    ensures Contains(pre + s, pat)
  {
    var i :| 0 <= i <= |s| && MatchesAt(s, pat, i);
    assert (pre + s)[|pre| + i..|pre| + i + |pat|] == s[i..i + |pat|];
    assert MatchesAt(pre + s, pat, |pre| + i);
  }

  /** The four words syslog puts first. */
  predicate Stamp(stamp: seq<string>) {
    |stamp| == 4 && forall i :: 0 <= i < 4 ==> LogWord(stamp[i])
  }

  function ServerLog(stamp: seq<string>, server: string, port: nat, sent: nat, failed: nat): string {
    Join(stamp + ["server", server + ("#" + Decimal(port) + ":"), "queries", "sent", Decimal(sent) + ",",
                  "retried", "or", "failed", Decimal(failed)], " ")
  }

  /** `tail` is what dnsmasq adds: the kind of insertions. */
  function CacheLog(stamp: seq<string>, size: nat, reused: nat, entries: nat, tail: seq<string>): string {
    Join(stamp + (["cache", "size", Decimal(size) + ",", Decimal(reused) + "/" + Decimal(entries)] + tail), " ")
  }

  function QueryLog(stamp: seq<string>, forwarded: nat, answered: nat): string {
    Join(stamp + ["queries", "forwarded", Decimal(forwarded) + ",", "queries", "answered", "locally",
                  Decimal(answered)], " ")
  }

  function Saturated(n: nat, max: nat): nat {
    if n <= max then n else max
  }

  /** A printed number is a word, with or without a comma, which trimming removes. */
  lemma NumberWords(n: nat)
    ensures LogWord(Decimal(n)) && LogWord(Decimal(n) + ",") && Free(Decimal(n), {'/', '#', ':'})
    ensures Trim(Decimal(n) + ",", ',') == Decimal(n)
  {
  }

  lemma StampedWords(stamp: seq<string>, rest: seq<string>)
    requires Stamp(stamp) && rest != [] && forall i :: 0 <= i < |rest| ==> LogWord(rest[i])
    ensures Fields(Join(stamp + rest, " ")) == stamp + rest
  {
    WordsApart(stamp + rest);
  }

  lemma TwoParts(a: string, sep: char, b: string)
    requires Free(a, {sep}) && Free(b, {sep})
    ensures SplitEach(a + [sep] + b, {sep}) == [a, b]
  {
    SplitEachStep(a, sep, b, {sep});
    SplitLast(b, {sep});
  }

  lemma PairWord(a: nat, b: nat)
    ensures LogWord(Decimal(a) + "/" + Decimal(b))
    ensures SplitEach(Decimal(a) + "/" + Decimal(b), {'/'}) == [Decimal(a), Decimal(b)]
  {
    NumberWords(a);
    NumberWords(b);
    FreeJoined(Decimal(a) + "/", Decimal(b), BLANKS);
    FreeJoined(Decimal(a), "/", BLANKS);
    assert Decimal(a) + "/" + Decimal(b) == Decimal(a) + ['/'] + Decimal(b);
    TwoParts(Decimal(a), '/', Decimal(b));
  }

  /** A stamped line: its fields, and its first word and first two words in it. */
  lemma StampedLine(stamp: seq<string>, rest: seq<string>)
    requires Stamp(stamp) && |rest| >= 2 && forall i :: 0 <= i < |rest| ==> LogWord(rest[i])
    ensures var line := Join(stamp + rest, " ");
            && Fields(line) == stamp + rest
            && Contains(line, rest[0]) && Contains(line, rest[0] + " " + rest[1])
  {
    StampedWords(stamp, rest);
    JoinContains(stamp + rest, 4);
  }

  predicate LogWords(words: seq<string>) {
    forall i :: 0 <= i < |words| ==> LogWord(words[i])
  }

  /** A cache line whose figures are these words. */
  lemma CacheFields(stamp: seq<string>, size: string, entries: string, tail: seq<string>)
    requires Stamp(stamp) && LogWord(size) && LogWord(entries) && LogWords(tail)
    ensures var line := Join(stamp + (["cache", "size", size, entries] + tail), " ");
            CacheLine(line) && Fields(line)[6] == size && Fields(line)[7] == entries
  {
    var rest := ["cache", "size", size, entries] + tail;
    assert rest[2] == size && rest[3] == entries;
    StampedLine(stamp, rest);
    assert "cache" + " " + "size" == "cache size";
    assert (stamp + rest)[6] == rest[2] && (stamp + rest)[7] == rest[3];
  }

  /** What dnsmasq reports of its cache is read back, numbers too large as the largest there is. */
  lemma CacheLogRoundTrip(c: Cache, stamp: seq<string>, size: nat, reused: nat, entries: nat, tail: seq<string>)
    requires Stamp(stamp) && LogWords(tail)
    ensures ReadCacheLine(c, CacheLog(stamp, size, reused, entries, tail))
            == Cache(Saturated(size, MAX32), Saturated(entries, MAX64), Saturated(reused, MAX64))
  {
    NumberWords(size);
    PairWord(reused, entries);
    CacheFields(stamp, Decimal(size) + ",", Decimal(reused) + "/" + Decimal(entries), tail);
    DecimalRoundTrip(size, MAX32);
    DecimalRoundTrip(reused, MAX64);
    DecimalRoundTrip(entries, MAX64);
  }

  /** A line whose entries are no pair gives only the size. */
  lemma CacheSizeAlone(c: Cache, stamp: seq<string>, size: nat, entries: string, tail: seq<string>)
    requires Stamp(stamp) && LogWords(tail) && LogWord(entries)
    requires Free(entries, {'/'}) || exists a, b :: entries == a + "/" + b && !Free(b, {'/'})
    ensures ReadCacheLine(c, Join(stamp + (["cache", "size", Decimal(size) + ",", entries] + tail), " "))
            == c.(size := Saturated(size, MAX32))
  {
    NumberWords(size);
    CacheFields(stamp, Decimal(size) + ",", entries, tail);
    DecimalRoundTrip(size, MAX32);
    if Free(entries, {'/'}) {
      SplitLast(entries, {'/'});
    } else {
      var a, b :| entries == a + "/" + b && !Free(b, {'/'});
      ManyParts(a, '/', b);
    }
  }

  /** Two separators make more than two parts. */
  lemma {:induction false} ManyParts(a: string, sep: char, b: string)
    requires !Free(b, {sep})
    ensures |SplitEach(a + [sep] + b, {sep})| > 2
    decreases |a|
  {
    if Free(a, {sep}) {
      SplitEachStep(a, sep, b, {sep});
      var n := FieldEnd(b, {sep});
      assert b[..|b|] == b;
    } else {
      var n := FieldEnd(a, {sep});
      assert a[..|a|] == a;
      var rest := a[n + 1..] + [sep] + b;
      assert a + [sep] + b == a[..n] + [sep] + rest;
      SplitEachStep(a[..n], sep, rest, {sep});
      ManyParts(a[n + 1..], sep, b);
    }
  }

  lemma QueryLogFields(stamp: seq<string>, forwarded: nat, answered: nat)
    requires Stamp(stamp)
    ensures var line := QueryLog(stamp, forwarded, answered); var fields := Fields(line);
            && Contains(line, "queries forwarded") && |fields| == 11
            && fields[6] == Decimal(forwarded) + "," && fields[10] == Decimal(answered)
  {
    NumberWords(forwarded);
    NumberWords(answered);
    var rest := ["queries", "forwarded", Decimal(forwarded) + ",", "queries", "answered", "locally", Decimal(answered)];
    StampedLine(stamp, rest);
    assert "queries" + " " + "forwarded" == "queries forwarded";
    assert (stamp + rest)[6] == rest[2] && (stamp + rest)[10] == rest[6];
  }

  /** And of its queries. */
  lemma QueryLogRoundTrip(q: Queries, stamp: seq<string>, forwarded: nat, answered: nat)
    requires Stamp(stamp)
    ensures ReadQueryLine(q, QueryLog(stamp, forwarded, answered))
            == Queries(Saturated(forwarded, MAX64), Saturated(answered, MAX64))
  {
    QueryLogFields(stamp, forwarded, answered);
    NumberWords(forwarded);
    DecimalRoundTrip(forwarded, MAX64);
    DecimalRoundTrip(answered, MAX64);
  }

  lemma WithoutColon(server: string)
    requires server != "" && server[0] == ':'
    ensures Free(server[1..], {'#'}) <==> Free(server, {'#'})
  {
    assert server == server[..1] + server[1..];
    FreeJoined(server[..1], server[1..], {'#'});
  }

  /** Trimming colons takes the one after the port, and any the address starts with. */
  lemma {:induction false} TrimColons(server: string, rest: string) returns (kept: string)
    requires rest != "" && rest[0] != ':' && rest[|rest| - 1] != ':'
    ensures Trim(server + (rest + ":"), ':') == kept + rest
    ensures Free(kept, {'#'}) <==> Free(server, {'#'})
    ensures kept == server <==> server == "" || server[0] != ':'
    ensures |kept| <= |server|
  {
    var s := server + (rest + ":");
    if server != "" && server[0] == ':' {
      assert s[1..] == server[1..] + (rest + ":");
      kept := TrimColons(server[1..], rest);
      WithoutColon(server);
    } else {
      kept := server;
      LastColon(server, rest);
    }
  }

  lemma LastColon(server: string, rest: string)
    requires rest != "" && rest[0] != ':' && rest[|rest| - 1] != ':' && (server == "" || server[0] != ':')
    ensures Trim(server + (rest + ":"), ':') == server + rest
  {
    var s, t := server + (rest + ":"), server + rest;
    assert s[..|s| - 1] == t;
    assert t[|t| - 1] == rest[|rest| - 1];
    assert s[0] == t[0] == if server == "" then rest[0] else server[0];
  }

  lemma PortPart(port: nat)
    ensures var rest := "#" + Decimal(port);
            rest != "" && rest[0] != ':' && rest[|rest| - 1] != ':'
  {
  }

  lemma AddressWord(server: string, port: nat)
    requires Free(server, BLANKS)
    ensures LogWord(server + ("#" + Decimal(port) + ":"))
  {
  }

  /** The address and port of a server line; a second `#` makes more parts. */
  lemma AddressFields(server: string, port: nat) returns (kept: string)
    ensures var parts := SplitEach(Trim(server + ("#" + Decimal(port) + ":"), ':'), {'#'});
            if Free(server, {'#'}) then parts == [kept, Decimal(port)] else |parts| > 2
    ensures kept == server <==> server == "" || server[0] != ':'
  {
    PortPart(port);
    kept := TrimColons(server, "#" + Decimal(port));
    NumberWords(port);
    assert kept + ("#" + Decimal(port)) == kept + ['#'] + Decimal(port);
    if Free(server, {'#'}) {
      TwoParts(kept, '#', Decimal(port));
    } else {
      MoreParts(kept, '#', Decimal(port));
    }
  }

  lemma MoreParts(a: string, sep: char, b: string)
    requires !Free(a, {sep})
    ensures |SplitEach(a + [sep] + b, {sep})| > 2
  {
    var n := FieldEnd(a, {sep});
    assert a[..|a|] == a;
    var rest := a[n + 1..] + [sep] + b;
    assert a + [sep] + b == a[..n] + [sep] + rest;
    assert rest[|a[n + 1..]|] == sep;
    ManyParts(a[..n], sep, rest);
  }

  /** The server line's fields. */
  lemma ServerLogFields(stamp: seq<string>, server: string, port: nat, sent: nat, failed: nat)
    requires Stamp(stamp) && Free(server, BLANKS)
    ensures var line := ServerLog(stamp, server, port, sent, failed); var fields := Fields(line);
            && Contains(line, "server") && |fields| == 13
            && fields[5] == server + ("#" + Decimal(port) + ":")
            && fields[8] == Decimal(sent) + "," && fields[12] == Decimal(failed)
  {
    NumberWords(sent);
    NumberWords(failed);
    AddressWord(server, port);
    var rest := ["server", server + ("#" + Decimal(port) + ":"), "queries", "sent", Decimal(sent) + ",",
                 "retried", "or", "failed", Decimal(failed)];
    StampedLine(stamp, rest);
    assert (stamp + rest)[5] == rest[1] && (stamp + rest)[8] == rest[4] && (stamp + rest)[12] == rest[8];
  }

  /**
   What dnsmasq reports of a server is read back exactly when its address has no `#`, numbers
   too large as the largest there is, as a server of the system in use for every domain; the
   address exactly when it does not start with a colon, as that of `::1` does.
   */
  lemma ServerLogRoundTrip(stamp: seq<string>, server: string, port: nat, sent: nat, failed: nat)
    requires Stamp(stamp) && Free(server, BLANKS)
    ensures var r := ReadServerLine(ServerLog(stamp, server, port, sent, failed));
            if !Free(server, {'#'}) then r == []
            else && |r| == 1
                 && r[0] == NameserverState(r[0].address, Saturated(port, MAX16), Saturated(sent, MAX64),
                                            Saturated(failed, MAX64), System, true, false, [])
                 && (r[0].address == server <==> server == "" || server[0] != ':')
  {
    ServerLogFields(stamp, server, port, sent, failed);
    NumberWords(sent);
    var kept := AddressFields(server, port);
    DecimalRoundTrip(port, MAX16);
    DecimalRoundTrip(sent, MAX64);
    DecimalRoundTrip(failed, MAX64);
  }
}
