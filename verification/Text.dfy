/**
 Lines, fields and substrings, as the byline reader and the regular expressions
 of the repository cut them (vendor/github.com/msoap/byline/byline.go).
 */
module Text {

  /** What `\s` matches. */
  const BLANKS: set<char> := {' ', '\t', '\n', '\r', '\U{000C}'}
  /** What `[=\s]` matches. */
  const EQUALS_AND_BLANKS: set<char> := {'=', ' ', '\t', '\n', '\r', '\U{000C}'}

  /** No character of `s` is in `seps`. */
  predicate Free(s: string, seps: set<char>) {
    forall i :: 0 <= i < |s| ==> s[i] !in seps
  }

  /** `s` is nothing but characters in `seps`. */
  predicate Within(s: string, seps: set<char>) {
    forall i :: 0 <= i < |s| ==> s[i] in seps
  }

  /** Where the first separator of `s` is, or the end. */
  function FieldEnd(s: string, seps: set<char>): (n: nat)
    ensures n <= |s| && Free(s[..n], seps)
    ensures n < |s| ==> s[n] in seps
  {
    if s == "" || s[0] in seps then 0
    else
      assert s[1..][..FieldEnd(s[1..], seps)] == s[1..1 + FieldEnd(s[1..], seps)];
      1 + FieldEnd(s[1..], seps)
  }

  function DropSeps(s: string, seps: set<char>): (r: string)
    ensures |r| <= |s|
    ensures s != "" && s[0] in seps ==> |r| < |s|
    ensures r != "" ==> r[0] !in seps
  {
    if s != "" && s[0] in seps then DropSeps(s[1..], seps) else s
  }

  /** The fields of `s`, separated by runs of separators. */
  function SplitRuns(s: string, seps: set<char>): (fields: seq<string>)
    ensures |fields| >= 1
    decreases |s|
  {
    var n := FieldEnd(s, seps);
    if n == |s| then [s] else [s[..n]] + SplitRuns(DropSeps(s[n..], seps), seps)
  }

  /** The fields of `s`, separated by single separators. */
  function SplitEach(s: string, seps: set<char>): (fields: seq<string>)
    ensures |fields| >= 1
    decreases |s|
  {
    var n := FieldEnd(s, seps);
    if n == |s| then [s] else [s[..n]] + SplitEach(s[n + 1..], seps)
  }

  /** The lines of a file, without their ends. */
  function Lines(s: string): seq<string>
    decreases |s|
  {
    if s == "" then []
    else
      var n := FieldEnd(s, {'\n'});
      if n == |s| then [s] else [s[..n]] + Lines(s[n + 1..])
  }

  /** A file of these lines. */
  function Unlines(lines: seq<string>): string {
    if lines == [] then "" else lines[0] + "\n" + Unlines(lines[1..])
  }

  predicate MatchesAt(s: string, pat: string, i: nat) {
    i + |pat| <= |s| && s[i..i + |pat|] == pat
  }

  predicate Contains(s: string, pat: string) {
    exists i :: 0 <= i <= |s| && MatchesAt(s, pat, i)
  }

  /** `s` without the `c` at its ends. */
  function Trim(s: string, c: char): string {
    if s != "" && s[0] == c then Trim(s[1..], c)
    else if s != "" && s[|s| - 1] == c then Trim(s[..|s| - 1], c)
    else s
  }

  function Join(parts: seq<string>, sep: string): string {
    if parts == [] then ""
    else if |parts| == 1 then parts[0]
    else parts[0] + sep + Join(parts[1..], sep)
  }

  /** The decimal digits of `n`. */
  function Decimal(n: nat): (s: string)
    ensures s != "" && forall i :: 0 <= i < |s| ==> '0' <= s[i] <= '9'
  {
    if n < 10 then [('0' as int + n) as char] else Decimal(n / 10) + Decimal(n % 10)
  }

  // ------------------------------------------------------------ lemmas

  lemma {:induction false} FieldEndIs(s: string, seps: set<char>, n: nat)
    requires n <= |s| && Free(s[..n], seps) && (n < |s| ==> s[n] in seps)
    ensures FieldEnd(s, seps) == n
  {
  }

  lemma {:induction false} DropSepsIs(gap: string, rest: string, seps: set<char>)
    requires Within(gap, seps)
    requires rest == "" || rest[0] !in seps
    ensures DropSeps(gap + rest, seps) == rest
  {
    if gap == "" {
      assert gap + rest == rest;
    } else {
      assert (gap + rest)[1..] == gap[1..] + rest;
      DropSepsIs(gap[1..], rest, seps);
    }
  }

  /** A token, a gap and the rest of the line. */
  lemma SplitStep(token: string, gap: string, rest: string, seps: set<char>)
    requires Free(token, seps)
    requires gap != "" && Within(gap, seps)
    requires rest == "" || rest[0] !in seps
    ensures SplitRuns(token + gap + rest, seps) == [token] + SplitRuns(rest, seps)
  {
    var s := token + gap + rest;
    assert s[..|token|] == token;
    FieldEndIs(s, seps, |token|);
    assert s[|token|..] == gap + rest;
    DropSepsIs(gap, rest, seps);
  }

  lemma SplitOverTwoGaps(token: string, gap1: string, gap2: string, rest: string, seps: set<char>)
    requires Free(token, seps) && gap1 != ""
    requires Within(gap1, seps)
    requires Within(gap2, seps)
    requires rest == "" || rest[0] !in seps
    ensures SplitRuns(token + gap1 + (gap2 + rest), seps) == [token] + SplitRuns(rest, seps)
  {
    assert token + gap1 + (gap2 + rest) == token + (gap1 + gap2) + rest;
    SplitStep(token, gap1 + gap2, rest, seps);
  }

  lemma SplitLast(token: string, seps: set<char>)
    requires Free(token, seps)
    ensures SplitRuns(token, seps) == [token] && SplitEach(token, seps) == [token]
  {
  }

  lemma SplitEachStep(token: string, sep: char, rest: string, seps: set<char>)
    requires Free(token, seps) && sep in seps
    ensures SplitEach(token + [sep] + rest, seps) == [token] + SplitEach(rest, seps)
  {
    var s := token + [sep] + rest;
    assert s[..|token|] == token;
    FieldEndIs(s, seps, |token|);
    assert s[|token| + 1..] == rest;
  }

  lemma {:induction false} FieldsFree(s: string, seps: set<char>)
    ensures forall i :: 0 <= i < |SplitRuns(s, seps)| ==> Free(SplitRuns(s, seps)[i], seps)
    ensures forall i :: 0 <= i < |SplitEach(s, seps)| ==> Free(SplitEach(s, seps)[i], seps)
    decreases |s|
  {
    var n := FieldEnd(s, seps);
    if n == |s| {
      assert s[..n] == s;
    } else {
      FieldsFree(DropSeps(s[n..], seps), seps);
      FieldsFree(s[n + 1..], seps);
    }
  }

  lemma {:induction false} LinesOfUnlines(lines: seq<string>)
    requires forall i :: 0 <= i < |lines| ==> Free(lines[i], {'\n'})
    ensures Lines(Unlines(lines)) == lines
  {
    if lines != [] {
      var s := Unlines(lines);
      var n := |lines[0]|;
      assert s[..n] == lines[0];
      FieldEndIs(s, {'\n'}, n);
      assert s[n + 1..] == Unlines(lines[1..]);
      LinesOfUnlines(lines[1..]);
    }
  }

  /** `key=` cannot be the end of `marker`: one of its last two letters is another. */
  predicate EndsDifferently(key: string, marker: string) {
    && |key| >= 2 && |marker| >= 3
    && (key[|key| - 1] != marker[|marker| - 2] || key[|key| - 2] != marker[|marker| - 3])
  }

  /**
   A marker that ends in its only `=` occurs in `key=value` only if it occurs in the value,
   when the key has no `=` and ends differently.
   */
  lemma MarkerInValue(key: string, value: string, marker: string)
    requires Free(key, {'='}) && EndsDifferently(key, marker)
    requires marker[|marker| - 1] == '=' && Free(marker[..|marker| - 1], {'='})
    requires Contains(key + "=" + value, marker)
    ensures Contains(value, marker)
  {
    var s := key + "=" + value;
    var i :| 0 <= i <= |s| && MatchesAt(s, marker, i);
    var last := i + |marker| - 1;
    assert s[last] == s[i..i + |marker|][|marker| - 1] == '=';
    assert s[last - 1] == s[i..i + |marker|][|marker| - 2];
    assert last >= |key|;
    assert forall j :: 0 <= j < |key| ==> s[j] == key[j];
    assert forall j :: i <= j < i + |marker| ==> s[j] == s[i..i + |marker|][j - i];
    assert forall j :: 0 <= j < |marker| - 1 ==> marker[..|marker| - 1][j] == marker[j];
    assert s[|key|] == '=';
    assert last != |key|;
    assert i > |key|;
    assert s[i..i + |marker|] == value[i - |key| - 1..i - |key| - 1 + |marker|];
    assert MatchesAt(value, marker, i - |key| - 1);
  }

  /** A marker with a `=` does not occur where there is none. */
  lemma NoEqualsNoMarker(s: string, marker: string)
    requires Free(s, {'='}) && marker != "" && marker[|marker| - 1] == '='
    ensures !Contains(s, marker)
  {
  }

  /** A line that starts with `token` and a separator, or is just `token`. */
  lemma FirstField(token: string, rest: string, seps: set<char>)
    requires Free(token, seps) && (rest == "" || rest[0] in seps)
    ensures SplitRuns(token + rest, seps)[0] == token
  {
    var s := token + rest;
    assert s[..|token|] == token;
    FieldEndIs(s, seps, |token|);
  }

  /** Cutting a string free of some characters gives strings free of them. */
  lemma {:induction false} PiecesStayFree(s: string, cut: set<char>, seps: set<char>)
    requires Free(s, seps)
    ensures forall i :: 0 <= i < |SplitEach(s, cut)| ==> Free(SplitEach(s, cut)[i], seps)
    decreases |s|
  {
    var n := FieldEnd(s, cut);
    if n < |s| {
      assert Free(s[..n], seps);
      PiecesStayFree(s[n + 1..], cut, seps);
    }
  }

  lemma FreeJoined(a: string, b: string, seps: set<char>)
    ensures Free(a + b, seps) <==> Free(a, seps) && Free(b, seps)
  {
    assert forall i :: 0 <= i < |a| ==> (a + b)[i] == a[i];
    assert forall i :: 0 <= i < |b| ==> (a + b)[|a| + i] == b[i];
    forall i | 0 <= i < |b| && Free(a + b, seps)
      ensures b[i] !in seps
    {
      assert (a + b)[|a| + i] == b[i];
    }
  }

  lemma PrefixContains(pat: string, rest: string)
    ensures Contains(pat + rest, pat)
  {
    assert (pat + rest)[0..|pat|] == pat;
    assert MatchesAt(pat + rest, pat, 0);
  }

  lemma SameMiddle(before: string, after: string, a: string, b: string)
    requires before + a + after == before + b + after
    ensures a == b
  {
    assert |a| == |b|;
    assert (before + a + after)[|before|..|before| + |a|] == a;
    assert (before + b + after)[|before|..|before| + |b|] == b;
  }

  // ------------------------------------------------------------ any line, any text

  /** The words with the gaps between them. */
  function Spaced(words: seq<string>, gaps: seq<string>): string
    requires words != [] && |gaps| == |words| - 1
  {
    if |words| == 1 then words[0] else words[0] + gaps[0] + Spaced(words[1..], gaps[1..])
  }

  /** Words and gaps as they can be told apart: only the first and the last word may be empty. */
  predicate Apart(words: seq<string>, gaps: seq<string>, seps: set<char>) {
    && words != [] && |gaps| == |words| - 1
    && (forall i :: 0 <= i < |words| ==> Free(words[i], seps))
    && (forall i :: 0 < i < |words| - 1 ==> words[i] != "")
    && (forall i :: 0 <= i < |gaps| ==> gaps[i] != "" && Within(gaps[i], seps))
  }

  lemma SpacedStart(words: seq<string>, gaps: seq<string>, seps: set<char>)
    requires Apart(words, gaps, seps) && (|words| > 1 ==> words[0] != "")
    ensures Spaced(words, gaps) == "" || Spaced(words, gaps)[0] !in seps
  {
    assert words[0] != "" ==> Spaced(words, gaps)[0] == words[0][0];
  }

  /** The fields of a line are its words, whatever the gaps. */
  lemma {:induction false} FieldsOfSpaced(words: seq<string>, gaps: seq<string>, seps: set<char>)
    requires Apart(words, gaps, seps)
    ensures SplitRuns(Spaced(words, gaps), seps) == words
  {
    if |words| == 1 {
      SplitLast(words[0], seps);
    } else {
      assert Apart(words[1..], gaps[1..], seps);
      SpacedStart(words[1..], gaps[1..], seps);
      SplitStep(words[0], gaps[0], Spaced(words[1..], gaps[1..]), seps);
      FieldsOfSpaced(words[1..], gaps[1..], seps);
    }
  }

  /** The separators a text starts with, and the rest. */
  lemma {:induction false} LeadingGap(s: string, seps: set<char>) returns (gap: string)
    ensures s == gap + DropSeps(s, seps) && Within(gap, seps)
    ensures s != "" && s[0] in seps ==> gap != ""
  {
    if s != "" && s[0] in seps {
      var more := LeadingGap(s[1..], seps);
      gap := [s[0]] + more;
    } else {
      gap := "";
    }
  }

  lemma SpacedEmpty(words: seq<string>, gaps: seq<string>, seps: set<char>)
    requires Apart(words, gaps, seps) && Spaced(words, gaps) == ""
    ensures words == [""]
  {
  }

  /** Every line is made of words and gaps. */
  lemma {:induction false} WordsAndGaps(s: string, seps: set<char>) returns (words: seq<string>, gaps: seq<string>)
    ensures Apart(words, gaps, seps) && s == Spaced(words, gaps)
    ensures s != "" && s[0] !in seps ==> words[0] != ""
    decreases |s|
  {
    var n := FieldEnd(s, seps);
    if n == |s| {
      assert s[..n] == s;
      words, gaps := [s], [];
    } else {
      var gap := LeadingGap(s[n..], seps);
      var rest := DropSeps(s[n..], seps);
      var w, g := WordsAndGaps(rest, seps);
      words, gaps := [s[..n]] + w, [gap] + g;
      assert s == s[..n] + gap + rest;
      assert words[1..] == w && gaps[1..] == g;
      if rest == "" {
        SpacedEmpty(w, g, seps);
      }
    }
  }

  lemma LinesFirst(line: string, more: string)
    requires Free(line, {'\n'})
    ensures Lines(line + "\n" + more) == [line] + Lines(more)
  {
    var s := line + "\n" + more;
    assert s[..|line|] == line && s[|line| + 1..] == more;
    FieldEndIs(s, {'\n'}, |line|);
  }

  /** What stands after the last line end is a line if it is anything. */
  function LastLine(rest: string): seq<string> {
    if rest == "" then [] else [rest]
  }

  lemma LinesOfLast(rest: string)
    requires Free(rest, {'\n'})
    ensures Lines(rest) == LastLine(rest)
  {
    assert rest[..|rest|] == rest;
  }

  lemma FirstOfLines(lines: seq<string>, last: seq<string>)
    requires lines != []
    ensures [lines[0]] + (lines[1..] + last) == lines + last
  {
  }

  lemma FirstOfUnlines(lines: seq<string>, rest: string)
    requires lines != []
    ensures Unlines(lines) + rest == lines[0] + "\n" + (Unlines(lines[1..]) + rest)
  {
  }

  /** The lines of a text that ends within a line. */
  lemma {:induction false} LinesAndRest(lines: seq<string>, rest: string)
    requires (forall i :: 0 <= i < |lines| ==> Free(lines[i], {'\n'})) && Free(rest, {'\n'})
    ensures Lines(Unlines(lines) + rest) == lines + LastLine(rest)
  {
    if lines == [] {
      LinesOfLast(rest);
      assert Unlines(lines) + rest == rest;
    } else {
      FirstOfUnlines(lines, rest);
      LinesFirst(lines[0], Unlines(lines[1..]) + rest);
      LinesAndRest(lines[1..], rest);
      FirstOfLines(lines, LastLine(rest));
    }
  }

  /** Every text is such lines and a rest. */
  lemma {:induction false} TextOfLines(s: string) returns (lines: seq<string>, rest: string)
    ensures (forall i :: 0 <= i < |lines| ==> Free(lines[i], {'\n'})) && Free(rest, {'\n'})
    ensures s == Unlines(lines) + rest
    decreases |s|
  {
    var n := FieldEnd(s, {'\n'});
    if n == |s| {
      assert s[..n] == s;
      lines, rest := [], s;
    } else {
      var more;
      more, rest := TextOfLines(s[n + 1..]);
      lines := [s[..n]] + more;
      assert lines[1..] == more;
      assert s == s[..n] + "\n" + s[n + 1..];
    }
  }

  /** The fields between single separators are those that, joined, make the line. */
  lemma {:induction false} SplitOfJoin(parts: seq<string>, sep: char)
    requires parts != [] && forall i :: 0 <= i < |parts| ==> Free(parts[i], {sep})
    ensures SplitEach(Join(parts, [sep]), {sep}) == parts
  {
    if |parts| == 1 {
      SplitLast(parts[0], {sep});
    } else {
      SplitEachStep(parts[0], sep, Join(parts[1..], [sep]), {sep});
      SplitOfJoin(parts[1..], sep);
    }
  }

  /** Trimming takes away `c` at both ends and nothing else. */
  lemma {:induction false} TrimMeans(s: string, c: char) returns (front: string, back: string)
    ensures s == front + Trim(s, c) + back && Within(front, {c}) && Within(back, {c})
    ensures var t := Trim(s, c); t != "" ==> t[0] != c && t[|t| - 1] != c
  {
    if s != "" && s[0] == c {
      front, back := TrimMeans(s[1..], c);
      front := [c] + front;
    } else if s != "" && s[|s| - 1] == c {
      front, back := TrimMeans(s[..|s| - 1], c);
      back := back + [c];
    } else {
      front, back := "", "";
    }
  }
}
