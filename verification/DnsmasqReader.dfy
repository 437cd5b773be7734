/**
 `readDnsmasqNs` as it runs: line by line, appending what each line gives, and
 recursively for each file a `conf-dir` line matches (internal/forwarding/state.go).
 */
module DnsmasqReader {
  import opened Text
  import opened Provenance
  import opened DnsmasqFiles

  lemma LineAppended(fs: FileSystem, lines: seq<string>, i: nat, ns: seq<DnsmasqNs>, fuel: nat)
    requires i < |lines| && ReadLines(fs, lines[..i], fuel) == Read(ns)
    ensures ReadLines(fs, lines[..i + 1], fuel) == Then(Read(ns), ReadLine(fs, lines[i], fuel))
    ensures !ReadLine(fs, lines[i], fuel).Read? ==> ReadLines(fs, lines, fuel) == ReadLine(fs, lines[i], fuel)
  {
    SplitAt(lines, i);
    ReadLinesAppend(fs, lines[..i], [lines[i]], fuel);
    assert [lines[i]][1..] == [];
    ReadLinesAppend(fs, lines[..i + 1], lines[i + 1..], fuel);
  }

  lemma SplitAt(s: seq<string>, i: nat)
    requires i < |s|
    ensures s[..i + 1] == s[..i] + [s[i]] && s == s[..i + 1] + s[i + 1..]
  {
  }

  lemma FileAppended(fs: FileSystem, names: seq<string>, i: nat, ns: seq<DnsmasqNs>, fuel: nat)
    requires i < |names| && ReadFiles(fs, names[..i], fuel) == Read(ns)
    ensures ReadFiles(fs, names[..i + 1], fuel) == Then(Read(ns), ReadFiles(fs, [names[i]], fuel))
    ensures !ReadFiles(fs, [names[i]], fuel).Read? ==> ReadFiles(fs, names, fuel) == ReadFiles(fs, [names[i]], fuel)
  {
    SplitAt(names, i);
    ReadFilesAppend(fs, names[..i], [names[i]], fuel);
    ReadFilesAppend(fs, names[..i + 1], names[i + 1..], fuel);
  }

  lemma GlobAppended(fs: FileSystem, dir: string, globs: seq<string>, i: nat, ns: seq<DnsmasqNs>, fuel: nat)
    requires i < |globs| && ReadGlobs(fs, dir, globs[..i], fuel) == Read(ns)
    ensures ReadGlobs(fs, dir, globs[..i + 1], fuel) == Then(Read(ns), ReadGlobs(fs, dir, [globs[i]], fuel))
    ensures !ReadGlobs(fs, dir, [globs[i]], fuel).Read?
            ==> ReadGlobs(fs, dir, globs, fuel) == ReadGlobs(fs, dir, [globs[i]], fuel)
  {
    SplitAt(globs, i);
    ReadGlobsAppend(fs, dir, globs[..i], [globs[i]], fuel);
    ReadGlobsAppend(fs, dir, globs[..i + 1], globs[i + 1..], fuel);
  }

  method ReadText(fs: FileSystem, text: string, fuel: nat) returns (r: Reading)
    ensures r == ReadDnsmasqNs(fs, text, fuel)
    decreases fuel, 2
  {
    var lines, ns := Lines(text), [];
    for i := 0 to |lines|
      invariant ReadLines(fs, lines[..i], fuel) == Read(ns)
    {
      var line := lines[i];
      LineAppended(fs, lines, i, ns, fuel);
      if Contains(line, SERVER) {
        var server := ReadServerLine(line);
        if !server.Read? {
          return server;
        }
        ns := ns + server.ns;
      } else if Contains(line, CONF_DIR) {
        var fields := SplitRuns(line, EQUALS_AND_BLANKS);
        if |fields| < 2 {
          return Panicked;
        }
        var dirGlob := SplitEach(fields[1], {','});
        var included := ReadConfDir(fs, dirGlob[0], dirGlob[1..], fuel);
        if !included.Read? {
          return included;
        }
        ns := ns + included.ns;
      }
    }
    assert lines[..|lines|] == lines;
    return Read(ns);
  }

  method ReadConfDir(fs: FileSystem, dir: string, globs: seq<string>, fuel: nat) returns (r: Reading)
    ensures r == ReadGlobs(fs, dir, globs, fuel)
    decreases fuel, 1
  {
    var ns := [];
    for i := 0 to |globs|
      invariant ReadGlobs(fs, dir, globs[..i], fuel) == Read(ns)
    {
      GlobAppended(fs, dir, globs, i, ns, fuel);
      OneGlob(fs, dir, globs[i], fuel);
      var files := ReadMatches(fs, Matched(fs, dir, globs[i]), fuel);
      if !files.Read? {
        return files;
      }
      ns := ns + files.ns;
    }
    assert globs[..|globs|] == globs;
    return Read(ns);
  }

  lemma OneGlob(fs: FileSystem, dir: string, glob: string, fuel: nat)
    ensures ReadGlobs(fs, dir, [glob], fuel) == ReadFiles(fs, Matched(fs, dir, glob), fuel)
  {
  }

  method ReadMatches(fs: FileSystem, names: seq<string>, fuel: nat) returns (r: Reading)
    ensures r == ReadFiles(fs, names, fuel)
    decreases fuel, 0
  {
    var ns := [];
    for i := 0 to |names|
      invariant ReadFiles(fs, names[..i], fuel) == Read(ns)
    {
      FileAppended(fs, names, i, ns, fuel);
      OneFile(fs, names[i], fuel);
      if names[i] in fs.files {
        if fuel == 0 {
          return Endless;
        }
        var file := ReadText(fs, fs.files[names[i]], fuel - 1);
        if !file.Read? {
          return file;
        }
        ns := ns + file.ns;
      }
    }
    assert names[..|names|] == names;
    return Read(ns);
  }

  lemma OneFile(fs: FileSystem, name: string, fuel: nat)
    ensures ReadFiles(fs, [name], fuel) == ReadFile(fs, name, fuel)
  {
  }
}
