/** Files of `key=value` lines, read key by key. */
module KeyValues {
  import opened Text

  /** The value of a line, if it is one of `key`. */
  function ValueOf(line: string, key: string): seq<string> {
    if key + "=" <= line then [line[|key| + 1..]] else []
  }

  /** The values of `key`, in order. */
  function Values(lines: seq<string>, key: string): seq<string> {
    if lines == [] then [] else ValueOf(lines[0], key) + Values(lines[1..], key)
  }

  predicate Key(s: string) {
    Free(s, {'='})
  }

  /** A line belongs to one key. */
  lemma OneKey(k: string, value: string, key: string)
    requires Key(k) && Key(key)
    ensures ValueOf(k + "=" + value, key) == if k == key then [value] else []
  {
    var line := k + "=" + value;
    assert line[..|k|] == k && line[|k|] == '=' && line[|k| + 1..] == value;
    if key + "=" <= line {
      assert line[|key|] == (key + "=")[|key|] == '=';
      assert line[..|key|] == (key + "=")[..|key|] == key;
      FieldEndIs(line, {'='}, |key|);
      FieldEndIs(line, {'='}, |k|);
    }
  }

  lemma NoKey(line: string, key: string)
    requires Free(line, {'='})
    ensures ValueOf(line, key) == []
  {
    assert (key + "=")[|key|] == '=';
  }

  lemma {:induction false} ValuesAppend(a: seq<string>, b: seq<string>, key: string)
    ensures Values(a + b, key) == Values(a, key) + Values(b, key)
  {
    if a == [] {
      assert a + b == b;
    } else {
      assert (a + b)[1..] == a[1..] + b;
      ValuesAppend(a[1..], b, key);
    }
  }

  /** One line of a key. */
  lemma OneLineValues(k: string, value: string, key: string)
    requires Key(k) && Key(key)
    ensures Values([k + "=" + value], key) == if k == key then [value] else []
  {
    var line := k + "=" + value;
    OneKey(k, value, key);
    assert [line][1..] == [];
    assert Values([line], key) == ValueOf(line, key) + Values([], key);
  }

  lemma NoValues(line: string, key: string)
    requires Free(line, {'='})
    ensures Values([line], key) == []
  {
    NoKey(line, key);
    assert [line][1..] == [];
  }
}
