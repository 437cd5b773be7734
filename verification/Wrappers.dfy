/** Shared types, and what loops over maps and sets need. */
module Wrappers {

  /** A value that may be missing: a nil pointer, a missing map entry, an absent file. */
  datatype Option<+T> = None | Some(value: T)

  /** The outcome of code that may stop the program: `Panic` is an index out of range. */
  datatype Outcome<+T> = Panic | Value(value: T)

  /** Different names have different objects. */
  ghost predicate Injective(objs: map<string, nat>) {
    forall n, m :: n in objs && m in objs && n != m ==> objs[n] != objs[m]
  }

  lemma SomeLeft(done: set<string>, all: set<string>)
    requires done <= all && done != all
    ensures exists n :: n in all - done
  {
    assert !(all <= done);
    var n :| n in all && n !in done;
    assert n in all - done;
  }
}
