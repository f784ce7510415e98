/** Small shared vocabulary: an optional value and facts about sequences used as lists. */
module Common {

  /** A value that may be absent, as a key that may be missing from a Python dict. */
  datatype Option<+T> = None | Some(value: T)

  /** No element of `s` occurs twice. */
  predicate NoDuplicates<T(==)>(s: seq<T>) {
    forall i, j :: 0 <= i < j < |s| ==> s[i] != s[j]
  }

  /** The set of elements of `s`, as Python's `set(s)`. */
  function Elements<T>(s: seq<T>): set<T> {
    set x | x in s
  }

  /** In a list without duplicates an element that occurs, occurs exactly once. */
  lemma {:induction false} NoDuplicatesOccursOnce<T>(s: seq<T>, x: T)
    requires NoDuplicates(s) && x in s
    ensures multiset(s)[x] == 1
  {
    if s[0] == x {
      assert x !in s[1..];
      assert s == [s[0]] + s[1..];
    } else {
      assert NoDuplicates(s[1..]);
      NoDuplicatesOccursOnce(s[1..], x);
      assert s == [s[0]] + s[1..];
    }
  }
}
