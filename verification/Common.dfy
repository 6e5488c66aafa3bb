/**
 What several parts share.
 */
module Common {
  datatype Option<+T> = None | Some(value: T)

  /** Nothing occurs twice. */
  ghost predicate Distinct<T>(s: seq<T>) {
    forall i, j :: 0 <= i < j < |s| ==> s[i] != s[j]
  }

  lemma {:induction false} DistinctCount<T>(s: seq<T>)
    requires Distinct(s)
    ensures |set x | x in s| == |s|
  {
    hide Distinct;
    if s != [] {
      DistinctRest(s);
      DistinctCount(s[1..]);
      FirstAndRest(s);
    }
  }

  lemma DistinctRest<T>(s: seq<T>)
    requires Distinct(s) && s != []
    ensures Distinct(s[1..]) && s[0] !in s[1..]
  {
    assert forall i :: 0 <= i < |s[1..]| ==> s[1..][i] == s[i + 1];
  }

  lemma FirstAndRest<T>(s: seq<T>)
    requires s != []
    ensures (set x | x in s) == {s[0]} + set x | x in s[1..]
  {
    assert s == [s[0]] + s[1..];
  }
}
