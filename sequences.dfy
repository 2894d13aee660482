/** Facts about sequences without repeated elements: the key order of the
    listener registry and the tokens of settled writes are both such sequences. */
module Sequences {
  ghost predicate NoDup<K>(s: seq<K>)
  {
    forall i, j :: 0 <= i < j < |s| ==> s[i] != s[j]
  }

  lemma NoDupTail<K>(s: seq<K>, x: K)
    requires NoDup(s) && s != [] && x in s[1..]
    ensures x != s[0]
  {
    var j :| 0 <= j < |s[1..]| && s[1..][j] == x;
    assert s[j + 1] == x;
  }

  lemma NoDupSuffix<K>(s: seq<K>)
    requires NoDup(s) && s != []
    ensures NoDup(s[1..])
  {
  }
}
