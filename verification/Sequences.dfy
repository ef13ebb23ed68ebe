/** Lists without repetition and the sets they hold. */
module Sequences {
  ghost predicate Distinct<K(!new)>(s: seq<K>) {
    forall i, j | 0 <= i < j < |s| :: s[i] != s[j]
  }

  function Elements<K(==, !new)>(s: seq<K>): set<K> {
    set x | x in s
  }

  lemma ElementsSnoc<K(!new)>(s: seq<K>, x: K)
    ensures Elements(s + [x]) == Elements(s) + {x}
  {
  }

  /** A list without repetition is as long as its set is large. */
  lemma {:induction false} DistinctCount<K(!new)>(s: seq<K>)
    requires Distinct(s)
    ensures |Elements(s)| == |s|
  {
    if s == [] {
      assert Elements(s) == {};
    } else {
      var init := s[..|s| - 1];
      assert s == init + [s[|s| - 1]];
      DistinctCount(init);
      assert Elements(s) == Elements(init) + {s[|s| - 1]};
      assert s[|s| - 1] !in init;
    }
  }
}
