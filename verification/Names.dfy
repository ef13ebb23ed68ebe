/** Listing a sorted map's keys in order, as `BTreeMap` iteration does. */
module Names {
  /** Lexicographic order of names. */
  predicate Less(a: string, b: string) {
    if b == "" then false
    else if a == "" then true
    else a[0] < b[0] || (a[0] == b[0] && Less(a[1..], b[1..]))
  }

  lemma {:induction false} LessTotal(a: string, b: string)
    ensures Less(a, b) || Less(b, a) || a == b
  {
    if a != "" && b != "" && a[0] == b[0] {
      LessTotal(a[1..], b[1..]);
      assert a == [a[0]] + a[1..] && b == [b[0]] + b[1..];
    }
  }

  lemma {:induction false} LessTransitive(a: string, b: string, c: string)
    requires Less(a, b) && Less(b, c)
    ensures Less(a, c)
  {
    if a != "" && b != "" && c != "" && a[0] == b[0] == c[0] {
      LessTransitive(a[1..], b[1..], c[1..]);
    }
  }

  lemma {:induction false} LessIrreflexive(a: string)
    ensures !Less(a, a)
  {
    if a != "" {
      LessIrreflexive(a[1..]);
    }
  }

  predicate IsFirst(keys: set<string>, k: string) {
    k in keys && forall x | x in keys :: x == k || Less(k, x)
  }

  lemma {:induction false} HasFirst(keys: set<string>)
    requires keys != {}
    ensures exists k :: IsFirst(keys, k)
  {
    var k :| k in keys;
    var rest := keys - {k};
    if rest == {} {
      assert keys == {k};
      assert IsFirst(keys, k);
    } else {
      HasFirst(rest);
      var m :| IsFirst(rest, m);
      LessTotal(k, m);
      if Less(k, m) {
        forall x | x in keys ensures x == k || Less(k, x) {
          if x != k && x != m {
            LessTransitive(k, m, x);
          }
        }
        assert IsFirst(keys, k);
      } else {
        assert IsFirst(keys, m);
      }
    }
  }

  lemma FirstIsUnique(keys: set<string>)
    ensures forall a, b | IsFirst(keys, a) && IsFirst(keys, b) :: a == b
  {
    forall a, b | IsFirst(keys, a) && IsFirst(keys, b) ensures a == b {
      if a != b {
        LessTransitive(a, b, a);
        LessIrreflexive(a);
      }
    }
  }

  function First(keys: set<string>): (k: string)
    requires keys != {}
    ensures IsFirst(keys, k)
  {
    HasFirst(keys);
    FirstIsUnique(keys);
    var k :| k in keys && IsFirst(keys, k);
    k
  }

  function Sorted(keys: set<string>): seq<string> {
    if keys == {} then [] else var k := First(keys); [k] + Sorted(keys - {k})
  }

  /** Every key once, in increasing order. */
  lemma {:induction false} SortedListsKeys(keys: set<string>)
    ensures forall k :: k in Sorted(keys) <==> k in keys
    ensures |Sorted(keys)| == |keys|
    ensures forall i, j | 0 <= i < j < |Sorted(keys)| :: Less(Sorted(keys)[i], Sorted(keys)[j])
  {
    if keys != {} {
      var k := First(keys);
      SortedListsKeys(keys - {k});
      var rest := Sorted(keys - {k});
      forall j | 0 <= j < |rest| ensures Less(k, rest[j]) {
        assert rest[j] in rest;
      }
    }
  }
}
