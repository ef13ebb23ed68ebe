/** Recency lists: what an LRU cache is meant to be, and what that implies. A list runs
    from least to most recently used. */
module Recency {
  import opened Sequences

  function Without<K(==, !new)>(s: seq<K>, k: K): (r: seq<K>)
    ensures |r| <= |s|
    ensures forall x :: x in r <==> x in s && x != k
  {
    if s == [] then [] else
    if s[0] == k then Without(s[1..], k) else [s[0]] + Without(s[1..], k)
  }

  /** `k` becomes the most recently used key. */
  function Touched<K(==, !new)>(s: seq<K>, k: K): (r: seq<K>)
    ensures forall x :: x in r <==> x in s || x == k
  {
    Without(s, k) + [k]
  }

  function LastN<K>(s: seq<K>, n: nat): seq<K> {
    if |s| <= n then s else s[|s| - n..]
  }

  /** A read through a cache of capacity `cap`: a hit promotes, a miss fetches and
      inserts; capacity zero caches nothing. */
  function Accessed<K(==, !new)>(s: seq<K>, cap: nat, k: K): seq<K> {
    if cap == 0 then s else LastN(Touched(s, k), cap)
  }

  /** Cache contents after a trace of reads, most recent read last. */
  function CacheAfter<K(==, !new)>(cap: nat, trace: seq<K>): seq<K> {
    if trace == [] then [] else Accessed(CacheAfter(cap, trace[..|trace| - 1]), cap, trace[|trace| - 1])
  }

  /** All keys of the trace in order of their last use. */
  function ByLastUse<K(==, !new)>(trace: seq<K>): seq<K> {
    if trace == [] then [] else Touched(ByLastUse(trace[..|trace| - 1]), trace[|trace| - 1])
  }

  // ------------------------------------------------------------------ lists

  lemma {:induction false} WithoutDistinct<K(!new)>(s: seq<K>, k: K)
    requires Distinct(s)
    ensures Distinct(Without(s, k))
    ensures k in s ==> |Without(s, k)| == |s| - 1
    ensures k !in s ==> Without(s, k) == s
  {
    if s != [] {
      assert s == [s[0]] + s[1..];
      WithoutDistinct(s[1..], k);
      var w := Without(s[1..], k);
      forall j | 0 <= j < |w| ensures w[j] != s[0] {
        assert w[j] in s[1..];
      }
    }
  }

  lemma {:induction false} WithoutAppend<K(!new)>(s: seq<K>, t: seq<K>, k: K)
    ensures Without(s + t, k) == Without(s, k) + Without(t, k)
  {
    if s == [] {
      assert s + t == t;
    } else {
      assert (s + t)[1..] == s[1..] + t;
      WithoutAppend(s[1..], t, k);
    }
  }

  lemma TouchedDistinct<K(!new)>(s: seq<K>, k: K)
    requires Distinct(s)
    ensures Distinct(Touched(s, k))
    ensures |Touched(s, k)| == if k in s then |s| else |s| + 1
  {
    WithoutDistinct(s, k);
  }

  lemma TouchedNew<K(!new)>(s: seq<K>, k: K)
    requires Distinct(s) && k !in s
    ensures Touched(s, k) == s + [k]
  {
    WithoutDistinct(s, k);
  }

  lemma {:induction false} ByLastUseDistinct<K(!new)>(trace: seq<K>)
    ensures Distinct(ByLastUse(trace))
    ensures forall x :: x in ByLastUse(trace) <==> x in trace
  {
    if trace != [] {
      var init := trace[..|trace| - 1];
      assert trace == init + [trace[|trace| - 1]];
      ByLastUseDistinct(init);
      TouchedDistinct(ByLastUse(init), trace[|trace| - 1]);
    }
  }

  // -------------------------------------------------------- the stack property

  lemma LastNAppend<K(!new)>(x: seq<K>, y: seq<K>, n: nat)
    requires n <= |y|
    ensures LastN(x + y, n) == LastN(y, n)
  {
  }

  /** Touching commutes with keeping the last `cap` keys. */
  lemma {:induction false} TouchLastN<K(!new)>(s: seq<K>, cap: nat, k: K)
    requires Distinct(s)
    ensures LastN(Touched(LastN(s, cap), k), cap) == LastN(Touched(s, k), cap)
  {
    if |s| > cap {
      var d := s[..|s| - cap];
      var e := s[|s| - cap..];
      assert s == d + e;
      WithoutAppend(d, e, k);
      TouchedDistinct(e, k);
      assert Touched(s, k) == Without(d, k) + Touched(e, k);
      LastNAppend(Without(d, k), Touched(e, k), cap);
    }
  }

  /** A cache of capacity `cap` holds exactly the last `cap` keys by last use. */
  lemma {:induction false} CacheIsStackPrefix<K(!new)>(cap: nat, trace: seq<K>)
    ensures CacheAfter(cap, trace) == LastN(ByLastUse(trace), cap)
  {
    if trace != [] {
      var init := trace[..|trace| - 1];
      CacheIsStackPrefix(cap, init);
      ByLastUseDistinct(init);
      TouchLastN(ByLastUse(init), cap, trace[|trace| - 1]);
    }
  }

  /** Inclusion: what a smaller cache holds, a larger one holds too, so a hit in the
      smaller is a hit in the larger. */
  lemma {:induction false} SmallerIsIncluded<K(!new)>(small: nat, large: nat, trace: seq<K>, k: K)
    requires small <= large
    requires k in CacheAfter(small, trace)
    ensures k in CacheAfter(large, trace)
  {
    hide CacheAfter, ByLastUse;
    CacheIsStackPrefix(small, trace);
    CacheIsStackPrefix(large, trace);
    var all := ByLastUse(trace);
    var i :| 0 <= i < |LastN(all, small)| && LastN(all, small)[i] == k;
    var j := if |all| <= large then i + |all| - |LastN(all, small)| else i + large - small;
    assert LastN(all, large)[j] == k;
  }

  /** Number of reads in the trace answered from the cache. */
  function Hits<K(==, !new)>(cap: nat, trace: seq<K>): nat {
    if trace == [] then 0 else
    var init := trace[..|trace| - 1];
    Hits(cap, init) + if trace[|trace| - 1] in CacheAfter(cap, init) then 1 else 0
  }

  lemma {:induction false} HitsAreMonotone<K(!new)>(small: nat, large: nat, trace: seq<K>)
    requires small <= large
    ensures Hits(small, trace) <= Hits(large, trace)
  {
    if trace != [] {
      var init := trace[..|trace| - 1];
      HitsAreMonotone(small, large, init);
      if trace[|trace| - 1] in CacheAfter(small, init) {
        SmallerIsIncluded(small, large, init, trace[|trace| - 1]);
      }
    }
  }

  // ------------------------------------------------- membership by reuse distance

  /** Distinct keys read since the last read of `k`. */
  ghost function ReuseDistance<K(!new)>(trace: seq<K>, k: K): set<K>
    requires k in trace
  {
    var last := trace[|trace| - 1];
    if last == k then {} else
    assert trace == trace[..|trace| - 1] + [last];
    ReuseDistance(trace[..|trace| - 1], k) + {last}
  }

  lemma {:induction false} WithoutLastStays<K(!new)>(s: seq<K>, k: K)
    requires s != [] && s[|s| - 1] != k
    ensures Without(s, k) != [] && Without(s, k)[|Without(s, k)| - 1] == s[|s| - 1]
  {
    var n := |s| - 1;
    assert s == s[..n] + [s[n]];
    WithoutAppend(s[..n], [s[n]], k);
  }

  /** Touching another key leaves `before[j]` in front of what was behind it. */
  lemma {:induction false} TouchKeepsOrder<K(!new)>(before: seq<K>, j: nat, last: K) returns (h: nat)
    requires j < |before| && before[j] != last
    ensures h < |Touched(before, last)| && Touched(before, last)[h] == before[j]
    ensures Touched(before, last)[h + 1..] == Touched(before[j + 1..], last)
  {
    var a, b := before[..j + 1], before[j + 1..];
    assert before == a + b;
    WithoutAppend(a, b, last);
    WithoutLastStays(a, last);
    h := |Without(a, last)| - 1;
    assert Touched(before, last) == Without(a, last) + Touched(b, last);
  }

  /** The keys behind `k` in the recency list are those read since `k` was. */
  lemma {:induction false} BehindIsReuse<K(!new)>(trace: seq<K>, k: K) returns (i: nat)
    requires k in trace
    ensures i < |ByLastUse(trace)| && ByLastUse(trace)[i] == k
    ensures Elements(ByLastUse(trace)[i + 1..]) == ReuseDistance(trace, k)
  {
    var n := |trace| - 1;
    var init, last := trace[..n], trace[n];
    assert trace == init + [last];
    if last == k {
      i := |ByLastUse(trace)| - 1;
    } else {
      var j := BehindIsReuse(init, k);
      i := TouchKeepsOrder(ByLastUse(init), j, last);
    }
  }

  lemma HeldByPosition<K(!new)>(all: seq<K>, n: nat, i: nat)
    requires Distinct(all) && i < |all|
    ensures all[i] in LastN(all, n) <==> |all| - 1 - i < n
  {
    var held := LastN(all, n);
    var from := |all| - |held|;
    if i >= from {
      assert held[i - from] == all[i];
    } else {
      forall j | 0 <= j < |held| ensures held[j] != all[i] {
        assert held[j] == all[from + j];
      }
    }
  }

  /** After any trace of reads, a cache of capacity `cap` holds a key exactly when
      fewer than `cap` distinct other keys were read since that key last was. */
  lemma {:induction false} HeldIffRecent<K(!new)>(cap: nat, trace: seq<K>, k: K)
    ensures k in CacheAfter(cap, trace) <==> k in trace && |ReuseDistance(trace, k)| < cap
  {
    CacheIsStackPrefix(cap, trace);
    ByLastUseDistinct(trace);
    var all := ByLastUse(trace);
    if k in trace {
      var i := BehindIsReuse(trace, k);
      DistinctCount(all[i + 1..]);
      HeldByPosition(all, cap, i);
    } else {
      assert forall x :: x in LastN(all, cap) ==> x in all;
    }
  }
}
