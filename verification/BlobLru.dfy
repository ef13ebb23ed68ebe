/** The byte-bounded LRU cache of blob contents. */
module BlobLru {
  import opened Git
  import opened Recency
  import opened Sequences
  import opened GenIndex

  /** Payload bytes of the listed keys. */
  ghost function Bytes<K(!new)>(recency: seq<K>, held: map<K, seq<Byte>>): nat {
    if recency == [] then 0 else
    (if recency[0] in held then |held[recency[0]]| else 0) + Bytes(recency[1..], held)
  }

  /** How many of the oldest entries must go before `len` more bytes fit. */
  ghost function Victims<K(!new)>(recency: seq<K>, held: map<K, seq<Byte>>, len: nat, cap: nat): (n: nat)
    ensures n <= |recency|
  {
    if recency == [] || Bytes(recency, held) + len <= cap then 0
    else 1 + Victims(recency[1..], held, len, cap)
  }

  ghost function Restrict<K(!new), T>(m: map<K, T>, keys: seq<K>): map<K, T> {
    map k | k in m && k in keys :: m[k]
  }

  /** Everything a caller can observe of the cache. */
  datatype View<K> = View(
    recency: seq<K>, held: map<K, seq<Byte>>, hits: nat, inserts: nat, evictions: nat, skipped: nat)

  /** Configuration: total capacity and per-entry cap, both in bytes. */
  datatype Limits = Limits(capacity: nat, perEntry: nat)

  ghost predicate Coherent<K(!new)>(v: View<K>) {
    Distinct(v.recency) && Elements(v.recency) == v.held.Keys
  }

  ghost function Used<K(!new)>(v: View<K>): nat {
    Bytes(v.recency, v.held)
  }

  ghost function GetView<K(!new)>(v: View<K>, k: K): View<K> {
    if k !in v.held then v else v.(recency := Touched(v.recency, k), hits := v.hits + 1)
  }

  ghost function PutView<K(!new)>(v: View<K>, lim: Limits, k: K, payload: seq<Byte>): View<K> {
    if lim.capacity == 0 then v
    else if |payload| > lim.perEntry then v.(skipped := v.skipped + 1)
    else if k in v.held then
      v.(recency := Touched(v.recency, k), held := v.held[k := payload], inserts := v.inserts + 1)
    else
      var n := Victims(v.recency, v.held, |payload|, lim.capacity);
      var kept := v.recency[n..];
      var room := v.(recency := kept, held := Restrict(v.held, kept), evictions := v.evictions + n);
      if Bytes(kept, v.held) + |payload| <= lim.capacity then
        room.(recency := kept + [k], held := room.held[k := payload], inserts := v.inserts + 1)
      else room.(skipped := v.skipped + 1)
  }

  // ------------------------------------------------------------ byte counting

  lemma {:induction false} BytesAppend<K(!new)>(a: seq<K>, b: seq<K>, held: map<K, seq<Byte>>)
    ensures Bytes(a + b, held) == Bytes(a, held) + Bytes(b, held)
  {
    if a == [] {
      assert a + b == b;
    } else {
      assert (a + b)[1..] == a[1..] + b;
      BytesAppend(a[1..], b, held);
    }
  }

  lemma {:induction false} BytesFrame<K(!new)>(s: seq<K>, a: map<K, seq<Byte>>, b: map<K, seq<Byte>>)
    requires forall i | 0 <= i < |s| :: (s[i] in a <==> s[i] in b) && (s[i] in a ==> |a[s[i]]| == |b[s[i]]|)
    ensures Bytes(s, a) == Bytes(s, b)
  {
    if s != [] {
      BytesFrame(s[1..], a, b);
    }
  }

  lemma {:induction false} BytesWithout<K(!new)>(s: seq<K>, k: K, held: map<K, seq<Byte>>)
    requires Distinct(s) && k in s && k in held
    ensures Bytes(s, held) == Bytes(Without(s, k), held) + |held[k]|
  {
    if s[0] == k {
      assert k !in s[1..];
      WithoutDistinct(s[1..], k);
    } else {
      BytesWithout(s[1..], k, held);
      assert (([s[0]] + Without(s[1..], k)))[1..] == Without(s[1..], k);
    }
  }

  /** Moving `k` to the end and giving it `payload` changes the total by the difference. */
  lemma BytesTouched<K(!new)>(s: seq<K>, k: K, held: map<K, seq<Byte>>, payload: seq<Byte>)
    requires Distinct(s) && k in s && k in held
    ensures Bytes(Touched(s, k), held[k := payload]) == Bytes(s, held) - |held[k]| + |payload|
  {
    BytesWithout(s, k, held);
    var rest := Without(s, k);
    BytesAppend(rest, [k], held[k := payload]);
    assert Bytes([k], held[k := payload]) == |payload| + Bytes([], held[k := payload]);
    assert forall i | 0 <= i < |rest| :: rest[i] in rest;
    BytesFrame(rest, held, held[k := payload]);
  }

  /** The eviction count is the least one that makes room, or everything. */
  lemma {:induction false} VictimsAreFewest<K(!new)>(s: seq<K>, held: map<K, seq<Byte>>, len: nat, cap: nat)
    ensures var n := Victims(s, held, len, cap);
      && (Bytes(s[n..], held) + len <= cap || (n == |s| && len > cap))
      && (forall m | 0 <= m < n :: Bytes(s[m..], held) + len > cap)
  {
    if s != [] && Bytes(s, held) + len > cap {
      VictimsAreFewest(s[1..], held, len, cap);
      var n := Victims(s, held, len, cap);
      assert s[n..] == s[1..][n - 1..];
      forall m | 0 <= m < n ensures Bytes(s[m..], held) + len > cap {
        if m == 0 {
          assert s[m..] == s;
        } else {
          assert s[m..] == s[1..][m - 1..];
        }
      }
    }
  }

  // --------------------------------------------------------------- the views

  lemma SuffixCoherent<K(!new)>(v: View<K>, n: nat)
    requires Coherent(v) && n <= |v.recency|
    ensures Distinct(v.recency[n..])
    ensures Elements(v.recency[n..]) == Restrict(v.held, v.recency[n..]).Keys
    ensures Bytes(v.recency[n..], Restrict(v.held, v.recency[n..])) == Bytes(v.recency[n..], v.held)
  {
    var kept := v.recency[n..];
    forall k | k in kept ensures k in v.held {
      assert k in v.recency;
      assert k in Elements(v.recency);
    }
    assert Elements(kept) == Restrict(v.held, kept).Keys;
    assert forall i | 0 <= i < |kept| :: kept[i] in kept;
    BytesFrame(kept, Restrict(v.held, kept), v.held);
  }

  /** What `put` does to coherence and to the number of bytes used, case by case. */
  lemma PutUses<K(!new)>(v: View<K>, lim: Limits, k: K, payload: seq<Byte>)
    requires Coherent(v)
    ensures Coherent(PutView(v, lim, k, payload))
    ensures var w := PutView(v, lim, k, payload);
      if lim.capacity == 0 || |payload| > lim.perEntry then Used(w) == Used(v)
      else if k in v.held then Used(w) == Used(v) - |v.held[k]| + |payload|
      else Used(w) <= lim.capacity
  {
    var w := PutView(v, lim, k, payload);
    if lim.capacity == 0 || |payload| > lim.perEntry {
    } else if k in v.held {
      assert k in Elements(v.recency);
      TouchedDistinct(v.recency, k);
      BytesTouched(v.recency, k, v.held, payload);
      assert Elements(w.recency) == w.held.Keys;
    } else {
      var n := Victims(v.recency, v.held, |payload|, lim.capacity);
      VictimsAreFewest(v.recency, v.held, |payload|, lim.capacity);
      SuffixCoherent(v, n);
      var kept := v.recency[n..];
      if Bytes(kept, v.held) + |payload| <= lim.capacity {
        InsertUses(kept, Restrict(v.held, kept), k, payload);
      }
    }
  }

  lemma InsertUses<K(!new)>(kept: seq<K>, held: map<K, seq<Byte>>, k: K, payload: seq<Byte>)
    requires Distinct(kept) && Elements(kept) == held.Keys && k !in held
    ensures Distinct(kept + [k]) && Elements(kept + [k]) == held[k := payload].Keys
    ensures Bytes(kept + [k], held[k := payload]) == Bytes(kept, held) + |payload|
  {
    assert forall i | 0 <= i < |kept| :: kept[i] in Elements(kept);
    BytesAppend(kept, [k], held[k := payload]);
    assert Bytes([k], held[k := payload]) == |payload| + Bytes([], held[k := payload]);
    BytesFrame(kept, held, held[k := payload]);
  }

  /** The replace path, and only it, can exceed the budget: the guard a caller could
      check is whether the cached key's new length overflows what is in use. No relation
      between the per-entry cap and the capacity is needed. */
  lemma BudgetKeptIff<K(!new)>(v: View<K>, lim: Limits, k: K, payload: seq<Byte>)
    requires Coherent(v) && Used(v) <= lim.capacity
    ensures Used(PutView(v, lim, k, payload)) <= lim.capacity <==>
      !(lim.capacity > 0 && |payload| <= lim.perEntry && k in v.held
        && Used(v) - |v.held[k]| + |payload| > lim.capacity)
  {
    PutUses(v, lim, k, payload);
  }

  /** A concrete overflow of the type: capacity 4, a 1-byte blob replaced by a 5-byte one.
      In the program a name has one length, so no replacement grows. */
  lemma ReplaceCanOverflow(k: int, b: Byte)
    ensures var lim := Limits(4, 5);
      var v := PutView(View([], map[], 0, 0, 0, 0), lim, k, [b]);
      Used(v) <= lim.capacity && Used(PutView(v, lim, k, [b, b, b, b, b])) > lim.capacity
  {
    var lim := Limits(4, 5);
    var v0 := View([], map[], 0, 0, 0, 0);
    assert Coherent(v0);
    var v := PutView(v0, lim, k, [b]);
    PutUses(v0, lim, k, [b]);
    assert v.recency == [k] && v.held[k] == [b];
    assert Bytes([k], v.held) == 1 + Bytes([], v.held);
    BudgetKeptIff(v, lim, k, [b, b, b, b, b]);
  }

  /** Whether `put` stores the payload: caching is on, the payload passes the per-entry
      cap, and it fits the capacity or replaces a cached one. */
  ghost predicate Stores<K(!new)>(v: View<K>, lim: Limits, k: K, payload: seq<Byte>) {
    0 < lim.capacity && |payload| <= lim.perEntry && (k in v.held || |payload| <= lim.capacity)
  }

  /** After `put` a key is cached exactly when it was before or its payload was stored; it
      answers with that payload if so and with the old one if not. A new payload over
      the capacity but within the per-entry cap empties the cache, for limits that
      allow one. */
  lemma CachedAfterPutIff<K(!new)>(v: View<K>, lim: Limits, k: K, payload: seq<Byte>)
    requires Coherent(v)
    ensures var w := PutView(v, lim, k, payload);
      && (k in w.held <==> k in v.held || Stores(v, lim, k, payload))
      && (Stores(v, lim, k, payload) ==> w.held[k] == payload)
      && (k in v.held && !Stores(v, lim, k, payload) ==> w.held[k] == v.held[k])
    ensures k !in v.held && lim.capacity < |payload| <= lim.perEntry && lim.capacity > 0 ==>
      PutView(v, lim, k, payload).recency == []
  {
    VictimsAreFewest(v.recency, v.held, |payload|, lim.capacity);
    var n := Victims(v.recency, v.held, |payload|, lim.capacity);
    if n == |v.recency| {
      assert v.recency[n..] == [];
    }
  }

  /** The limits every object store is opened with. */
  const DEFAULT_CAPACITY_BYTES: nat := 16 * 1024 * 1024
  const DEFAULT_PER_ENTRY_MAX_BYTES: nat := 64 * 1024

  /** Under those limits each blob within the per-entry cap is stored, and a put of a new
      key never drops more than makes room for it. */
  lemma DefaultLimitsNeverFlush<K(!new)>(v: View<K>, k: K, payload: seq<Byte>)
    requires Coherent(v) && |payload| <= DEFAULT_PER_ENTRY_MAX_BYTES
    ensures var w := PutView(v, Limits(DEFAULT_CAPACITY_BYTES, DEFAULT_PER_ENTRY_MAX_BYTES), k, payload);
      && k in w.held && w.held[k] == payload
      && (k !in v.held ==> exists n :: 0 <= n <= |v.recency| && w.recency == v.recency[n..] + [k])
  {
    var lim := Limits(DEFAULT_CAPACITY_BYTES, DEFAULT_PER_ENTRY_MAX_BYTES);
    CachedAfterPutIff(v, lim, k, payload);
    var n := Victims(v.recency, v.held, |payload|, lim.capacity);
    if k !in v.held {
      VictimsAreFewest(v.recency, v.held, |payload|, lim.capacity);
      assert PutView(v, lim, k, payload).recency == v.recency[n..] + [k];
    }
  }

  // -------------------------------------------------------------- whole runs

  datatype Op<K> = Get(k: K) | Put(k: K, payload: seq<Byte>)

  ghost function RunOps<K(!new)>(v: View<K>, lim: Limits, ops: seq<Op<K>>): View<K>
    decreases |ops|
  {
    if ops == [] then v else
    RunOps(match ops[0] case Get(k) => GetView(v, k) case Put(k, p) => PutView(v, lim, k, p), lim, ops[1..])
  }

  /** Every cached blob and every blob put later has the length its name determines. */
  ghost predicate SizedBy<K(!new)>(v: View<K>, ops: seq<Op<K>>, size: K -> nat) {
    && (forall k | k in v.held :: |v.held[k]| == size(k))
    && (forall i | 0 <= i < |ops| && ops[i].Put? :: |ops[i].payload| == size(ops[i].k))
  }

  lemma GetUses<K(!new)>(v: View<K>, k: K)
    requires Coherent(v)
    ensures Coherent(GetView(v, k)) && Used(GetView(v, k)) == Used(v)
  {
    if k in v.held {
      assert k in Elements(v.recency);
      TouchedDistinct(v.recency, k);
      BytesTouched(v.recency, k, v.held, v.held[k]);
      assert v.held[k := v.held[k]] == v.held;
      assert Elements(Touched(v.recency, k)) == v.held.Keys;
    }
  }

  lemma OneOpSized<K(!new)>(v: View<K>, lim: Limits, ops: seq<Op<K>>, size: K -> nat)
    requires ops != [] && Coherent(v) && Used(v) <= lim.capacity && SizedBy(v, ops, size)
    ensures var w := match ops[0] case Get(k) => GetView(v, k) case Put(k, p) => PutView(v, lim, k, p);
      Coherent(w) && Used(w) <= lim.capacity && SizedBy(w, ops[1..], size)
  {
    hide Bytes, Touched, Victims;
    match ops[0] {
      case Get(k) => GetUses(v, k);
      case Put(k, p) =>
        assert ops[0].Put? && |p| == size(k);
        PutUses(v, lim, k, p);
    }
    assert forall i | 0 <= i < |ops| - 1 :: ops[1..][i] == ops[i + 1];
  }

  /** Blobs are named by their content, so one name has one length; then the budget
      holds after every sequence of reads and insertions, whatever the two limits are. */
  lemma {:induction false} BudgetHoldsForever<K(!new)>(v: View<K>, lim: Limits, ops: seq<Op<K>>, size: K -> nat)
    requires Coherent(v) && Used(v) <= lim.capacity
    requires SizedBy(v, ops, size)
    ensures Coherent(RunOps(v, lim, ops))
    ensures Used(RunOps(v, lim, ops)) <= lim.capacity
    decreases |ops|
  {
    if ops != [] {
      hide GetView, PutView, Bytes, SizedBy;
      var w := match ops[0] case Get(k) => GetView(v, k) case Put(k, p) => PutView(v, lim, k, p);
      OneOpSized(v, lim, ops, size);
      BudgetHoldsForever(w, lim, ops[1..], size);
    }
  }

  // ------------------------------------------------------- recency over a run

  ghost function Empty<K(!new)>(): View<K> {
    View([], map[], 0, 0, 0, 0)
  }

  /** The last operation of a run succeeded for `k`: a read that found it, or an insertion
      that stored it. */
  ghost predicate UsedLast<K(!new)>(lim: Limits, ops: seq<Op<K>>, k: K)
    requires ops != []
  {
    var n := |ops| - 1;
    var before := RunOps(Empty(), lim, ops[..n]);
    && ops[n].k == k
    && match ops[n]
       case Get(_) => k in before.held
       case Put(_, payload) => Stores(before, lim, k, payload)
  }

  /** The index of the last operation of a run that succeeded for `k`. */
  ghost function LastUsed<K(!new)>(lim: Limits, ops: seq<Op<K>>, k: K): int
    decreases |ops|
  {
    if ops == [] then -1 else
    var n := |ops| - 1;
    if UsedLast(lim, ops, k) then n else LastUsed(lim, ops[..n], k)
  }

  /** From least to most recently used, and everything in the list was used. */
  ghost predicate ByUse<K(!new)>(lim: Limits, ops: seq<Op<K>>, recency: seq<K>) {
    && (forall i | 0 <= i < |recency| :: 0 <= LastUsed(lim, ops, recency[i]) < |ops|)
    && (forall i, j | 0 <= i < j < |recency| :: LastUsed(lim, ops, recency[i]) < LastUsed(lim, ops, recency[j]))
  }

  lemma {:induction false} RunSnoc<K(!new)>(v: View<K>, lim: Limits, ops: seq<Op<K>>)
    requires ops != []
    ensures var n := |ops| - 1;
      var before := RunOps(v, lim, ops[..n]);
      RunOps(v, lim, ops) ==
        match ops[n] case Get(k) => GetView(before, k) case Put(k, p) => PutView(before, lim, k, p)
    decreases |ops|
  {
    hide GetView, PutView;
    var n := |ops| - 1;
    if n > 0 {
      var w := match ops[0] case Get(k) => GetView(v, k) case Put(k, p) => PutView(v, lim, k, p);
      assert ops[1..][..n - 1] == ops[..n][1..];
      RunSnoc(w, lim, ops[1..]);
    }
  }

  lemma {:induction false} RunIsCoherent<K(!new)>(lim: Limits, ops: seq<Op<K>>)
    ensures Coherent(RunOps(Empty(), lim, ops))
    decreases |ops|
  {
    hide GetView, PutView;
    if ops != [] {
      var n := |ops| - 1;
      RunIsCoherent(lim, ops[..n]);
      RunSnoc(Empty(), lim, ops);
      match ops[n] {
        case Get(k) => GetUses(RunOps(Empty(), lim, ops[..n]), k);
        case Put(k, p) => PutUses(RunOps(Empty(), lim, ops[..n]), lim, k, p);
      }
    }
  }

  /** One more operation leaves the last use of every other key alone. */
  lemma LastUsedMoves<K(!new)>(lim: Limits, ops: seq<Op<K>>, k: K)
    requires ops != []
    ensures LastUsed(lim, ops, k) == if UsedLast(lim, ops, k) then |ops| - 1 else LastUsed(lim, ops[..|ops| - 1], k)
    ensures ops[|ops| - 1].k != k ==> !UsedLast(lim, ops, k)
  {
  }

  /** Dropping keys from the front, or leaving one out, keeps the order. */
  lemma {:induction false} PartByUse<K(!new)>(lim: Limits, ops: seq<Op<K>>, recency: seq<K>, part: seq<K>)
    requires ops != [] && ByUse(lim, ops[..|ops| - 1], recency)
    requires forall x | x in part :: !UsedLast(lim, ops, x)
    requires Part(recency, part)
    ensures ByUse(lim, ops, part)
  {
    hide LastUsed, UsedLast;
    forall i | 0 <= i < |part| ensures LastUsed(lim, ops, part[i]) == LastUsed(lim, ops[..|ops| - 1], part[i]) {
      assert part[i] in part;
      LastUsedMoves(lim, ops, part[i]);
    }
    forall i | 0 <= i < |part| ensures 0 <= LastUsed(lim, ops, part[i]) < |ops| {
      assert part[i] in part && part[i] in recency;
      var a :| 0 <= a < |recency| && recency[a] == part[i];
    }
    forall i, j | 0 <= i < j < |part| ensures LastUsed(lim, ops, part[i]) < LastUsed(lim, ops, part[j]) {
      assert InOrder(recency, part[i], part[j]);
    }
  }

  ghost predicate InOrder<K(!new)>(s: seq<K>, x: K, y: K) {
    exists a, b :: 0 <= a < b < |s| && s[a] == x && s[b] == y
  }

  /** Some of a list's keys, in its order. */
  ghost predicate Part<K(!new)>(s: seq<K>, part: seq<K>) {
    && (forall x | x in part :: x in s)
    && (forall i, j | 0 <= i < j < |part| :: InOrder(s, part[i], part[j]))
  }

  lemma TailIsPart<K(!new)>(s: seq<K>, n: nat)
    requires n <= |s|
    ensures Part(s, s[n..])
  {
    forall i, j | 0 <= i < j < |s[n..]| ensures InOrder(s, s[n..][i], s[n..][j]) {
      assert s[n + i] == s[n..][i] && s[n + j] == s[n..][j];
    }
  }

  lemma {:induction false} WithoutIsPart<K(!new)>(s: seq<K>, k: K)
    ensures Part(s, Without(s, k)) && k !in Without(s, k)
  {
    if s != [] {
      WithoutIsPart(s[1..], k);
      var rest, all := Without(s[1..], k), Without(s, k);
      forall i, j | 0 <= i < j < |all| ensures InOrder(s, all[i], all[j]) {
        if s[0] == k {
          assert all == rest;
          LaterInOrder(s, all[i], all[j]);
        } else {
          assert all == [s[0]] + rest && all[j] == rest[j - 1];
          if i > 0 {
            assert InOrder(s[1..], rest[i - 1], rest[j - 1]);
            LaterInOrder(s, rest[i - 1], rest[j - 1]);
          } else {
            assert all[j] in s[1..];
            var b :| 0 <= b < |s[1..]| && s[1..][b] == all[j];
            assert s[b + 1] == all[j];
          }
        }
      }
    }
  }

  lemma LaterInOrder<K(!new)>(s: seq<K>, x: K, y: K)
    requires s != []
    ensures InOrder(s[1..], x, y) ==> InOrder(s, x, y)
  {
    if a, b :| 0 <= a < b < |s[1..]| && s[1..][a] == x && s[1..][b] == y {
      assert s[a + 1] == x && s[b + 1] == y;
    }
  }

  /** A key used last goes to the recent end. */
  lemma MostRecent<K(!new)>(lim: Limits, ops: seq<Op<K>>, recency: seq<K>, part: seq<K>, k: K)
    requires ops != [] && ByUse(lim, ops[..|ops| - 1], recency) && Part(recency, part)
    requires UsedLast(lim, ops, k) && k !in part
    ensures ByUse(lim, ops, part + [k])
  {
    hide LastUsed, UsedLast;
    var n := |ops| - 1;
    forall x | x in part ensures !UsedLast(lim, ops, x) {
      LastUsedMoves(lim, ops, x);
      LastUsedMoves(lim, ops, k);
      UsedIsOwnKey(lim, ops, k);
    }
    PartByUse(lim, ops, recency, part);
    LastUsedMoves(lim, ops, k);
    forall i | 0 <= i < |part| ensures LastUsed(lim, ops, part[i]) < n {
      assert part[i] in part;
      LastUsedMoves(lim, ops, part[i]);
      var a :| 0 <= a < |recency| && recency[a] == part[i];
    }
  }

  lemma UsedIsOwnKey<K(!new)>(lim: Limits, ops: seq<Op<K>>, k: K)
    requires ops != [] && UsedLast(lim, ops, k)
    ensures ops[|ops| - 1].k == k
  {
  }

  /** After any run of reads and insertions, from an empty cache and under any limits, the
      recency list is ordered by when each key was last read or stored successfully. */
  lemma {:induction false} RecencyIsByUse<K(!new)>(lim: Limits, ops: seq<Op<K>>)
    ensures ByUse(lim, ops, RunOps(Empty(), lim, ops).recency)
    decreases |ops|
  {
    hide Touched, Without, Victims, Restrict, ByUse, LastUsed, Part, RunOps;
    if ops == [] {
      NothingUsed(lim, ops);
    } else {
      var n := |ops| - 1;
      var before := RunOps(Empty(), lim, ops[..n]);
      RecencyIsByUse(lim, ops[..n]);
      RunSnoc(Empty(), lim, ops);
      var k := ops[n].k;
      TailIsPart(before.recency, 0);
      assert before.recency[0..] == before.recency;
      WithoutIsPart(before.recency, k);
      TouchedIs(before.recency, k);
      RunIsCoherent(lim, ops[..n]);
      if UsedLast(lim, ops, k) {
        if k in before.held {
          MostRecent(lim, ops, before.recency, Without(before.recency, k), k);
        } else {
          var m := Victims(before.recency, before.held, |ops[n].payload|, lim.capacity);
          VictimsAreFewest(before.recency, before.held, |ops[n].payload|, lim.capacity);
          TailIsPart(before.recency, m);
          HeldIsListed(before, k);
          MostRecent(lim, ops, before.recency, before.recency[m..], k);
        }
      } else {
        forall x ensures !UsedLast(lim, ops, x) {
          LastUsedMoves(lim, ops, x);
        }
        if ops[n].Put? {
          var m := Victims(before.recency, before.held, |ops[n].payload|, lim.capacity);
          VictimsAreFewest(before.recency, before.held, |ops[n].payload|, lim.capacity);
          TailIsPart(before.recency, m);
          PartByUse(lim, ops, before.recency, before.recency[m..]);
        }
        PartByUse(lim, ops, before.recency, before.recency);
      }
    }
  }

  lemma NothingUsed<K(!new)>(lim: Limits, ops: seq<Op<K>>)
    requires ops == []
    ensures ByUse(lim, ops, RunOps(Empty(), lim, ops).recency)
  {
  }

  lemma TouchedIs<K(!new)>(s: seq<K>, k: K)
    ensures Touched(s, k) == Without(s, k) + [k]
  {
  }

  lemma HeldIsListed<K(!new)>(v: View<K>, k: K)
    requires Coherent(v)
    ensures k in v.recency <==> k in v.held
  {
    assert k in Elements(v.recency) <==> k in v.recency;
  }

  /** What an insertion evicts, in any run, was last used before everything it keeps; a key
      inserted again evicts nothing. */
  lemma {:induction false} EvictsLeastRecent<K(!new)>(lim: Limits, ops: seq<Op<K>>, k: K, payload: seq<Byte>, out: K, kept: K)
    requires var before, after := RunOps(Empty(), lim, ops), RunOps(Empty(), lim, ops + [Put(k, payload)]);
      out in before.held && out !in after.held && kept in before.held && kept in after.held
    ensures LastUsed(lim, ops, out) < LastUsed(lim, ops, kept)
    ensures k !in RunOps(Empty(), lim, ops).held
  {
    hide Touched, Victims, LastUsed, RunOps;
    var before := RunOps(Empty(), lim, ops);
    var longer := ops + [Put(k, payload)];
    assert longer[..|ops|] == ops;
    RunSnoc(Empty(), lim, longer);
    RunIsCoherent(lim, ops);
    RecencyIsByUse(lim, ops);
    HeldIsListed(before, out);
    HeldIsListed(before, kept);
    var m := Victims(before.recency, before.held, |payload|, lim.capacity);
    var a :| 0 <= a < |before.recency| && before.recency[a] == out;
    var b :| 0 <= b < |before.recency| && before.recency[b] == kept;
    InTailIff(before.recency, m, a);
    InTailIff(before.recency, m, b);
  }

  /** The payload a run stored last for `k`. */
  ghost function Stored<K(!new)>(lim: Limits, ops: seq<Op<K>>, k: K): Option<seq<Byte>>
    decreases |ops|
  {
    if ops == [] then None else
    var n := |ops| - 1;
    if ops[n].Put? && UsedLast(lim, ops, k) then Some(ops[n].payload) else Stored(lim, ops[..n], k)
  }

  /** The successful reads of a run, or its successful insertions. */
  ghost function Successes<K(!new)>(lim: Limits, ops: seq<Op<K>>, gets: bool): nat
    decreases |ops|
  {
    if ops == [] then 0 else
    var n := |ops| - 1;
    Successes(lim, ops[..n], gets) + if ops[n].Get? == gets && UsedLast(lim, ops, ops[n].k) then 1 else 0
  }

  /** The insertions of a run that stored a key not cached at the time, or that were refused
      although caching is on. */
  ghost function Arrivals<K(!new)>(lim: Limits, ops: seq<Op<K>>): nat
    decreases |ops|
  {
    if ops == [] then 0 else
    var n := |ops| - 1;
    Arrivals(lim, ops[..n]) +
      if ops[n].Put? && UsedLast(lim, ops, ops[n].k) && ops[n].k !in RunOps(Empty(), lim, ops[..n]).held then 1 else 0
  }

  ghost function Refusals<K(!new)>(lim: Limits, ops: seq<Op<K>>): nat
    decreases |ops|
  {
    if ops == [] then 0 else
    var n := |ops| - 1;
    Refusals(lim, ops[..n]) + if ops[n].Put? && !UsedLast(lim, ops, ops[n].k) && lim.capacity > 0 then 1 else 0
  }

  /** After any run what is cached is what was stored last, and the counters are exact:
      successful reads and insertions, refusals, and evictions, which are all the keys that
      arrived and are no longer there. */
  lemma {:induction false} RunAnswers<K(!new)>(lim: Limits, ops: seq<Op<K>>)
    ensures var v := RunOps(Empty(), lim, ops);
      && v.hits == Successes(lim, ops, true) && v.inserts == Successes(lim, ops, false)
      && v.evictions + |v.recency| == Arrivals(lim, ops) && v.skipped == Refusals(lim, ops)
      && forall k | k in v.held :: Stored(lim, ops, k) == Some(v.held[k])
    decreases |ops|
  {
    hide Touched, Victims, Bytes;
    if ops != [] {
      var n := |ops| - 1;
      var before := RunOps(Empty(), lim, ops[..n]);
      RunAnswers(lim, ops[..n]);
      RunSnoc(Empty(), lim, ops);
      RunIsCoherent(lim, ops[..n]);
      if ops[n].Put? {
        CachedAfterPutIff(before, lim, ops[n].k, ops[n].payload);
        VictimsAreFewest(before.recency, before.held, |ops[n].payload|, lim.capacity);
        NothingOfNothing(before);
      }
      HeldIsListed(before, ops[n].k);
      WithoutDistinct(before.recency, ops[n].k);
      TouchedIs(before.recency, ops[n].k);
    }
  }

  lemma NothingOfNothing<K(!new)>(v: View<K>)
    ensures Bytes(v.recency[|v.recency|..], v.held) == 0
  {
  }

  lemma InTailIff<K(!new)>(s: seq<K>, m: nat, i: nat)
    requires Distinct(s) && m <= |s| && i < |s|
    ensures s[i] in s[m..] <==> m <= i
  {
    if m <= i {
      assert s[m..][i - m] == s[i];
    } else {
      forall j | 0 <= j < |s[m..]| ensures s[m..][j] != s[i] {
        assert s[m..][j] == s[m + j];
      }
    }
  }

  // ---------------------------------------------------------------- the cache

  class BlobLru<K(==, !new)> {
    const capacityBytes: nat
    const perEntryMaxBytes: nat
    var bytesUsed: nat
    var nextGen: nat
    var entries: map<K, Entry<seq<Byte>>>
    var order: map<nat, K>
    var hits: nat
    var misses: nat
    var inserts: nat
    var evictions: nat
    var skippedTooLarge: nat

    /** Every read and insertion since the cache was made. */
    ghost var log: seq<Op<K>>

    ghost predicate Valid()
      reads this
    {
      Indexed(entries, order, nextGen) && bytesUsed == Bytes(ByGen(order), Payloads(entries))
    }

    ghost function Contents(): View<K>
      reads this
    {
      View(ByGen(order), Payloads(entries), hits, inserts, evictions, skippedTooLarge)
    }

    /** The cache is what its log makes of an empty one. */
    ghost predicate Logged()
      reads this
    {
      Contents() == RunOps(Empty(), Bounds(), log)
    }

    /** So at any time its list is in the order of last use. */
    lemma InOrderOfUse()
      requires Logged()
      ensures ByUse(Bounds(), log, Contents().recency)
    {
      RecencyIsByUse(Bounds(), log);
    }

    lemma OneMoreLogged(before: View<K>, ops: seq<Op<K>>, op: Op<K>)
      requires before == RunOps(Empty(), Bounds(), ops)
      ensures RunOps(Empty(), Bounds(), ops + [op]) ==
        match op case Get(k) => GetView(before, k) case Put(k, p) => PutView(before, Bounds(), k, p)
    {
      hide GetView, PutView;
      RunSnoc(Empty(), Bounds(), ops + [op]);
      assert (ops + [op])[..|ops|] == ops;
    }

    ghost function Bounds(): Limits {
      Limits(capacityBytes, perEntryMaxBytes)
    }

    constructor (capacityBytes: nat, perEntryMaxBytes: nat)
      ensures Valid() && Contents() == View([], map[], 0, 0, 0, 0)
      ensures Bounds() == Limits(capacityBytes, perEntryMaxBytes) && log == [] && Logged()
    {
      this.capacityBytes, this.perEntryMaxBytes := capacityBytes, perEntryMaxBytes;
      bytesUsed, nextGen, hits, misses, inserts, evictions, skippedTooLarge := 0, 0, 0, 0, 0, 0, 0;
      entries, order, log := map[], map[], [];
    }

    /** The running counter is the exact payload total of a well-formed view. */
    lemma Accounted()
      requires Valid()
      ensures Coherent(Contents()) && Used(Contents()) == bytesUsed
      ensures |order| == |ByGen(order)| && Payloads(entries).Keys == entries.Keys
    {
      IndexedSizes(entries, order, nextGen);
    }

    method Get(oid: K) returns (r: Option<seq<Byte>>)
      requires Valid()
      modifies this
      ensures Valid() && Contents() == GetView(old(Contents()), oid)
      ensures log == old(log) + [Op.Get(oid)] && (old(Logged()) ==> Logged())
      ensures r == if oid in old(Contents()).held then Some(old(Contents()).held[oid]) else None
      ensures misses == old(misses)
    {
      hide ByGen, Touched, Without, Indexed, RunOps;
      if Logged() {
        OneMoreLogged(Contents(), log, Op.Get(oid));
      }
      log := log + [Op.Get(oid)];
      if oid !in entries {
        return None;
      }
      var entry := entries[oid];
      Restamp(oid, entry.payload);
      hits := hits + 1;
      r := Some(entry.payload);
      assert Payloads(entries) == old(Payloads(entries));
    }

    /** Give a cached key a fresh generation and `payload`, adjusting the byte count. */
    method Restamp(oid: K, payload: seq<Byte>)
      requires Valid() && oid in entries
      modifies this`order, this`nextGen, this`entries, this`bytesUsed
      ensures Valid()
      ensures Contents() == old(Contents()).(recency := Touched(old(Contents()).recency, oid),
                                             held := old(Contents()).held[oid := payload])
    {
      hide ByGen, Touched, Without, Indexed, Bytes;
      Accounted();
      assert oid in Elements(ByGen(order));
      BytesTouched(ByGen(order), oid, Payloads(entries), payload);
      PromoteKeepsIndex(entries, order, nextGen, oid, payload);
      var oldLen := |entries[oid].payload|;
      order := Drop(order, entries[oid].generation);
      nextGen := nextGen + 1;
      order := order[nextGen := oid];
      entries := entries[oid := Entry(payload, nextGen)];
      bytesUsed := bytesUsed - oldLen + |payload|;
    }

    method Put(oid: K, payload: seq<Byte>)
      requires Valid()
      modifies this
      ensures Valid() && Contents() == PutView(old(Contents()), Bounds(), oid, payload)
      ensures log == old(log) + [Op.Put(oid, payload)] && (old(Logged()) ==> Logged())
      ensures misses == old(misses)
    {
      hide ByGen, Touched, Without, Indexed, Bytes, Victims, Restrict, RunOps;
      if Logged() {
        OneMoreLogged(Contents(), log, Op.Put(oid, payload));
      }
      log := log + [Op.Put(oid, payload)];
      if capacityBytes == 0 {
        return;
      }
      if |payload| > perEntryMaxBytes {
        skippedTooLarge := skippedTooLarge + 1;
        return;
      }
      if oid in entries {
        Restamp(oid, payload);
        inserts := inserts + 1;
        return;
      }
      var fits := MakeRoom(oid, |payload|);
      if !fits {
        skippedTooLarge := skippedTooLarge + 1;
        return;
      }
      Insert(oid, payload);
      inserts := inserts + 1;
    }

    /** The eviction loop: drop the oldest entries until the new payload fits, or report
        that it cannot fit even an empty cache. */
    method MakeRoom(ghost oid: K, len: nat) returns (fits: bool)
      requires Valid() && oid !in entries
      modifies this`order, this`entries, this`bytesUsed, this`evictions
      ensures Valid() && oid !in entries
      ensures var v := old(Contents());
        var n := Victims(v.recency, v.held, len, capacityBytes);
        && Contents() == v.(recency := v.recency[n..], held := Restrict(v.held, v.recency[n..]),
                            evictions := v.evictions + n)
        && fits == (Bytes(v.recency[n..], v.held) + len <= capacityBytes)
    {
      hide ByGen, Touched, Without, Indexed, Bytes, Victims, Restrict;
      ghost var v := Contents();
      ghost var total := Victims(v.recency, v.held, len, capacityBytes);
      ghost var n := 0;
      Accounted();
      SuffixCoherent(v, 0);
      assert v.recency[0..] == v.recency;
      RestrictAll(v);
      while bytesUsed + len > capacityBytes
        invariant Valid() && oid !in Payloads(entries) && n <= total <= |v.recency|
        invariant n + Victims(v.recency[n..], v.held, len, capacityBytes) == total
        invariant Contents() == v.(recency := v.recency[n..], held := Restrict(v.held, v.recency[n..]),
                                   evictions := v.evictions + n)
        invariant bytesUsed == Bytes(v.recency[n..], v.held)
        decreases |v.recency| - n
      {
        Accounted();
        NextVictim(v.recency[n..], v.held, len, capacityBytes);
        if order == map[] {
          return false;
        }
        DropOldest();
        n := n + 1;
        assert v.recency[n - 1..][1..] == v.recency[n..];
        SuffixCoherent(v, n);
        RestrictTail(v, n);
      }
      NextVictim(v.recency[n..], v.held, len, capacityBytes);
      return true;
    }

    /** One turn of the loop: the smallest generation names the victim. */
    method DropOldest()
      requires Valid() && order != map[]
      modifies this`order, this`entries, this`bytesUsed, this`evictions
      ensures Valid() && old(ByGen(order)) == [old(ByGen(order))[0]] + ByGen(order)
      ensures Payloads(entries) == Forget(old(Payloads(entries)), old(ByGen(order))[0])
      ensures evictions == old(evictions) + 1
    {
      hide ByGen, Touched, Without, Bytes, Indexed, Payloads;
      var oldest := Oldest();
      var victim := order[oldest];
      DropAccounts(oldest);
      order := Drop(order, oldest);
      bytesUsed := bytesUsed - |entries[victim].payload|;
      entries := Forget(entries, victim);
      evictions := evictions + 1;
    }

    /** The smallest key of the index. */
    method Oldest() returns (oldest: nat)
      requires order != map[]
      ensures IsMin(order, oldest)
    {
      HasMin(order);
      oldest :| oldest in order && forall g | g in order :: oldest <= g;
    }

    lemma DropAccounts(oldest: nat)
      requires Valid() && IsMin(order, oldest)
      ensures oldest in order && order[oldest] in entries
      ensures var k := order[oldest];
        && Indexed(Forget(entries, k), Drop(order, oldest), nextGen)
        && ByGen(order) == [k] + ByGen(Drop(order, oldest))
        && Payloads(Forget(entries, k)) == Forget(Payloads(entries), k)
        && bytesUsed == |entries[k].payload| + Bytes(ByGen(Drop(order, oldest)), Forget(Payloads(entries), k))
    {
      hide ByGen, Touched, Without, Bytes;
      EvictKeepsIndex(entries, order, nextGen, oldest);
      Accounted();
      HeadBytes(Contents());
      PayloadsForget(entries, order[oldest]);
    }

    method Insert(oid: K, payload: seq<Byte>)
      requires Valid() && oid !in entries
      modifies this`order, this`nextGen, this`entries, this`bytesUsed
      ensures Valid()
      ensures Contents() == old(Contents()).(recency := old(Contents()).recency + [oid],
                                             held := old(Contents()).held[oid := payload])
    {
      hide ByGen, Touched, Without, Indexed, Bytes;
      Accounted();
      InsertUses(ByGen(order), Payloads(entries), oid, payload);
      InsertKeepsIndex(entries, order, nextGen, oid, payload);
      nextGen := nextGen + 1;
      order := order[nextGen := oid];
      entries := entries[oid := Entry(payload, nextGen)];
      bytesUsed := bytesUsed + |payload|;
    }

    method RecordMiss()
      modifies this`misses
      ensures misses == old(misses) + 1
    {
      misses := misses + 1;
    }
  }

  lemma NextVictim<K(!new)>(s: seq<K>, held: map<K, seq<Byte>>, len: nat, cap: nat)
    ensures Victims(s, held, len, cap) ==
      if s == [] || Bytes(s, held) + len <= cap then 0 else 1 + Victims(s[1..], held, len, cap)
  {
  }

  lemma RestrictAll<K(!new)>(v: View<K>)
    requires Coherent(v)
    ensures Restrict(v.held, v.recency) == v.held
  {
    assert forall k | k in v.held :: k in Elements(v.recency);
  }

  lemma RestrictTail<K(!new)>(v: View<K>, n: nat)
    requires Coherent(v) && 0 < n <= |v.recency|
    ensures Forget(Restrict(v.held, v.recency[n - 1..]), v.recency[n - 1]) == Restrict(v.held, v.recency[n..])
  {
    var a, b := v.recency[n - 1..], v.recency[n..];
    assert a == [v.recency[n - 1]] + b;
    assert v.recency[n - 1] !in b;
  }

  lemma HeadBytes<K(!new)>(v: View<K>)
    requires Coherent(v) && v.recency != []
    ensures v.recency[0] in v.held
    ensures var k := v.recency[0]; Used(v) == |v.held[k]| + Bytes(v.recency[1..], Forget(v.held, k))
  {
    var k := v.recency[0];
    assert k in Elements(v.recency);
    var rest := v.recency[1..];
    assert forall i | 0 <= i < |rest| :: rest[i] == v.recency[i + 1] && rest[i] in Elements(v.recency);
    BytesFrame(rest, v.held, Forget(v.held, k));
  }
}
