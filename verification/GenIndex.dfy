/** The generation index shared by the three LRU caches: `order` maps the generation of
    a key's last use to the key, and the recency list is its values by rising generation. */
module GenIndex {
  import opened Recency
  import opened Sequences

  function Drop<K>(order: map<nat, K>, gen: nat): map<nat, K> {
    map g | g in order && g != gen :: order[g]
  }

  function Forget<K, T>(m: map<K, T>, k: K): map<K, T> {
    map x | x in m && x != k :: m[x]
  }

  ghost predicate Injective<K(!new)>(order: map<nat, K>) {
    forall g, h | g in order && h in order && order[g] == order[h] :: g == h
  }

  ghost predicate IsMin<K>(order: map<nat, K>, g: nat) {
    g in order && forall h | h in order :: g <= h
  }

  lemma {:induction false} HasMin<K(!new)>(order: map<nat, K>)
    requires order != map[]
    ensures exists g :: IsMin(order, g)
  {
    var any :| any in order;
    var rest := Drop(order, any);
    if rest == map[] {
      assert forall h | h in order :: h == any by {
        forall h | h in order ensures h == any {
          assert h != any ==> h in rest;
        }
      }
      assert IsMin(order, any);
    } else {
      assert |rest.Keys| < |order.Keys| by {
        assert rest.Keys == order.Keys - {any};
      }
      HasMin(rest);
      var m :| IsMin(rest, m);
      assert IsMin(order, if m <= any then m else any) by {
        forall h | h in order ensures (if m <= any then m else any) <= h {
          assert h != any ==> h in rest;
        }
      }
    }
  }

  ghost function MinGen<K(!new)>(order: map<nat, K>): (g: nat)
    requires order != map[]
    ensures IsMin(order, g)
  {
    HasMin(order);
    var g :| IsMin(order, g);
    g
  }

  lemma DropShrinks<K(!new)>(order: map<nat, K>, g: nat)
    requires g in order
    ensures |Drop(order, g)| == |order| - 1
  {
    assert Drop(order, g).Keys == order.Keys - {g};
  }

  /** The keys from least to most recently used. */
  ghost function ByGen<K(!new)>(order: map<nat, K>): (r: seq<K>)
    ensures |r| == |order|
    decreases |order|
  {
    if order == map[] then [] else
    var g := MinGen(order);
    DropShrinks(order, g);
    [order[g]] + ByGen(Drop(order, g))
  }

  lemma {:induction false} ByGenElements<K(!new)>(order: map<nat, K>, x: K)
    ensures x in ByGen(order) <==> exists g :: g in order && order[g] == x
    decreases |order|
  {
    if order != map[] {
      var m := MinGen(order);
      DropShrinks(order, m);
      ByGenElements(Drop(order, m), x);
      if g :| g in order && order[g] == x {
        assert g != m ==> g in Drop(order, m) && Drop(order, m)[g] == x;
      }
    }
  }

  lemma {:induction false} ByGenDistinct<K(!new)>(order: map<nat, K>)
    requires Injective(order)
    ensures Distinct(ByGen(order))
    decreases |order|
  {
    if order != map[] {
      var m := MinGen(order);
      DropShrinks(order, m);
      ByGenDistinct(Drop(order, m));
      ByGenElements(Drop(order, m), order[m]);
      var rest := ByGen(Drop(order, m));
      assert order[m] !in rest;
      assert forall j | 0 <= j < |rest| :: rest[j] in rest;
    }
  }

  /** A key stored under a fresh, larger generation becomes the most recently used. */
  lemma {:induction false} ByGenAdd<K(!new)>(order: map<nat, K>, g: nat, k: K)
    requires forall h | h in order :: h < g
    ensures ByGen(order[g := k]) == ByGen(order) + [k]
    decreases |order|
  {
    var bigger := order[g := k];
    var m := MinGen(bigger);
    if order == map[] {
      assert m == g;
      assert Drop(bigger, m) == map[];
    } else {
      var n := MinGen(order);
      assert n in bigger;
      assert m in order && m == n;
      DropShrinks(order, m);
      assert Drop(bigger, m) == Drop(order, m)[g := k];
      ByGenAdd(Drop(order, m), g, k);
    }
  }

  /** Dropping a generation removes its key from the list. */
  lemma {:induction false} ByGenDrop<K(!new)>(order: map<nat, K>, g: nat)
    requires Injective(order) && g in order
    ensures ByGen(Drop(order, g)) == Without(ByGen(order), order[g])
    decreases |order|
  {
    var m := MinGen(order);
    DropShrinks(order, m);
    if m != g {
      var smaller := Drop(order, g);
      assert m in smaller;
      assert MinGen(smaller) == m;
      assert Drop(smaller, m) == Drop(Drop(order, m), g);
      ByGenDrop(Drop(order, m), g);
    } else {
      ByGenDistinct(Drop(order, g));
      ByGenElements(Drop(order, g), order[g]);
      WithoutDistinct(ByGen(Drop(order, g)), order[g]);
      assert ByGen(order)[1..] == ByGen(Drop(order, g));
    }
  }

  datatype Entry<+V> = Entry(payload: V, generation: nat)

  /** Entries and index are inverse to each other and no generation is in the future. */
  ghost predicate Indexed<K(!new), V>(entries: map<K, Entry<V>>, order: map<nat, K>, nextGen: nat) {
    && (forall k | k in entries ::
          && entries[k].generation <= nextGen
          && entries[k].generation in order && order[entries[k].generation] == k)
    && (forall g | g in order :: order[g] in entries && entries[order[g]].generation == g)
  }

  lemma IndexedSizes<K(!new), V>(entries: map<K, Entry<V>>, order: map<nat, K>, nextGen: nat)
    requires Indexed(entries, order, nextGen)
    ensures Injective(order)
    ensures Distinct(ByGen(order))
    ensures Elements(ByGen(order)) == entries.Keys
    ensures |entries| == |order|
  {
    assert Injective(order);
    ByGenDistinct(order);
    forall k ensures k in ByGen(order) <==> k in entries {
      ByGenElements(order, k);
    }
    DistinctCount(ByGen(order));
    assert Elements(ByGen(order)) == entries.Keys;
  }

  lemma PromoteOrder<K(!new)>(order: map<nat, K>, was: nat, g: nat)
    requires Injective(order) && was in order
    requires forall h | h in order :: h < g
    ensures ByGen(Drop(order, was)[g := order[was]]) == Touched(ByGen(order), order[was])
    ensures |Drop(order, was)[g := order[was]]| == |order|
  {
    ByGenDrop(order, was);
    ByGenAdd(Drop(order, was), g, order[was]);
    DropShrinks(order, was);
  }

  lemma InsertOrder<K(!new)>(order: map<nat, K>, g: nat, k: K)
    requires Injective(order) && k !in order.Values
    requires forall h | h in order :: h < g
    ensures ByGen(order[g := k]) == ByGen(order) + [k] == Touched(ByGen(order), k)
  {
    ByGenAdd(order, g, k);
    ByGenElements(order, k);
    ByGenDistinct(order);
    WithoutDistinct(ByGen(order), k);
  }

  lemma PromoteIndex<K(!new), V>(entries: map<K, Entry<V>>, order: map<nat, K>, nextGen: nat, k: K, v: V)
    requires Indexed(entries, order, nextGen) && k in entries
    ensures Indexed(entries[k := Entry(v, nextGen + 1)], Drop(order, entries[k].generation)[nextGen + 1 := k], nextGen + 1)
    ensures Injective(order) && entries[k].generation in order && order[entries[k].generation] == k
    ensures forall h | h in order :: h < nextGen + 1
  {
  }

  lemma InsertIndex<K(!new), V>(entries: map<K, Entry<V>>, order: map<nat, K>, nextGen: nat, k: K, v: V)
    requires Indexed(entries, order, nextGen) && k !in entries
    ensures Indexed(entries[k := Entry(v, nextGen + 1)], order[nextGen + 1 := k], nextGen + 1)
    ensures Injective(order) && k !in order.Values
    ensures forall h | h in order :: h < nextGen + 1
  {
  }

  ghost function Payloads<K(!new), V>(entries: map<K, Entry<V>>): map<K, V> {
    map k | k in entries :: entries[k].payload
  }

  lemma PayloadsForget<K(!new), V>(entries: map<K, Entry<V>>, k: K)
    ensures Payloads(Forget(entries, k)) == Forget(Payloads(entries), k)
  {
  }

  lemma PayloadsStamp<K(!new), V>(entries: map<K, Entry<V>>, k: K, v: V, g: nat)
    ensures Payloads(entries[k := Entry(v, g)]) == Payloads(entries)[k := v]
  {
  }

  lemma StampGrows<K(!new)>(order: map<nat, K>, g: nat, k: K)
    requires forall h | h in order :: h < g
    ensures |order[g := k]| == |order| + 1
  {
    assert order[g := k].Keys == order.Keys + {g} && g !in order.Keys;
  }

  /** Restamping a cached key: `get` on a hit, `put` on a key already cached. */
  lemma PromoteKeepsIndex<K(!new), V>(entries: map<K, Entry<V>>, order: map<nat, K>, nextGen: nat, k: K, v: V)
    requires Indexed(entries, order, nextGen) && k in entries
    ensures var entries', order' := entries[k := Entry(v, nextGen + 1)], Drop(order, entries[k].generation)[nextGen + 1 := k];
      && Indexed(entries', order', nextGen + 1)
      && ByGen(order') == Touched(ByGen(order), k)
      && |order'| == |order|
      && Payloads(entries') == Payloads(entries)[k := v]
  {
    hide ByGen, Touched, Indexed, Payloads, Injective;
    PayloadsStamp(entries, k, v, nextGen + 1);
    PromoteIndex(entries, order, nextGen, k, v);
    PromoteOrder(order, entries[k].generation, nextGen + 1);
  }

  /** Stamping a new key. */
  lemma InsertKeepsIndex<K(!new), V>(entries: map<K, Entry<V>>, order: map<nat, K>, nextGen: nat, k: K, v: V)
    requires Indexed(entries, order, nextGen) && k !in entries
    ensures var entries', order' := entries[k := Entry(v, nextGen + 1)], order[nextGen + 1 := k];
      && Indexed(entries', order', nextGen + 1)
      && ByGen(order') == ByGen(order) + [k] == Touched(ByGen(order), k)
      && |order'| == |order| + 1
      && Payloads(entries') == Payloads(entries)[k := v]
  {
    hide ByGen, Touched, Indexed, Payloads, Injective;
    PayloadsStamp(entries, k, v, nextGen + 1);
    InsertIndex(entries, order, nextGen, k, v);
    StampGrows(order, nextGen + 1, k);
    InsertOrder(order, nextGen + 1, k);
  }

  /** Evicting the smallest generation removes the head of the list. */
  lemma EvictKeepsIndex<K(!new), V>(entries: map<K, Entry<V>>, order: map<nat, K>, nextGen: nat, g: nat)
    requires Indexed(entries, order, nextGen) && IsMin(order, g)
    ensures Indexed(Forget(entries, order[g]), Drop(order, g), nextGen)
    ensures ByGen(order) == [order[g]] + ByGen(Drop(order, g))
  {
    assert MinGen(order) == g;
  }
}
