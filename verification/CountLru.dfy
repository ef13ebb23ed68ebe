/** The count-bounded LRU cache behind both the parsed-tree cache and the header cache:
    a map of entries stamped with an access generation, and the reverse index from
    generation to key whose smallest key is the eviction victim. One mutex guards all
    of it, so a method here is one atomic step. */
module CountLru {
  import opened Git
  import opened Recency
  import opened Sequences
  import opened GenIndex

  /** Evicting until there is room and then appending keeps the last `cap` keys. */
  lemma RoomThenInsert<K(!new)>(was: seq<K>, n: nat, k: K, cap: nat)
    requires Distinct(was) && k !in was && |was| <= cap && cap > 0
    requires n == if |was| == cap then 1 else 0
    ensures was[n..] + [k] == LastN(Touched(was, k), cap)
    ensures |Touched(was, k)| - |LastN(Touched(was, k), cap)| == n
  {
    TouchedNew(was, k);
  }

  class CountLru<K(==, !new), V> {
    const capacity: nat
    var nextGen: nat
    var entries: map<K, Entry<V>>
    var order: map<nat, K>
    var hits: nat
    var misses: nat
    var inserts: nat
    var evictions: nat

    ghost predicate Valid()
      reads this
    {
      Indexed(entries, order, nextGen) && |order| <= capacity
    }

    /** The cached keys, least recently used first. */
    ghost function Recency(): seq<K>
      reads this
    {
      ByGen(order)
    }

    /** What the cache answers, key by key. */
    ghost function Held(): map<K, V>
      reads this
    {
      Payloads(entries)
    }

    constructor (capacity: nat)
      ensures Valid() && this.capacity == capacity
      ensures Recency() == [] && Held() == map[]
      ensures hits == misses == inserts == evictions == 0
    {
      this.capacity := capacity;
      nextGen, hits, misses, inserts, evictions := 0, 0, 0, 0, 0;
      entries, order := map[], map[];
    }

    lemma Sizes()
      requires Valid()
      ensures Injective(order) && Distinct(Recency())
      ensures Elements(Recency()) == Held().Keys == entries.Keys
      ensures |entries| == |order| == |Recency()|
    {
      IndexedSizes(entries, order, nextGen);
    }

    /** A hit returns the payload and promotes the key; a miss changes nothing. */
    method Get(oid: K) returns (r: Option<V>)
      requires Valid()
      modifies this
      ensures Valid() && Held() == old(Held())
      ensures r == if oid in old(Held()) then Some(old(Held())[oid]) else None
      ensures Recency() == if oid in old(Held()) then Touched(old(Recency()), oid) else old(Recency())
      ensures hits == old(hits) + (if r.Some? then 1 else 0)
      ensures misses == old(misses) && inserts == old(inserts) && evictions == old(evictions)
    {
      if oid !in entries {
        return None;
      }
      var entry := entries[oid];
      Promote(oid, entry.payload);
      hits := hits + 1;
      r := Some(entry.payload);
      assert Held() == old(Held());
    }

    /** Restamp a cached key with a fresh generation and store `payload` under it. */
    method Promote(oid: K, payload: V)
      requires Valid() && oid in entries
      modifies this`order, this`nextGen, this`entries
      ensures Valid() && Held() == old(Held())[oid := payload]
      ensures Recency() == Touched(old(Recency()), oid) && |order| == |old(order)|
    {
      hide ByGen, Touched, Without, Indexed;
      PromoteKeepsIndex(entries, order, nextGen, oid, payload);
      order := Drop(order, entries[oid].generation);
      nextGen := nextGen + 1;
      order := order[nextGen := oid];
      entries := entries[oid := Entry(payload, nextGen)];
    }

    /** The keys kept by `Put`: the last `capacity` after promoting `oid`. */
    ghost function AfterPut(was: seq<K>, oid: K): seq<K> {
      if capacity == 0 then was else LastN(Touched(was, oid), capacity)
    }

    /** Replace and promote a cached key, or make room and insert a new one. What
        stays cached keeps its payload. */
    method Put(oid: K, payload: V)
      requires Valid()
      modifies this
      ensures Valid() && Recency() == AfterPut(old(Recency()), oid)
      ensures Stored(old(Held()), oid, payload)
      ensures inserts == old(inserts) + (if capacity == 0 then 0 else 1)
      ensures capacity > 0 ==> evictions == old(evictions) + |Touched(old(Recency()), oid)| - |Recency()|
      ensures capacity == 0 ==> evictions == old(evictions)
      ensures hits == old(hits) && misses == old(misses)
    {
      hide ByGen, Touched, Without, Indexed, LastN, Payloads;
      if capacity == 0 {
        return;
      }
      if oid in entries {
        PromotedFits(oid);
        Promote(oid, payload);
        inserts := inserts + 1;
      } else {
        InsertNew(oid, payload);
      }
    }

    ghost predicate Stored(held: map<K, V>, oid: K, payload: V)
      reads this
    {
      if capacity == 0 then Held() == held else
      && oid in Held() && Held()[oid] == payload
      && forall k | k in Held() && k != oid :: k in held && Held()[k] == held[k]
    }

    lemma PromotedFits(oid: K)
      requires Valid() && oid in entries
      ensures |Touched(Recency(), oid)| == |order|
      ensures LastN(Touched(Recency(), oid), capacity) == Touched(Recency(), oid)
    {
      Sizes();
      assert oid in Elements(Recency());
      TouchedDistinct(Recency(), oid);
    }

    method InsertNew(oid: K, payload: V)
      requires Valid() && oid !in entries && capacity > 0
      modifies this`order, this`nextGen, this`entries, this`inserts, this`evictions
      ensures Valid() && Recency() == LastN(Touched(old(Recency()), oid), capacity)
      ensures Stored(old(Held()), oid, payload)
      ensures inserts == old(inserts) + 1
      ensures evictions == old(evictions) + |Touched(old(Recency()), oid)| - |Recency()|
    {
      hide ByGen, Touched, Without, Indexed, LastN, Payloads;
      Sizes();
      ghost var was := Recency();
      assert oid !in Elements(was);
      ghost var n := MakeRoom();
      assert oid !in Held();
      Insert(oid, payload);
      RoomThenInsert(was, n, oid, capacity);
    }

    /** Evict from the old end until one more entry fits. */
    method MakeRoom() returns (ghost n: nat)
      requires Valid() && capacity > 0
      modifies this`order, this`entries, this`evictions
      ensures Valid() && |order| < capacity
      ensures n <= |old(Recency())| && Recency() == old(Recency())[n..]
      ensures n == if |old(order)| == capacity then 1 else 0
      ensures Held().Keys <= old(Held()).Keys && forall k | k in Held() :: Held()[k] == old(Held())[k]
      ensures evictions == old(evictions) + n
    {
      hide ByGen, Touched, Without, Indexed;
      n := 0;
      Sizes();
      ghost var was, held := Recency(), Held();
      while |entries| >= capacity
        invariant Valid() && |entries| == |order| == |was| - n
        invariant n <= |was| && Recency() == was[n..]
        invariant n == 0 || (n == 1 && |was| == capacity)
        invariant Held().Keys <= held.Keys && forall k | k in Held() :: Held()[k] == held[k]
        invariant evictions == old(evictions) + n
        decreases |order|
      {
        if order == map[] {
          break;
        }
        ghost var before := Held();
        EvictOldest();
        Sizes();
        assert Held().Keys <= before.Keys;
        assert was[n..] == [was[n]] + was[n + 1..];
        n := n + 1;
      }
    }

    method Insert(oid: K, payload: V)
      requires Valid() && oid !in Held() && |order| < capacity
      modifies this`order, this`nextGen, this`entries, this`inserts
      ensures Valid() && Held() == old(Held())[oid := payload]
      ensures Recency() == old(Recency()) + [oid] && |order| == |old(order)| + 1
      ensures inserts == old(inserts) + 1
    {
      hide ByGen, Touched, Without, Indexed;
      InsertKeepsIndex(entries, order, nextGen, oid, payload);
      nextGen := nextGen + 1;
      order := order[nextGen := oid];
      entries := entries[oid := Entry(payload, nextGen)];
      inserts := inserts + 1;
    }

    /** One turn of the eviction loop: the smallest generation names the victim. */
    method EvictOldest()
      requires Valid() && order != map[]
      modifies this`order, this`entries, this`evictions
      ensures Valid() && |order| == |old(order)| - 1
      ensures old(Recency()) == [old(Recency())[0]] + Recency()
      ensures Held() == Forget(old(Held()), old(Recency())[0])
      ensures evictions == old(evictions) + 1
    {
      hide ByGen, Touched, Without;
      HasMin(order);
      var oldest :| oldest in order && forall g | g in order :: oldest <= g;
      EvictKeepsIndex(entries, order, nextGen, oldest);
      DropShrinks(order, oldest);
      var victim := order[oldest];
      order := Drop(order, oldest);
      entries := Forget(entries, victim);
      evictions := evictions + 1;
    }

    method RecordMiss()
      modifies this`misses
      ensures misses == old(misses) + 1
    {
      misses := misses + 1;
    }
  }
}
