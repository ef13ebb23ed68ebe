/** The read-only object store: a resident part of the world behind three caches. */
module ObjectStore {
  import opened Git
  import opened Recency
  import opened Sequences
  import opened GenIndex
  import opened CountLru
  import opened BlobLru

  // ------------------------------------------------- what the database answers

  function Lookup(world: World, resident: set<Oid>, oid: Oid): Option<Object> {
    if oid in resident && oid in world then Some(world[oid]) else None
  }

  function HeaderOf(world: World, resident: set<Oid>, oid: Oid): Result<Header, StoreError> {
    match Lookup(world, resident, oid)
    case None => Err(MissingObject(oid))
    case Some(obj) => Ok(Header(obj.Kind(), obj.Size()))
  }

  function BlobOf(world: World, resident: set<Oid>, oid: Oid): Result<seq<Byte>, StoreError> {
    match Lookup(world, resident, oid)
    case None => Err(MissingObject(oid))
    case Some(Blob(bytes)) => Ok(bytes)
    case Some(obj) => Err(UnexpectedKind(oid, BlobKind, obj.Kind()))
  }

  function TreeOf(world: World, resident: set<Oid>, oid: Oid): Result<seq<RawTreeEntry>, StoreError> {
    match Lookup(world, resident, oid)
    case None => Err(MissingObject(oid))
    case Some(Tree(Some(entries), _)) => Ok(entries)
    case Some(Tree(None, _)) => Err(StoreBackend)
    case Some(obj) => Err(UnexpectedKind(oid, TreeKind, obj.Kind()))
  }

  function CommitTreeOf(world: World, resident: set<Oid>, oid: Oid): Result<Oid, StoreError> {
    match Lookup(world, resident, oid)
    case None => Err(MissingObject(oid))
    case Some(Commit(Some(tree), _)) => Ok(tree)
    case Some(Commit(None, _)) => Err(StoreBackend)
    case Some(obj) => Err(UnexpectedKind(oid, CommitKind, obj.Kind()))
  }

  /** Objects are immutable and never leave the database, so an answer is final. */
  lemma AnswersAreStable(world: World, before: set<Oid>, after: set<Oid>, oid: Oid)
    requires before <= after
    ensures oid in before && oid in world ==>
      && HeaderOf(world, after, oid) == HeaderOf(world, before, oid)
      && BlobOf(world, after, oid) == BlobOf(world, before, oid)
      && TreeOf(world, after, oid) == TreeOf(world, before, oid)
      && CommitTreeOf(world, after, oid) == CommitTreeOf(world, before, oid)
    ensures TreeOf(world, before, oid).Ok? ==> TreeOf(world, after, oid) == TreeOf(world, before, oid)
    ensures TreeOf(world, after, oid) == Err(MissingObject(oid)) ==> TreeOf(world, before, oid) == Err(MissingObject(oid))
  {
  }

  class ObjectStore {
    const world: World
    const treeCache: CountLru<Oid, seq<RawTreeEntry>>
    const blobCache: BlobLru<Oid>
    const headerCache: CountLru<Oid, Header>

    /** OIDs present in the on-disk database; it only grows. */
    var resident: set<Oid>

    ghost predicate Valid()
      reads this, treeCache, blobCache, headerCache
    {
      && treeCache as object != headerCache as object
      && treeCache as object != blobCache as object
      && headerCache as object != blobCache as object
      && treeCache as object != this && headerCache as object != this && blobCache as object != this
      && resident <= world.Keys
      && treeCache.Valid() && blobCache.Valid() && headerCache.Valid()
      && TreesTrue() && BlobsTrue()
    }

    /** Every cached listing is what the database itself would answer. */
    ghost predicate TreesTrue()
      reads this, treeCache
    {
      forall o | o in treeCache.Held() :: TreeOf(world, resident, o) == Ok(treeCache.Held()[o])
    }

    ghost predicate BlobsTrue()
      reads this, blobCache
    {
      forall o | o in blobCache.Contents().held :: BlobOf(world, resident, o) == Ok(blobCache.Contents().held[o])
    }

    /** The header cache can be filled from outside, so what is known of it depends on
        what was published: every cached OID is resident... */
    ghost predicate HeadersResident()
      reads this, headerCache
    {
      headerCache.Held().Keys <= resident
    }

    /** ... and every cached header is the object's own. */
    ghost predicate HeadersTrue()
      reads this, headerCache
    {
      forall o | o in headerCache.Held() :: HeaderOf(world, resident, o) == Ok(headerCache.Held()[o])
    }

    constructor (world: World, resident: set<Oid>, trees: nat, blobBytes: nat, blobMax: nat, headers: nat)
      requires resident <= world.Keys
      ensures Valid() && HeadersResident() && HeadersTrue()
      ensures this.world == world && this.resident == resident
      ensures fresh(treeCache) && fresh(blobCache) && fresh(headerCache)
    {
      this.world, this.resident := world, resident;
      treeCache := new CountLru(trees);
      blobCache := new BlobLru(blobBytes, blobMax);
      headerCache := new CountLru(headers);
    }

    method Contains(oid: Oid) returns (present: bool)
      requires Valid()
      ensures present == (oid in resident)
    {
      present := oid in resident;
    }

    /** Objects arrive, from whoever fetched them; nothing is ever lost or changed. */
    method Land(more: set<Oid>)
      requires Valid() && more <= world.Keys
      modifies this`resident
      ensures Valid() && resident == old(resident) + more
      ensures old(HeadersResident()) ==> HeadersResident()
      ensures old(HeadersTrue()) ==> HeadersTrue()
    {
      hide ByGen, Indexed, Bytes, Payloads;
      resident := resident + more;
    }

    /** A header from the cache, or from the database with the cache filled. */
    method Header(oid: Oid) returns (r: Result<Git.Header, StoreError>)
      requires Valid()
      modifies headerCache
      ensures Valid()
      ensures old(HeadersResident()) ==> HeadersResident()
      ensures old(HeadersTrue()) ==> HeadersTrue() && r == HeaderOf(world, resident, oid)
      ensures r.Err? ==> oid !in resident && r == Err(MissingObject(oid))
      ensures r.Ok? ==> oid in resident || oid in old(headerCache.Held())
      ensures headerCache.Recency() ==
        if r.Ok? then Accessed(old(headerCache.Recency()), headerCache.capacity, oid) else old(headerCache.Recency())
      ensures r.Ok? && headerCache.capacity > 0 ==> oid in headerCache.Held()
    {
      hide ByGen, Touched, Without, Indexed, LastN;
      HitFits(headerCache, oid);
      var cached := headerCache.Get(oid);
      if cached.Some? {
        return Ok(cached.value);
      }
      headerCache.RecordMiss();
      if oid !in resident {
        return Err(MissingObject(oid));
      }
      var h := Git.Header(world[oid].Kind(), world[oid].Size());
      headerCache.Put(oid, h);
      AccessedIsHeld(headerCache, old(headerCache.Recency()), oid);
      r := Ok(h);
    }

    /** Publish a header learnt elsewhere; the database is not consulted. */
    method PutHeaderCache(oid: Oid, h: Git.Header)
      requires Valid()
      modifies headerCache
      ensures Valid()
      ensures old(HeadersResident()) && oid in resident ==> HeadersResident()
      ensures old(HeadersTrue()) && HeaderOf(world, resident, oid) == Ok(h) ==> HeadersTrue()
      ensures headerCache.capacity > 0 ==> oid in headerCache.Held() && headerCache.Held()[oid] == h
    {
      hide ByGen, Touched, Without, Indexed, LastN;
      headerCache.Put(oid, h);
      AccessedIsHeld(headerCache, old(headerCache.Recency()), oid);
    }

    /** The cache is invisible: the answer is the database's, hit or miss, and the
        recency order moves as a read through an LRU of this capacity should. */
    method ReadTree(oid: Oid) returns (r: Result<seq<RawTreeEntry>, StoreError>)
      requires Valid()
      modifies treeCache
      ensures Valid()
      ensures r == TreeOf(world, resident, oid)
      ensures treeCache.Recency() ==
        if r.Ok? then Accessed(old(treeCache.Recency()), treeCache.capacity, oid) else old(treeCache.Recency())
    {
      hide ByGen, Touched, Without, Indexed, LastN;
      HitFits(treeCache, oid);
      var cached := treeCache.Get(oid);
      if cached.Some? {
        return Ok(cached.value);
      }
      treeCache.RecordMiss();
      r := TreeOf(world, resident, oid);
      if r.Ok? {
        treeCache.Put(oid, r.value);
      }
    }

    method ReadBlob(oid: Oid) returns (r: Result<seq<Byte>, StoreError>)
      requires Valid()
      modifies blobCache
      ensures Valid()
      ensures r == BlobOf(world, resident, oid)
      ensures blobCache.log == old(blobCache.log) + [Op.Get(oid)]
        + if oid !in old(blobCache.Contents()).held && r.Ok? then [Op.Put(oid, r.value)] else []
      ensures old(blobCache.Logged()) ==> blobCache.Logged()
      ensures blobCache.misses == old(blobCache.misses) + if oid in old(blobCache.Contents()).held then 0 else 1
    {
      hide ByGen, Touched, Without, Indexed, Bytes, Victims, Payloads;
      var cached := blobCache.Get(oid);
      if cached.Some? {
        return Ok(cached.value);
      }
      blobCache.RecordMiss();
      r := BlobOf(world, resident, oid);
      if r.Ok? {
        blobCache.Put(oid, r.value);
      }
    }
  }

  /** What a cache that holds anything was given last, it holds. */
  lemma AccessedIsHeld<V>(cache: CountLru<Oid, V>, before: seq<Oid>, oid: Oid)
    requires cache.Valid() && cache.Recency() == Accessed(before, cache.capacity, oid)
    ensures cache.capacity > 0 ==> oid in cache.Held()
  {
    hide ByGen, Indexed;
    cache.Sizes();
    if cache.capacity > 0 {
      var all := Touched(before, oid);
      assert all[|all| - 1] == oid && LastN(all, cache.capacity) != [];
      assert LastN(all, cache.capacity)[|LastN(all, cache.capacity)| - 1] == oid;
      assert oid in Elements(cache.Recency());
    }
  }

  /** Promoting a cached key is a read through the cache. */
  lemma HitFits<V>(cache: CountLru<Oid, V>, oid: Oid)
    requires cache.Valid()
    ensures oid in cache.Held() ==>
      Touched(cache.Recency(), oid) == Accessed(cache.Recency(), cache.capacity, oid)
  {
    hide ByGen, Touched, Without, Indexed, LastN, Elements;
    cache.Sizes();
    if oid in cache.Held() {
      cache.PromotedFits(oid);
    }
  }
}
