/** The store composed with a fetcher: reads hydrate what is missing and try once more. */
module Hydrate {
  import opened Git
  import opened Probes
  import opened Claims
  import opened Sequences
  import opened GitCli
  import opened ObjectStore

  /** The daemon's two backends. */
  datatype Backend = NoopBackend | GitCliBackend(fetcher: GitCliFetcher)

  /** A batch as the fetcher answered it: the OIDs it was asked for, its probes and, if
      that was the `git` backend, how its batch went. */
  datatype Asked = Asked(oids: seq<Oid>, probes: seq<Probe>, run: Option<BatchRun>)

  /** What every fetcher's batch operations promise: one probe per OID, in order, naming
      it, and a header only for an object that is resident. */
  ghost predicate Answered(oids: seq<Oid>, probes: seq<Probe>, now: set<Oid>) {
    && |probes| == |oids|
    && forall i | 0 <= i < |oids| :: probes[i].oid == oids[i] && !probes[i].HeaderOnly?
                                     && (probes[i].PresentWithHeader? ==> oids[i] in now)
  }

  /** Where the probes come from: the backend's batch, or a refusal of each OID. */
  ghost predicate FromBackend(asked: Asked, before: set<Oid>, now: set<Oid>) {
    match asked.run
    case Some(run) => FiledOk(asked.oids, run, before, now) && asked.probes == Drain(asked.oids, run.filed, MissingResult)
    case None =>
      && |asked.probes| == |asked.oids|
      && forall k | 0 <= k < |asked.oids| :: asked.probes[k] == ProbeError(asked.oids[k], NotHydratable(asked.oids[k]))
  }

  /** What others could see of a batch: the claim and the queries it made, and then what it
      put into the header cache. */
  function EventsOf(asked: Asked): seq<Event> {
    if asked.run.Some? then BatchEvents(asked.oids, asked.run.value) + Publications(asked.probes) else []
  }

  /** What peers were fetching when this batch came to claim it. */
  function WithPeers(asked: Asked): set<Oid> {
    if asked.run.Some? then Elements(asked.run.value.toQuery) * asked.run.value.taken else {}
  }

  /** A batch through the hydrating store: only OIDs missing at their check were asked for,
      and everything else is resident. */
  ghost predicate BatchOk(oids: seq<Oid>, asked: Asked, before: set<Oid>, now: set<Oid>, out: seq<Probe>) {
    && out == Drain(oids, Collect(asked.probes), AssumePresent)
    && Elements(oids) - now <= Elements(asked.oids) <= Elements(oids) - before
    && Answered(asked.oids, asked.probes, now)
    && FromBackend(asked, before, now)
  }

  /** What the caller of a batch gets for each OID, and what a bare presence is worth: the
      first answer about an OID is a presence only if the object is resident or a peer was
      fetching it, and an OID that was not asked for is resident. */
  lemma {:induction false} HydratedBatchKeepsThePromise(
      oids: seq<Oid>, asked: Asked, before: set<Oid>, now: set<Oid>, out: seq<Probe>)
    requires BatchOk(oids, asked, before, now, out)
    ensures Answered(oids, out, now)
    ensures forall i | 0 <= i < |oids| && oids[i] in before :: out[i] == Present(oids[i])
    ensures forall i | 0 <= i < |oids| && oids[i] !in asked.oids :: out[i] == Present(oids[i]) && oids[i] in now
    ensures forall i | 0 <= i < |oids| && oids[i] !in oids[..i] && out[i].Present? :: oids[i] in now || oids[i] in WithPeers(asked)
  {
    hide FromBackend, WithPeers, Collect;
    var byOid := Collect(asked.probes);
    AskedIsFiled(asked, now);
    DrainLength(oids, byOid, AssumePresent);
    forall i | 0 <= i < |oids|
      ensures out[i].oid == oids[i] && !out[i].HeaderOnly? && (out[i].PresentWithHeader? ==> oids[i] in now)
      ensures oids[i] in before ==> out[i] == Present(oids[i])
      ensures oids[i] !in asked.oids ==> out[i] == Present(oids[i]) && oids[i] in now
      ensures oids[i] !in oids[..i] && out[i].Present? ==> oids[i] in now || oids[i] in WithPeers(asked)
    {
      DrainAt(oids, byOid, AssumePresent, i);
      UnaskedIsLocal(oids, asked, before, now, out, oids[i]);
      if k :| 0 <= k < |asked.oids| && asked.oids[k] == oids[i] && asked.probes[k] == byOid[oids[i]] {
        PresenceHasAReason(asked, before, now, k);
      }
    }
  }

  /** Exactly what was asked for is filed. */
  lemma AskedIsFiled(asked: Asked, now: set<Oid>)
    requires Answered(asked.oids, asked.probes, now)
    ensures OwnOid(Collect(asked.probes))
    ensures forall o :: o in Collect(asked.probes) <==> o in asked.oids
    ensures forall o | o in asked.oids :: exists k :: 0 <= k < |asked.oids| && asked.oids[k] == o && asked.probes[k] == Collect(asked.probes)[o]
  {
    CollectIsOwn(asked.probes);
    forall o | o in asked.oids
      ensures o in Collect(asked.probes)
      ensures exists k :: 0 <= k < |asked.oids| && asked.oids[k] == o && asked.probes[k] == Collect(asked.probes)[o]
    {
      var i :| 0 <= i < |asked.oids| && asked.oids[i] == o;
      assert asked.probes[i].oid == o;
      var k :| 0 <= k < |asked.probes| && asked.probes[k] == Collect(asked.probes)[o];
      assert asked.oids[k] == o;
    }
  }

  lemma UnaskedIsLocal(oids: seq<Oid>, asked: Asked, before: set<Oid>, now: set<Oid>, out: seq<Probe>, o: Oid)
    requires BatchOk(oids, asked, before, now, out) && o in oids
    ensures o !in asked.oids ==> o in now
    ensures o in before ==> o !in asked.oids
  {
    assert o in Elements(oids) && (o in Elements(asked.oids) <==> o in asked.oids);
  }

  /** The fetcher itself reports a presence only of what is resident or with a peer. */
  lemma PresenceHasAReason(asked: Asked, before: set<Oid>, now: set<Oid>, k: nat)
    requires FromBackend(asked, before, now)
    requires k < |asked.probes| && k < |asked.oids|
    ensures asked.probes[k].Present? ==> asked.oids[k] in now || asked.oids[k] in WithPeers(asked)
  {
    hide FiledOk;
    if asked.run.Some? {
      BatchKeepsThePromise(asked.oids, asked.run.value, before, now);
      ClaimCameFirst(asked.oids, asked.run.value, before, now);
    }
  }

  lemma ClaimCameFirst(oids: seq<Oid>, run: BatchRun, before: set<Oid>, now: set<Oid>)
    requires FiledOk(oids, run, before, now)
    ensures run.atClaim <= now
  {
  }

  /** For pairwise distinct OIDs the caller sees the fetcher's own answer, position by
      position, and a presence, of a resident object, exactly for the rest. */
  lemma {:induction false} DistinctBatchIsFaithful(
      oids: seq<Oid>, asked: Asked, before: set<Oid>, now: set<Oid>, out: seq<Probe>, i: nat)
    requires BatchOk(oids, asked, before, now, out)
    requires Distinct(oids) && Distinct(asked.oids)
    requires i < |oids|
    ensures i < |out|
    ensures oids[i] !in asked.oids ==> out[i] == Present(oids[i]) && oids[i] in now
    ensures forall k | 0 <= k < |asked.oids| && asked.oids[k] == oids[i] :: out[i] == asked.probes[k]
  {
    hide FromBackend;
    var byOid := Collect(asked.probes);
    CollectIsOwn(asked.probes);
    DrainAt(oids, byOid, AssumePresent, i);
    UnaskedIsLocal(oids, asked, before, now, out, oids[i]);
    assert oids[i] !in oids[..i];
    if oids[i] in byOid {
      var j :| 0 <= j < |asked.probes| && asked.probes[j].oid == oids[i];
      assert asked.oids[j] == oids[i];
    }
    forall k | 0 <= k < |asked.oids| && asked.oids[k] == oids[i] ensures out[i] == asked.probes[k] {
      CollectAt(asked.probes, k);
    }
  }

  /** The fetcher's default batch: each fetch reported in turn. */
  function DefaultProbe(oid: Oid, fetched: Result<(), FetcherError>): Probe {
    if fetched.Ok? then Present(oid) else ProbeError(oid, fetched.error)
  }

  /** Whether a read had to fetch, and what came of that. */
  datatype Hydration = NotNeeded | Tried(result: Result<(), FetcherError>, run: Option<FetchRun>)
  {
    predicate Failed() {
      Tried? && result.Err?
    }
  }

  /** A fetch is the backend's: the no-op one refuses, `git` asks or joins who is asking. */
  ghost predicate HydrationOk(backend: Backend, oid: Oid, fetch: Hydration, before: set<Oid>, now: set<Oid>) {
    fetch.Tried? ==>
      match fetch.run
      case None => backend.NoopBackend? && fetch.result == Err(NotHydratable(oid))
      case Some(run) => backend.GitCliBackend? && FetchOk(oid, run, before, now, fetch.result)
  }

  /** What that sent. */
  function SentFor(oid: Oid, fetch: Hydration): seq<Event> {
    if fetch.Tried? && fetch.run.Some? then FetchEvents(oid, fetch.run.value) else []
  }

  /** A read of `oid`: fetched exactly if it was absent, and nothing else was sent. */
  ghost predicate Hydrated(
      backend: Backend, oid: Oid, fetch: Hydration, before: set<Oid>, now: set<Oid>, sent: seq<Event>, sentNow: seq<Event>)
  {
    && (fetch.NotNeeded? <==> oid in before)
    && HydrationOk(backend, oid, fetch, before, now)
    && sentNow == sent + SentFor(oid, fetch)
  }

  class HydratingStore {
    const store: ObjectStore
    const backend: Backend

    ghost predicate Valid()
      reads Footprint()
    {
      && store.Valid() && store.HeadersResident()
      && (Honest() ==> store.HeadersTrue())
      && (backend.GitCliBackend? ==> backend.fetcher.store == store && backend.fetcher.Valid())
    }

    /** Headers can be trusted: nothing else fills the cache from outside. */
    predicate Honest() {
      backend.GitCliBackend? ==> backend.fetcher.honest
    }

    ghost function Footprint(): set<object> {
      {store, store.treeCache, store.blobCache, store.headerCache}
      + if backend.GitCliBackend? then backend.fetcher.Footprint() else {}
    }

    /** This caller has no prefetch claim outstanding and leads no fetch. */
    ghost predicate Unclaimed(me: nat)
      reads Footprint()
    {
      backend.GitCliBackend? ==> me !in backend.fetcher.claims.guards && backend.fetcher.Mine(me) == {}
    }

    constructor (store: ObjectStore, backend: Backend)
      requires store.Valid() && store.HeadersResident()
      requires backend.NoopBackend? ==> store.HeadersTrue()
      requires backend.GitCliBackend? ==> backend.fetcher.store == store && backend.fetcher.Valid()
      ensures Valid() && this.store == store && this.backend == backend
    {
      this.store, this.backend := store, backend;
    }

    twostate predicate Grown()
      reads Footprint()
    {
      old(store.resident) <= store.resident
    }

    /** What this caller claimed and sent to git, oldest first. */
    ghost function Sent(me: nat): seq<Event>
      reads Footprint()
    {
      if backend.GitCliBackend? then backend.fetcher.trace(me) else []
    }

    /** Whatever other threads and processes do between two of our steps: objects land and
        caches move, but nothing disappears and our claims stay as they are. */
    method Others(ghost me: nat)
      requires Valid() && Unclaimed(me)
      modifies Footprint()
      ensures Valid() && Unclaimed(me) && Grown() && Sent(me) == old(Sent(me))
    {
      match backend {
        case NoopBackend => LandSome();
        case GitCliBackend(f) => f.Others(me);
      }
    }

    method LandSome()
      requires Valid() && backend.NoopBackend?
      modifies Footprint()
      ensures Valid() && Grown()
    {
      var more: set<Oid> :| more <= store.world.Keys;
      store.Land(more);
    }

    /** `Fetcher::fetch_object` of the backend. */
    method FetchObject(oid: Oid, ghost me: nat) returns (r: Result<(), FetcherError>, ghost fetch: Hydration)
      requires Valid() && Unclaimed(me)
      modifies Footprint()
      ensures Valid() && Unclaimed(me) && Grown()
      ensures fetch.Tried? && fetch.result == r && HydrationOk(backend, oid, fetch, old(store.resident), store.resident)
      ensures Sent(me) == old(Sent(me)) + SentFor(oid, fetch)
      ensures backend.GitCliBackend? ==> (fetch.run.value.how.WasLocal? <==> oid in old(store.resident))
      ensures backend.GitCliBackend? && fetch.run.value.how.Followed? ==>
        var how := fetch.run.value.how;
        how.flying[oid] != me && Within(Queries([oid], how.tries), Sent(how.flying[oid]))
      ensures r.Ok? ==> oid in store.resident
      ensures backend.NoopBackend? ==> r == Err(NotHydratable(oid))
      ensures backend.GitCliBackend? && r.Err? ==> !r.error.NotHydratable?
    {
      hide ObjectStore.Valid, ObjectStore.HeadersResident, ObjectStore.HeadersTrue, PrefetchClaims.Valid, RawResult, Retyped, Queries, Within;
      match backend {
        case NoopBackend =>
          r := Err(NotHydratable(oid));
          fetch := Tried(r, None);
        case GitCliBackend(f) =>
          ghost var run;
          r, run := f.FetchObject(oid, me);
          fetch := Tried(r, Some(run));
      }
    }

    /** The fetch between the two looks of a read, with what others do before and after. */
    method FetchMissing(oid: Oid, ghost me: nat) returns (r: Result<(), FetcherError>, ghost fetch: Hydration)
      requires Valid() && Unclaimed(me)
      modifies Footprint()
      ensures Valid() && Unclaimed(me) && Grown()
      ensures fetch.Tried? && fetch.result == r && HydrationOk(backend, oid, fetch, old(store.resident), store.resident)
      ensures Sent(me) == old(Sent(me)) + SentFor(oid, fetch)
      ensures r.Ok? ==> oid in store.resident
    {
      hide ObjectStore.Valid, ObjectStore.HeadersResident, ObjectStore.HeadersTrue, PrefetchClaims.Valid, HydrationOk, SentFor;
      Others(me);
      ghost var started := store.resident;
      r, fetch := FetchObject(oid, me);
      ghost var answered := store.resident;
      Others(me);
      HydrationStays(backend, oid, fetch, started, answered, old(store.resident), store.resident);
    }

    /** `Fetcher::prefetch_headers`, which for both backends is also `fetch_objects`. */
    method FetchBatch(oids: seq<Oid>, ghost me: nat) returns (probes: seq<Probe>, ghost run: Option<BatchRun>)
      requires Valid() && Unclaimed(me)
      modifies Footprint()
      ensures Valid() && Unclaimed(me) && Grown()
      ensures Answered(oids, probes, store.resident)
      ensures FromBackend(Asked(oids, probes, run), old(store.resident), store.resident)
      ensures run.Some? == backend.GitCliBackend?
      ensures Sent(me) == old(Sent(me)) + if run.Some? then BatchEvents(oids, run.value) else []
      ensures Honest() ==> forall p | p in probes :: ProbeTrue(store.world, p)
    {
      hide ObjectStore.Valid, ObjectStore.HeadersResident, ObjectStore.HeadersTrue, PrefetchClaims.Valid, FiledOk, BatchEvents;
      run := None;
      match backend {
        case NoopBackend =>
          probes := [];
          for i := 0 to |oids|
            invariant Valid() && Unclaimed(me) && Grown()
            invariant |probes| == i
            invariant forall k | 0 <= k < i :: probes[k] == ProbeError(oids[k], NotHydratable(oids[k]))
          {
            var r;
            ghost var fetch;
            r, fetch := FetchObject(oids[i], me);
            probes := probes + [DefaultProbe(oids[i], r)];
          }
        case GitCliBackend(f) =>
          ghost var went;
          probes, went := f.PrefetchHeaders(oids, me);
          run := Some(went);
          BatchKeepsThePromise(oids, went, old(store.resident), store.resident);
          if f.honest {
            DrainedAreTrue(store.world, oids, went.filed);
          }
      }
    }

    // ------------------------------------------------------------ single reads

    /** `header`: a success means the object is resident; what is resident is not fetched,
        and an error is the fetch's own. */
    method Header(oid: Oid, ghost me: nat) returns (r: Result<Git.Header, HydrateError>, ghost fetch: Hydration)
      requires Valid() && Unclaimed(me)
      modifies Footprint()
      ensures Valid() && Unclaimed(me) && Grown()
      ensures fetch.NotNeeded? <==> oid in old(store.resident)
      ensures HydrationOk(backend, oid, fetch, old(store.resident), store.resident)
      ensures Sent(me) == old(Sent(me)) + SentFor(oid, fetch)
      ensures fetch.Failed() ==> r == Err(InFetcher(fetch.result.error))
      ensures !fetch.Failed() ==> r.Ok?
      ensures r.Ok? ==> oid in store.resident
      ensures oid in old(store.resident) ==> r.Ok?
      ensures Honest() && r.Ok? ==> HeaderOf(store.world, store.resident, oid) == Ok(r.value)
      ensures r.Err? ==> r.error.InFetcher?
      ensures r.Err? && backend.NoopBackend? ==> r.error == InFetcher(NotHydratable(oid))
    {
      hide ObjectStore.Valid, PrefetchClaims.Valid, SentFor, FetchOk;
      var first := store.Header(oid);
      fetch := NotNeeded;
      NothingFetched(backend, oid, store.resident);
      if first.Ok? {
        return Ok(first.value), NotNeeded;
      }
      var fetched;
      fetched, fetch := FetchMissing(oid, me);
      if fetched.Err? {
        return Err(InFetcher(fetched.error)), fetch;
      }
      var again := store.Header(oid);
      r := match again
        case Ok(h) => Ok(h)
        case Err(MissingObject(o)) => Err(InFetcher(NotPresentAfterFetch(o)))
        case Err(e) => Err(InStore(e));
    }

    /** One look at the local store, which has an object exactly if it is resident. */
    method LocalTree(oid: Oid, ghost me: nat) returns (r: Result<seq<RawTreeEntry>, StoreError>)
      requires Valid() && Unclaimed(me)
      modifies store.treeCache
      ensures Valid() && Unclaimed(me) && Sent(me) == old(Sent(me))
      ensures r == TreeOf(store.world, store.resident, oid)
      ensures r.Err? && r.error.MissingObject? <==> oid !in store.resident
    {
      hide ObjectStore.Valid, PrefetchClaims.Valid, TreeOf;
      r := store.ReadTree(oid);
      WhenMissing(store, oid);
    }

    method LocalBlob(oid: Oid, ghost me: nat) returns (r: Result<seq<Byte>, StoreError>)
      requires Valid() && Unclaimed(me)
      modifies store.blobCache
      ensures Valid() && Unclaimed(me) && Sent(me) == old(Sent(me))
      ensures r == BlobOf(store.world, store.resident, oid)
      ensures r.Err? && r.error.MissingObject? <==> oid !in store.resident
    {
      hide ObjectStore.Valid, PrefetchClaims.Valid, BlobOf;
      r := store.ReadBlob(oid);
      WhenMissing(store, oid);
    }

    /** `read_tree`: what the database says once the object is there; it is fetched exactly
        if it was not there before, and an error of the fetcher is that fetch's own. */
    method ReadTree(oid: Oid, ghost me: nat) returns (r: Result<seq<RawTreeEntry>, HydrateError>, ghost fetch: Hydration)
      requires Valid() && Unclaimed(me)
      modifies Footprint()
      ensures Valid() && Unclaimed(me) && Grown()
      ensures fetch.NotNeeded? <==> oid in old(store.resident)
      ensures HydrationOk(backend, oid, fetch, old(store.resident), store.resident)
      ensures Sent(me) == old(Sent(me)) + SentFor(oid, fetch)
      ensures fetch.Failed() ==> r == Err(InFetcher(fetch.result.error))
      ensures !fetch.Failed() ==>
        match TreeOf(store.world, store.resident, oid)
        case Ok(found) => r == Ok(found)
        case Err(e) => r == Err(InStore(e)) && !e.MissingObject?
      ensures !fetch.Failed() ==> oid in store.resident
      ensures r.Ok? ==> TreeOf(store.world, store.resident, oid) == Ok(r.value)
      ensures r.Err? && r.error.InStore? ==> TreeOf(store.world, store.resident, oid) == Err(r.error.store)
      ensures r.Err? && r.error.InFetcher? ==> oid !in old(store.resident)
    {
      hide ObjectStore.Valid, ObjectStore.HeadersResident, ObjectStore.HeadersTrue, PrefetchClaims.Valid, TreeOf, BlobOf, HydrationOk, SentFor;
      var first := LocalTree(oid, me);
      fetch := NotNeeded;
      NothingFetched(backend, oid, store.resident);
      if first.Ok? {
        return Ok(first.value), NotNeeded;
      }
      if !first.error.MissingObject? {
        return Err(InStore(first.error)), NotNeeded;
      }
      var fetched;
      fetched, fetch := FetchMissing(oid, me);
      if fetched.Err? {
        return Err(InFetcher(fetched.error)), fetch;
      }
      var again := LocalTree(oid, me);
      r := match again
        case Ok(entries) => Ok(entries)
        case Err(MissingObject(o)) => Err(InFetcher(NotPresentAfterFetch(o)))
        case Err(e) => Err(InStore(e));
    }

    method ReadBlob(oid: Oid, ghost me: nat) returns (r: Result<seq<Byte>, HydrateError>, ghost fetch: Hydration)
      requires Valid() && Unclaimed(me)
      modifies Footprint()
      ensures Valid() && Unclaimed(me) && Grown()
      ensures fetch.NotNeeded? <==> oid in old(store.resident)
      ensures HydrationOk(backend, oid, fetch, old(store.resident), store.resident)
      ensures Sent(me) == old(Sent(me)) + SentFor(oid, fetch)
      ensures fetch.Failed() ==> r == Err(InFetcher(fetch.result.error))
      ensures !fetch.Failed() ==>
        match BlobOf(store.world, store.resident, oid)
        case Ok(found) => r == Ok(found)
        case Err(e) => r == Err(InStore(e)) && !e.MissingObject?
      ensures !fetch.Failed() ==> oid in store.resident
      ensures r.Ok? ==> BlobOf(store.world, store.resident, oid) == Ok(r.value)
      ensures r.Err? && r.error.InStore? ==> BlobOf(store.world, store.resident, oid) == Err(r.error.store)
      ensures r.Err? && r.error.InFetcher? ==> oid !in old(store.resident)
    {
      hide ObjectStore.Valid, ObjectStore.HeadersResident, ObjectStore.HeadersTrue, PrefetchClaims.Valid, TreeOf, BlobOf, HydrationOk, SentFor;
      var first := LocalBlob(oid, me);
      fetch := NotNeeded;
      NothingFetched(backend, oid, store.resident);
      if first.Ok? {
        return Ok(first.value), NotNeeded;
      }
      if !first.error.MissingObject? {
        return Err(InStore(first.error)), NotNeeded;
      }
      var fetched;
      fetched, fetch := FetchMissing(oid, me);
      if fetched.Err? {
        return Err(InFetcher(fetched.error)), fetch;
      }
      var again := LocalBlob(oid, me);
      r := match again
        case Ok(bytes) => Ok(bytes)
        case Err(MissingObject(o)) => Err(InFetcher(NotPresentAfterFetch(o)))
        case Err(e) => Err(InStore(e));
    }

    // ------------------------------------------------------------ batches

    /** Put what a batch taught us into the header cache; the cache stays behind the database. */
    method Publish(probes: seq<Probe>, oids: seq<Oid>, ghost me: nat)
      requires Valid() && Unclaimed(me) && Answered(oids, probes, store.resident)
      requires Honest() ==> forall p | p in probes :: ProbeTrue(store.world, p)
      modifies Footprint()
      ensures Valid() && Unclaimed(me) && Grown()
      ensures Sent(me) == if backend.GitCliBackend? then old(Sent(me)) + Publications(probes) else []
      ensures Answered(oids, probes, store.resident)
    {
      hide ObjectStore.Valid, ObjectStore.HeadersResident, ObjectStore.HeadersTrue, PrefetchClaims.Valid, Publications;
      ghost var start := Sent(me);
      NothingPublished(start, probes);
      for i := 0 to |probes|
        invariant Valid() && Unclaimed(me) && Grown()
        invariant Sent(me) == if backend.GitCliBackend? then start + Publications(probes[..i]) else []
        invariant Answered(oids, probes, store.resident)
      {
        Others(me);
        PublishOne(probes[i], me);
        OnePublished(start, probes, i);
      }
      assert probes[..|probes|] == probes;
    }

    /** One answer: a header goes into the cache as it is, a presence has its header looked
        up there; errors change nothing. */
    method PublishOne(p: Probe, ghost me: nat)
      requires Valid() && Unclaimed(me)
      requires p.PresentWithHeader? ==> p.oid in store.resident
      requires !p.HeaderOnly? && (Honest() ==> ProbeTrue(store.world, p))
      modifies Footprint()
      ensures Valid() && Unclaimed(me) && Grown()
      ensures Sent(me) == if backend.GitCliBackend? && !p.ProbeError? then old(Sent(me)) + [Published(p)] else old(Sent(me))
      ensures p.PresentWithHeader? && store.headerCache.capacity > 0 ==>
        p.oid in store.headerCache.Held() && store.headerCache.Held()[p.oid] == Git.Header(p.kind, p.size)
      ensures p.Present? && p.oid in store.resident && store.headerCache.capacity > 0 ==> p.oid in store.headerCache.Held()
    {
      hide ObjectStore.Valid, PrefetchClaims.Valid;
      if p.PresentWithHeader? || p.HeaderOnly? {
        store.PutHeaderCache(p.oid, Git.Header(p.kind, p.size));
      } else if p.Present? {
        var _ := store.Header(p.oid);
      }
      if backend.GitCliBackend? && !p.ProbeError? {
        backend.fetcher.Record(me, Published(p));
      }
    }

    method File(probes: seq<Probe>) returns (byOid: map<Oid, Probe>)
      ensures byOid == Collect(probes)
    {
      byOid := map[];
      for i := 0 to |probes|
        invariant byOid == Collect(probes[..i])
      {
        assert probes[..i + 1][..i] == probes[..i];
        byOid := byOid[probes[i].oid := probes[i]];
      }
      assert probes[..|probes|] == probes;
    }

    /** The store's own header of an OID; without one the object is absent. */
    method Known(oid: Oid, ghost me: nat) returns (known: bool)
      requires Valid() && Unclaimed(me)
      modifies store.headerCache
      ensures Valid() && Unclaimed(me) && Sent(me) == old(Sent(me))
      ensures known == (oid in store.resident)
    {
      hide ObjectStore.Valid, PrefetchClaims.Valid;
      var h := store.Header(oid);
      known := h.Ok?;
    }

    /** `prefetch_headers`: OIDs whose header is at hand are not asked for. */
    method PrefetchHeaders(oids: seq<Oid>, ghost me: nat) returns (out: seq<Probe>, ghost asked: Asked)
      requires Valid() && Unclaimed(me)
      modifies Footprint()
      ensures Valid() && Unclaimed(me) && Grown()
      ensures BatchOk(oids, asked, old(store.resident), store.resident, out)
      ensures Sent(me) == old(Sent(me)) + EventsOf(asked)
      ensures asked.oids != [] ==> asked.run.Some? == backend.GitCliBackend?
      ensures Distinct(oids) ==> Distinct(asked.oids)
    {
      hide ObjectStore.Valid, ObjectStore.HeadersResident, ObjectStore.HeadersTrue, PrefetchClaims.Valid, Elements, Distinct;
      var toQuery: seq<Oid> := [];
      NothingToAsk(oids);
      for i := 0 to |oids|
        invariant Valid() && Unclaimed(me) && Grown() && Sent(me) == old(Sent(me))
        invariant Elements(oids[..i]) - store.resident <= Elements(toQuery) <= Elements(oids[..i]) - old(store.resident)
        invariant Distinct(oids) ==> Distinct(toQuery)
      {
        Others(me);
        var known := Known(oids[i], me);
        NextToAsk(oids, i, toQuery);
        if !known {
          toQuery := toQuery + [oids[i]];
        }
      }
      assert oids[..|oids|] == oids;
      out, asked := AskFor(oids, toQuery, old(store.resident), me);
    }

    /** `fetch_objects`: the same, with the bytes in mind rather than the header. */
    method FetchObjects(oids: seq<Oid>, ghost me: nat) returns (out: seq<Probe>, ghost asked: Asked)
      requires Valid() && Unclaimed(me)
      modifies Footprint()
      ensures Valid() && Unclaimed(me) && Grown()
      ensures BatchOk(oids, asked, old(store.resident), store.resident, out)
      ensures Sent(me) == old(Sent(me)) + EventsOf(asked)
      ensures asked.oids != [] ==> asked.run.Some? == backend.GitCliBackend?
      ensures Distinct(oids) ==> Distinct(asked.oids)
    {
      hide ObjectStore.Valid, ObjectStore.HeadersResident, ObjectStore.HeadersTrue, PrefetchClaims.Valid, Elements, Distinct;
      var toFetch: seq<Oid> := [];
      NothingToAsk(oids);
      for i := 0 to |oids|
        invariant Valid() && Unclaimed(me) && Grown() && Sent(me) == old(Sent(me))
        invariant Elements(oids[..i]) - store.resident <= Elements(toFetch) <= Elements(oids[..i]) - old(store.resident)
        invariant Distinct(oids) ==> Distinct(toFetch)
      {
        Others(me);
        var present := store.Contains(oids[i]);
        NextToAsk(oids, i, toFetch);
        if !present {
          toFetch := toFetch + [oids[i]];
        }
      }
      assert oids[..|oids|] == oids;
      out, asked := AskFor(oids, toFetch, old(store.resident), me);
    }

    /** The shared second half: ask, publish, put the answers back in the caller's order.
        What is asked for was absent at its check; it may have landed since. */
    method AskFor(oids: seq<Oid>, toAsk: seq<Oid>, ghost before: set<Oid>, ghost me: nat) returns (out: seq<Probe>, ghost asked: Asked)
      requires Valid() && Unclaimed(me) && before <= store.resident
      requires Elements(oids) - store.resident <= Elements(toAsk) <= Elements(oids) - before
      modifies Footprint()
      ensures Valid() && Unclaimed(me) && Grown()
      ensures BatchOk(oids, asked, before, store.resident, out)
      ensures Sent(me) == old(Sent(me)) + EventsOf(asked)
      ensures asked.oids != [] ==> asked.run.Some? == backend.GitCliBackend?
      ensures asked.oids == toAsk
    {
      hide ObjectStore.Valid, ObjectStore.HeadersResident, ObjectStore.HeadersTrue, PrefetchClaims.Valid, FiledOk, Elements, BatchEvents, Publications, EventsOf;
      if toAsk == [] {
        out := seq(|oids|, i requires 0 <= i < |oids| => Present(oids[i]));
        asked := Asked([], [], None);
        BatchThenPublished([], asked);
        AllPresent(oids);
        return;
      }
      Others(me);
      ghost var started := store.resident;
      var probes;
      ghost var run;
      probes, run := FetchBatch(toAsk, me);
      ghost var answered := store.resident;
      Publish(probes, toAsk, me);
      var byOid := File(probes);
      out := Reassemble(oids, byOid, AssumePresent);
      asked := Asked(toAsk, probes, run);
      BatchThenPublished(old(Sent(me)), asked);
      BackendStays(asked, started, answered, before, store.resident);
    }
  }

  /** An earlier start and a later end: the account of a batch stays true. */
  lemma BackendStays(asked: Asked, started: set<Oid>, answered: set<Oid>, before: set<Oid>, now: set<Oid>)
    requires before <= started && answered <= now && FromBackend(asked, started, answered)
    ensures FromBackend(asked, before, now)
  {
    hide LeadOf;
    if asked.run.Some? {
      FiledStays(asked.oids, asked.run.value, started, answered, before, now);
    }
  }

  lemma BatchStays(oids: seq<Oid>, asked: Asked, started: set<Oid>, before: set<Oid>, now: set<Oid>, out: seq<Probe>)
    requires before <= started && BatchOk(oids, asked, started, now, out)
    ensures BatchOk(oids, asked, before, now, out)
  {
    hide FromBackend;
    BackendStays(asked, started, now, before, now);
  }

  /** Nothing wanted, nothing asked for. */
  lemma NoBatch(before: set<Oid>, now: set<Oid>)
    ensures BatchOk([], Asked([], [], None), before, now, []) && EventsOf(Asked([], [], None)) == []
  {
  }

  lemma {:induction false} DrainedAreTrue(world: World, oids: seq<Oid>, filed: map<Oid, Probe>)
    requires FiledTrue(world, filed)
    ensures forall p | p in Drain(oids, filed, MissingResult) :: ProbeTrue(world, p)
  {
    var out := Drain(oids, filed, MissingResult);
    DrainLength(oids, filed, MissingResult);
    forall i | 0 <= i < |oids| ensures ProbeTrue(world, out[i]) {
      DrainAt(oids, filed, MissingResult, i);
    }
  }

  lemma NothingToAsk(oids: seq<Oid>)
    ensures Elements(oids[..0]) == Elements<Oid>([]) == {} && Distinct<Oid>([])
  {
  }

  lemma NextToAsk(oids: seq<Oid>, i: nat, toAsk: seq<Oid>)
    requires i < |oids| && Elements(toAsk) <= Elements(oids[..i])
    ensures Elements(oids[..i + 1]) == Elements(oids[..i]) + {oids[i]}
    ensures Elements(toAsk + [oids[i]]) == Elements(toAsk) + {oids[i]}
    ensures Distinct(oids) && Distinct(toAsk) ==> Distinct(toAsk + [oids[i]])
  {
    assert oids[..i + 1] == oids[..i] + [oids[i]];
    if Distinct(oids) {
      forall k | 0 <= k < |toAsk| ensures toAsk[k] != oids[i] {
        assert toAsk[k] in Elements(toAsk);
      }
    }
  }

  lemma NothingPublished(start: seq<Event>, probes: seq<Probe>)
    ensures start == start + Publications(probes[..0])
  {
  }

  lemma OnePublished(start: seq<Event>, probes: seq<Probe>, i: nat)
    requires i < |probes|
    ensures start + Publications(probes[..i + 1]) ==
      start + Publications(probes[..i]) + if probes[i].ProbeError? then [] else [Published(probes[i])]
  {
    assert probes[..i + 1][..i] == probes[..i];
  }

  lemma BatchThenPublished(start: seq<Event>, asked: Asked)
    ensures asked.run.Some? ==>
      start + BatchEvents(asked.oids, asked.run.value) + Publications(asked.probes) == start + EventsOf(asked)
    ensures asked.run.None? ==> EventsOf(asked) == []
  {
  }

  lemma WhenMissing(store: ObjectStore, oid: Oid)
    requires store.Valid()
    ensures var r := TreeOf(store.world, store.resident, oid); r.Err? && r.error.MissingObject? <==> oid !in store.resident
    ensures var r := BlobOf(store.world, store.resident, oid); r.Err? && r.error.MissingObject? <==> oid !in store.resident
  {
  }

  lemma NothingFetched(backend: Backend, oid: Oid, now: set<Oid>)
    ensures HydrationOk(backend, oid, NotNeeded, now, now) && SentFor(oid, NotNeeded) == []
  {
  }

  /** An earlier start and a later end: the account of a fetch stays true. */
  lemma HydrationStays(
      backend: Backend, oid: Oid, fetch: Hydration, started: set<Oid>, answered: set<Oid>, before: set<Oid>, now: set<Oid>)
    requires before <= started && answered <= now && HydrationOk(backend, oid, fetch, started, answered)
    ensures HydrationOk(backend, oid, fetch, before, now)
  {
    hide FetchOk;
    if fetch.Tried? && fetch.run.Some? {
      FetchStays(oid, fetch.run.value, started, answered, before, now, fetch.result);
    }
  }

  /** With nothing filed, every input gets a presence. */
  lemma {:induction false} AllPresent(oids: seq<Oid>)
    ensures Drain(oids, map[], AssumePresent) == seq(|oids|, i requires 0 <= i < |oids| => Present(oids[i]))
  {
    DrainLength(oids, map[], AssumePresent);
    forall i | 0 <= i < |oids| ensures Drain(oids, map[], AssumePresent)[i] == Present(oids[i]) {
      DrainAt(oids, map[], AssumePresent, i);
    }
  }
}
