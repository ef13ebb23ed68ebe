/** The fetcher that drives `git cat-file --batch-check`.

    Other threads share the store, the claims and the children. `Others` is everything
    they may do between two steps of ours: objects may land, caches may move and claims
    come and go, but nothing disappears from the database and our own claim is safe.
    `trace` records what each caller claimed and sent to git. */
module GitCli {
  import opened Git
  import opened Probes
  import opened Claims
  import opened Sequences
  import opened Wire
  import opened StatusLine
  import opened ObjectStore

  /** One try at a batch through a pool slot. */
  datatype Try = SpawnError(msg: string) | PipeError(msg: string) | ResponseLines(lines: seq<string>)

  /** What a caller does that others notice: a claim, made while peers held `taken`, an
      on-demand fetch entered while the fetches `flying` were led by others, a batch sent
      to git, or the answer about an object put into the header cache. */
  datatype Event =
    | Claimed(oids: seq<Oid>, taken: set<Oid>)
    | Entered(oid: Oid, flying: map<Oid, nat>)
    | Queried(batch: seq<Oid>, answer: Try)
    | Published(probe: Probe)

  /** How an on-demand fetch went: nothing to do, done by this caller, or left to the one
      who was already fetching the object; and the tries that took whoever did it. */
  datatype How =
    | WasLocal
    | Led(flying: map<Oid, nat>, tries: seq<Try>, raw: Result<(), FetcherError>)
    | Followed(flying: map<Oid, nat>, tries: seq<Try>, raw: Result<(), FetcherError>)

  datatype FetchRun = FetchRun(started: set<Oid>, how: How)

  /** How a header batch went: the answers filed by OID; what was to be asked, what peers
      had in flight and what was resident at the claim; the OIDs this caller led and the
      tries that took; and what was resident when the responses were in. */
  datatype BatchRun = BatchRun(
    filed: map<Oid, Probe>, toQuery: seq<Oid>, taken: set<Oid>, atClaim: set<Oid>, lead: seq<Oid>, tries: seq<Try>, seen: set<Oid>)

  function Queries(batch: seq<Oid>, tries: seq<Try>): seq<Event> {
    if tries == [] then [] else
    Queries(batch, tries[..|tries| - 1]) + [Queried(batch, tries[|tries| - 1])]
  }

  lemma QueriesSnoc(batch: seq<Oid>, tries: seq<Try>, answer: Try)
    ensures Queries(batch, tries + [answer]) == Queries(batch, tries) + [Queried(batch, answer)]
    ensures Queries(batch, []) == []
  {
    assert (tries + [answer])[..|tries|] == tries;
  }

  /** One claim, then every try with exactly the lead set; nothing for an empty batch. */
  function BatchEvents(oids: seq<Oid>, run: BatchRun): seq<Event> {
    if oids == [] then [] else [Claimed(run.toQuery, run.taken)] + Queries(run.lead, run.tries)
  }

  /** What is published of a batch: every answer that is not an error, in order. */
  function Publications(probes: seq<Probe>): seq<Event> {
    if probes == [] then [] else
    var n := |probes| - 1;
    Publications(probes[..n]) + if probes[n].ProbeError? then [] else [Published(probes[n])]
  }

  /** A fetch asks about its object alone, and a follower asks nothing. */
  function FetchEvents(oid: Oid, run: FetchRun): seq<Event> {
    match run.how
    case WasLocal => []
    case Led(flying, tries, _) => [Entered(oid, flying)] + Queries([oid], tries)
    case Followed(flying, _, _) => [Entered(oid, flying)]
  }

  /** What the callers did, with more events of caller `me`. */
  ghost function Logged(trace: nat -> seq<Event>, me: nat, more: seq<Event>): nat -> seq<Event> {
    (x: nat) => if x == me then trace(x) + more else trace(x)
  }

  /** These events are part of what somebody did, one right after the other. */
  ghost predicate Within(part: seq<Event>, whole: seq<Event>) {
    exists before, after :: whole == before + part + after
  }

  const BROKEN_BATCH := "git cat-file --batch-check (batch): "

  function MissingResult(oid: Oid): Probe {
    ProbeError(oid, FetchBackend(oid, "prefetch_headers: missing result"))
  }

  /** At most two tries, the second only after a broken pipe. */
  ghost predicate TwoAttempts(tries: seq<Try>) {
    && |tries| <= 2
    && (|tries| == 2 ==> tries[0].PipeError?)
  }

  /** The probe that try must give the k-th OID of the batch. */
  ghost predicate Reported(last: Try, k: nat, oid: Oid, seen: set<Oid>, now: set<Oid>, p: Probe) {
    match last
    case SpawnError(msg) => p == ProbeError(oid, FetchBackend(oid, SPAWN + msg))
    case PipeError(msg) => p == ProbeError(oid, Transport(oid, BROKEN_BATCH + msg))
    case ResponseLines(lines) =>
      k < |lines| &&
      match ParseLine(oid, lines[k])
      case Err(e) => p == ProbeError(oid, e)
      case Ok(MissingLine) => p == ProbeError(oid, Refused(oid, MISSING_REPORT))
      case Ok(HeaderLine(kind, size)) =>
        || (p == PresentWithHeader(oid, kind, size) && oid in now)
        || (p == ProbeError(oid, NotPresentAfterFetch(oid)) && oid !in seen)
  }

  /** An OID left to a peer: its header if it can be read, and otherwise a presence,
      which is then said of an object that was still absent when it was skipped. */
  ghost predicate Skipped(oid: Oid, atClaim: set<Oid>, now: set<Oid>, p: Probe) {
    (p == Present(oid) && oid !in atClaim) || (p.PresentWithHeader? && p.oid == oid && oid in now)
  }

  /** What is local is filed as present; what is not is claimed; what a peer holds is
      skipped; the rest is asked for and filed by its answer. */
  ghost predicate FiledOk(oids: seq<Oid>, run: BatchRun, before: set<Oid>, now: set<Oid>) {
    && run.filed.Keys == Elements(oids)
    && before <= run.atClaim <= run.seen <= now
    && Elements(oids) - run.atClaim <= Elements(run.toQuery) <= Elements(oids) - before
    && run.lead == LeadOf(run.toQuery, run.taken)
    && TwoAttempts(run.tries) && (run.lead == [] <==> run.tries == [])
    && LocalFiled(run) && SkippedFiled(run, now) && LedFiled(run, now)
  }

  ghost predicate LocalFiled(run: BatchRun) {
    forall o | o in run.filed && o !in run.toQuery :: run.filed[o] == Present(o)
  }

  ghost predicate SkippedFiled(run: BatchRun, now: set<Oid>) {
    forall o | o in run.filed && o in run.toQuery && o !in run.lead :: Skipped(o, run.atClaim, now, run.filed[o])
  }

  ghost predicate LedFiled(run: BatchRun, now: set<Oid>) {
    forall k | 0 <= k < |run.lead| :: LedAt(run, k, now)
  }

  ghost predicate LedAt(run: BatchRun, k: nat, now: set<Oid>)
    requires k < |run.lead|
  {
    && run.lead[k] in run.filed && run.tries != []
    && (run.tries[|run.tries| - 1].PipeError? ==> |run.tries| == 2)
    && Reported(run.tries[|run.tries| - 1], k, run.lead[k], run.seen, now, run.filed[run.lead[k]])
  }

  /** A header line describes the object it names. */
  predicate LineTrue(world: World, oid: Oid, line: string) {
    match ParseLine(oid, line)
    case Ok(HeaderLine(kind, size)) => oid in world && world[oid].Kind() == kind && world[oid].Size() == size
    case _ => true
  }

  predicate LinesTrue(world: World, oids: seq<Oid>, lines: seq<string>)
    requires |lines| == |oids|
  {
    forall k | 0 <= k < |oids| :: LineTrue(world, oids[k], lines[k])
  }

  /** A probe's header is the object's own. */
  ghost predicate ProbeTrue(world: World, p: Probe) {
    p.PresentWithHeader? ==> p.oid in world && world[p.oid].Kind() == p.kind && world[p.oid].Size() == p.size
  }

  ghost predicate FiledTrue(world: World, filed: map<Oid, Probe>) {
    forall o | o in filed :: ProbeTrue(world, filed[o])
  }

  /** What follows for the caller of a batch, whatever the children said: one probe per
      OID, in order and naming it; a header comes only with the object resident. A bare
      presence means that the object was resident by the time of the claim, unless a peer
      was fetching it, and then it means that it was not. */
  lemma {:induction false} BatchKeepsThePromise(oids: seq<Oid>, run: BatchRun, before: set<Oid>, now: set<Oid>)
    requires FiledOk(oids, run, before, now)
    ensures var out := Drain(oids, run.filed, MissingResult);
      && |out| == |oids|
      && (forall i | 0 <= i < |oids| :: out[i].oid == oids[i] && !out[i].HeaderOnly?)
      && (forall i | 0 <= i < |oids| && out[i].PresentWithHeader? :: oids[i] in now)
      && (forall i | 0 <= i < |oids| && out[i].Present? ::
            oids[i] in run.atClaim <==> !(oids[i] in run.toQuery && oids[i] in run.taken))
      && (forall i | 0 <= i < |oids| && oids[i] in before && oids[i] !in oids[..i] :: out[i] == Present(oids[i]))
  {
    hide LeadOf;
    DrainLength(oids, run.filed, MissingResult);
    forall i | 0 <= i < |oids|
      ensures var p := Drain(oids, run.filed, MissingResult)[i];
        p.oid == oids[i] && !p.HeaderOnly? && (p.PresentWithHeader? ==> oids[i] in now)
        && (p.Present? ==> (oids[i] in run.atClaim <==> !(oids[i] in run.toQuery && oids[i] in run.taken)))
        && (oids[i] in before && oids[i] !in oids[..i] ==> p == Present(oids[i]))
    {
      DrainAt(oids, run.filed, MissingResult, i);
      OneAnswer(oids, run, before, now, oids[i]);
    }
  }

  /** The answer filed for one OID. */
  lemma OneAnswer(oids: seq<Oid>, run: BatchRun, before: set<Oid>, now: set<Oid>, o: Oid)
    requires FiledOk(oids, run, before, now) && o in oids
    ensures o in run.filed
    ensures var p := run.filed[o];
      && p.oid == o && !p.HeaderOnly? && (p.PresentWithHeader? ==> o in now)
      && (p.Present? ==> (o in run.atClaim <==> !(o in run.toQuery && o in run.taken)))
      && (o in before ==> p == Present(o))
  {
    hide LeadOf, Reported;
    assert o in Elements(oids);
    LeadIsWhatIsFree(run.toQuery, run.taken);
    assert o in run.lead <==> o in Elements(run.lead);
    assert o in run.toQuery <==> o in Elements(run.toQuery);
    if k :| 0 <= k < |run.lead| && run.lead[k] == o {
      assert LedAt(run, k, now);
      LineNamesItsOid(run.tries[|run.tries| - 1], k, o, run.seen, now, run.filed[o]);
    }
  }

  lemma LineNamesItsOid(last: Try, k: nat, oid: Oid, seen: set<Oid>, now: set<Oid>, p: Probe)
    requires Reported(last, k, oid, seen, now, p)
    ensures p.oid == oid && !p.HeaderOnly? && !p.Present? && (p.PresentWithHeader? ==> oid in now)
  {
  }

  /** The verdict on a line, whichever way the presence check went. */
  ghost predicate Classified(oid: Oid, line: string, r: Result<(), FetcherError>) {
    r == Verdict(oid, line, true) || r == Verdict(oid, line, false)
  }

  /** The outcome of `raw_fetch` after these tries. */
  ghost predicate RawResult(oid: Oid, tries: seq<Try>, now: set<Oid>, r: Result<(), FetcherError>) {
    && TwoAttempts(tries)
    && (r.Ok? ==> oid in now)
    && (tries == [] ==> r.Ok?)
    && (tries != [] ==>
          match tries[|tries| - 1]
          case SpawnError(msg) => r == Err(FetchBackend(oid, SPAWN + msg))
          case PipeError(msg) => if |tries| == 2 then r == Err(Transport(oid, BROKEN_QUERY + msg)) else r.Ok?
          case ResponseLines(lines) => |lines| == 1 && Classified(oid, lines[0], r))
  }

  /** The answer of a fetch, from what the one who led it got. */
  function Retyped(oid: Oid, raw: Result<(), FetcherError>): Result<(), FetcherError> {
    if raw.Ok? then Ok(()) else Err(Reclassify(oid, AsText(raw).error))
  }

  /** `fetch_object`: a resident object is not fetched; a caller leads exactly when nobody
      is fetching the object already; leader and follower both answer what the leader's
      tries gave. */
  ghost predicate FetchOk(oid: Oid, run: FetchRun, before: set<Oid>, now: set<Oid>, r: Result<(), FetcherError>) {
    && before <= run.started <= now
    && (r.Ok? ==> oid in now)
    && (r.Err? ==> !r.error.NotHydratable?)
    && match run.how
       case WasLocal => oid in run.started && r.Ok?
       case Led(flying, tries, raw) =>
         oid !in run.started && oid !in flying && RawResult(oid, tries, now, raw) && r == Retyped(oid, raw)
       case Followed(flying, tries, raw) =>
         oid !in run.started && oid in flying && RawResult(oid, tries, now, raw) && r == Retyped(oid, raw)
  }

  lemma FetchStays(oid: Oid, run: FetchRun, started: set<Oid>, answered: set<Oid>, before: set<Oid>, now: set<Oid>, r: Result<(), FetcherError>)
    requires before <= started && answered <= now && FetchOk(oid, run, started, answered, r)
    ensures FetchOk(oid, run, before, now, r)
  {
    hide Retyped, Classified;
  }

  /** Tries somebody can have made, and what they come to. */
  predicate Plausible(tries: seq<Try>, present: bool) {
    && |tries| <= 2 && (|tries| == 2 ==> tries[0].PipeError?)
    && if tries == [] then present else
       var last := tries[|tries| - 1];
       (last.PipeError? && |tries| < 2 ==> present) && (last.ResponseLines? ==> |last.lines| == 1)
  }

  function Outcome(oid: Oid, tries: seq<Try>, present: bool): Result<(), FetcherError>
    requires Plausible(tries, present)
  {
    if tries == [] then Ok(()) else
    match tries[|tries| - 1]
    case SpawnError(msg) => Err(FetchBackend(oid, SPAWN + msg))
    case PipeError(msg) => if |tries| == 2 then Err(Transport(oid, BROKEN_QUERY + msg)) else Ok(())
    case ResponseLines(lines) => Verdict(oid, lines[0], present)
  }

  lemma OutcomeIsRaw(oid: Oid, tries: seq<Try>, now: set<Oid>)
    requires Plausible(tries, oid in now)
    ensures RawResult(oid, tries, now, Outcome(oid, tries, oid in now))
    ensures Outcome(oid, tries, oid in now).Ok? ==> oid in now
  {
    hide ParseLine;
  }

  class GitCliFetcher {
    const store: ObjectStore
    const claims: PrefetchClaims

    /** Whether git is trusted to describe objects truthfully. Residency does not need it. */
    const honest: bool

    /** The objects somebody is fetching on demand, and who leads each of these fetches. */
    var inFlight: set<Oid>
    ghost var flights: map<Oid, nat>

    /** What each caller claimed and sent, oldest first. */
    ghost var trace: nat -> seq<Event>

    /** The header cache is never ahead of the database. */
    ghost predicate Valid()
      reads Footprint()
    {
      && store.Valid() && store.HeadersResident() && (honest ==> store.HeadersTrue()) && claims.Valid()
      && inFlight == flights.Keys
    }

    /** The fetches this caller leads. */
    ghost function Mine(me: nat): set<Oid>
      reads this
    {
      set o | o in flights && flights[o] == me
    }

    ghost function Footprint(): set<object>
    {
      {this, store, store.treeCache, store.blobCache, store.headerCache, claims}
    }

    constructor (store: ObjectStore, honest: bool)
      requires store.Valid() && store.HeadersResident() && (honest ==> store.HeadersTrue())
      ensures Valid() && this.store == store && this.honest == honest && fresh(claims) && claims.guards == map[] && flights == map[]
    {
      this.store, this.honest := store, honest;
      inFlight, flights, trace := {}, map[], _ => [];
      claims := new PrefetchClaims();
    }

    /** Nothing already known was undone. */
    twostate predicate Grown()
      reads Footprint()
    {
      old(store.resident) <= store.resident
    }

    twostate predicate ClaimKept(me: nat)
      reads Footprint()
    {
      && (me in claims.guards <==> me in old(claims.guards))
      && (me in claims.guards ==> claims.guards[me] == old(claims.guards[me]))
      && Mine(me) == old(Mine(me))
    }

    /** This caller neither claimed nor sent anything. */
    twostate predicate Quiet(me: nat)
      reads Footprint()
    {
      ClaimKept(me) && trace(me) == old(trace(me))
    }

    method Others(ghost me: nat)
      requires Valid()
      modifies Footprint()
      ensures Valid() && Grown() && Quiet(me)
    {
      var more: set<Oid> :| more <= store.world.Keys;
      store.Land(more);
    }

    /** One round trip of a batch through a slot. That the lines come one per OID and in
        order is what the pool guarantees of its children. */
    method QueryBatch(batch: seq<Oid>, ghost me: nat) returns (r: Try)
      requires Valid()
      modifies Footprint()
      ensures Valid() && Grown() && ClaimKept(me)
      ensures trace(me) == old(trace(me)) + [Queried(batch, r)]
      ensures r.ResponseLines? ==> |r.lines| == |batch| && (honest ==> LinesTrue(store.world, batch, r.lines))
    {
      hide ObjectStore.Valid, ObjectStore.HeadersResident, ObjectStore.HeadersTrue, PrefetchClaims.Valid;
      Others(me);
      r := *;
      if r.ResponseLines? && (|r.lines| != |batch| || (honest && !LinesTrue(store.world, batch, r.lines))) {
        r := PipeError("git cat-file --batch-check closed stdout mid-batch");
      }
      trace := Logged(trace, me, [Queried(batch, r)]);
    }

    /** A caller's own note of what it did. */
    ghost method Record(me: nat, e: Event)
      requires Valid()
      modifies this`trace
      ensures Valid() && trace(me) == old(trace(me)) + [e]
    {
      hide ObjectStore.Valid, ObjectStore.HeadersResident, ObjectStore.HeadersTrue, PrefetchClaims.Valid;
      trace := Logged(trace, me, [e]);
    }

    // -------------------------------------------------------- on-demand fetch

    method RawFetch(oid: Oid, ghost me: nat) returns (r: Result<(), FetcherError>, ghost tries: seq<Try>)
      requires Valid()
      modifies Footprint()
      ensures Valid() && Grown() && ClaimKept(me)
      ensures RawResult(oid, tries, store.resident, r)
      ensures trace(me) == old(trace(me)) + Queries([oid], tries)
      ensures r.Ok? ==> oid in store.resident
      ensures oid in old(store.resident) ==> tries == []
    {
      hide ObjectStore.Valid, ObjectStore.HeadersResident, ObjectStore.HeadersTrue, PrefetchClaims.Valid, ParseLine, Queries;
      tries := [];
      QueriesSnoc([oid], [], SpawnError(""));
      var msg := "exhausted retries";
      var attempt := 0;
      while attempt < 2
        invariant 0 <= attempt <= 2 && Valid() && Grown() && ClaimKept(me)
        invariant |tries| == attempt
        invariant forall k | 0 <= k < |tries| :: tries[k].PipeError?
        invariant tries != [] ==> tries[|tries| - 1] == PipeError(msg)
        invariant oid in old(store.resident) ==> tries == []
        invariant trace(me) == old(trace(me)) + Queries([oid], tries)
      {
        Others(me);
        var present := store.Contains(oid);
        if present {
          return Ok(()), tries;
        }
        var answer := QueryBatch([oid], me);
        QueriesSnoc([oid], tries, answer);
        tries := tries + [answer];
        match answer {
          case SpawnError(m) => return Err(FetchBackend(oid, SPAWN + m)), tries;
          case ResponseLines(lines) =>
            r := Classify(oid, lines[0], me);
            return r, tries;
          case PipeError(m) => msg := m;
        }
        attempt := attempt + 1;
      }
      r := Err(Transport(oid, BROKEN_QUERY + msg));
    }

    method Classify(oid: Oid, line: string, ghost me: nat) returns (r: Result<(), FetcherError>)
      requires Valid()
      modifies Footprint()
      ensures Valid() && Grown() && Quiet(me)
      ensures r.Ok? ==> oid in store.resident
      ensures Classified(oid, line, r)
      ensures oid in old(store.resident) ==> r == Verdict(oid, line, true)
    {
      hide ObjectStore.Valid, ObjectStore.HeadersResident, ObjectStore.HeadersTrue, PrefetchClaims.Valid, ParseLine;
      Others(me);
      match ParseLine(oid, line) {
        case Err(e) => r := Err(e);
        case Ok(MissingLine) => r := Err(Refused(oid, MISSING_REPORT));
        case Ok(HeaderLine(_, _)) =>
          var present := store.Contains(oid);
          r := if present then Ok(()) else Err(NotPresentAfterFetch(oid));
      }
    }

    /** Waiting for the caller who leads the fetch of this object: what its tries gave is
        shared as text. That it is shared at all, and when, is the subject of `Coalesce`. */
    method Join(oid: Oid, ghost leader: nat, ghost me: nat)
      returns (r: Result<(), string>, ghost tries: seq<Try>, ghost raw: Result<(), FetcherError>)
      requires Valid() && leader != me
      modifies Footprint()
      ensures Valid() && Grown() && Quiet(me)
      ensures RawResult(oid, tries, store.resident, raw) && r == AsText(raw) && (raw.Ok? ==> oid in store.resident)
      ensures Within(Queries([oid], tries), trace(leader))
    {
      hide ObjectStore.Valid, ObjectStore.HeadersResident, ObjectStore.HeadersTrue, PrefetchClaims.Valid, RawResult, AsText, Queries;
      Others(me);
      var present := store.Contains(oid);
      var made: seq<Try> := *;
      if !Plausible(made, present) {
        made := [SpawnError("")];
      }
      var outcome := Outcome(oid, made, present);
      OutcomeIsRaw(oid, made, store.resident);
      tries, raw, r := made, outcome, AsText(outcome);
      ghost var before := trace(leader);
      trace := Logged(trace, leader, Queries([oid], tries));
      assert trace(leader) == before + Queries([oid], tries) + [];
    }

    /** `fetch_object`. */
    method FetchObject(oid: Oid, ghost me: nat) returns (r: Result<(), FetcherError>, ghost run: FetchRun)
      requires Valid() && Mine(me) == {}
      modifies Footprint()
      ensures Valid() && Grown() && ClaimKept(me)
      ensures FetchOk(oid, run, old(store.resident), store.resident, r)
      ensures run.how.WasLocal? <==> oid in old(store.resident)
      ensures trace(me) == old(trace(me)) + FetchEvents(oid, run)
      ensures run.how.Followed? ==>
        run.how.flying[oid] != me && Within(Queries([oid], run.how.tries), trace(run.how.flying[oid]))
    {
      hide ObjectStore.Valid, ObjectStore.HeadersResident, ObjectStore.HeadersTrue, PrefetchClaims.Valid, RawResult, AsText, Reclassify,
           Queries, Within;
      ghost var started := store.resident;
      var present := store.Contains(oid);
      if present {
        return Ok(()), FetchRun(started, WasLocal);
      }
      Others(me);
      ghost var flying := flights;
      trace := Logged(trace, me, [Entered(oid, flying)]);
      var shared: Result<(), string>;
      if oid in inFlight {
        ghost var tries, raw;
        assert flights[oid] == me ==> oid in Mine(me);
        shared, tries, raw := Join(oid, flights[oid], me);
        run := FetchRun(started, Followed(flying, tries, raw));
      } else {
        var raw;
        ghost var tries;
        raw, tries := Lead(oid, me);
        shared := AsText(raw);
        run := FetchRun(started, Led(flying, tries, raw));
      }
      TextIsShared(oid, run.how.raw);
      r := if shared.Ok? then Ok(()) else Err(Reclassify(oid, shared.error));
    }

    /** Fetch an object nobody is fetching; others can join until it is done. */
    method Lead(oid: Oid, ghost me: nat) returns (raw: Result<(), FetcherError>, ghost tries: seq<Try>)
      requires Valid() && oid !in flights && Mine(me) == {}
      modifies Footprint()
      ensures Valid() && Grown() && ClaimKept(me)
      ensures RawResult(oid, tries, store.resident, raw) && (raw.Ok? ==> oid in store.resident)
      ensures trace(me) == old(trace(me)) + Queries([oid], tries)
    {
      hide ObjectStore.Valid, ObjectStore.HeadersResident, ObjectStore.HeadersTrue, PrefetchClaims.Valid, RawResult, Queries;
      inFlight, flights := inFlight + {oid}, flights[oid := me];
      assert Mine(me) == {oid};
      raw, tries := RawFetch(oid, me);
      inFlight, flights := inFlight - {oid}, flights - {oid};
    }

    // ---------------------------------------------------------- header batches

    /** One status query per OID: what is local is filed as present, the rest is to ask. */
    method Partition(oids: seq<Oid>, ghost me: nat) returns (toQuery: seq<Oid>, filed: map<Oid, Probe>)
      requires Valid()
      modifies Footprint()
      ensures Valid() && Grown() && Quiet(me)
      ensures Elements(toQuery) + filed.Keys == Elements(oids)
      ensures Elements(toQuery) !! old(store.resident) && filed.Keys <= store.resident
      ensures forall o | o in filed :: filed[o] == Present(o)
    {
      hide ObjectStore.Valid, ObjectStore.HeadersResident, ObjectStore.HeadersTrue, PrefetchClaims.Valid;
      toQuery, filed := [], map[];
      for i := 0 to |oids|
        invariant Valid() && Grown() && Quiet(me)
        invariant Elements(toQuery) + filed.Keys == Elements(oids[..i])
        invariant Elements(toQuery) !! old(store.resident) && filed.Keys <= store.resident
        invariant forall o | o in filed :: filed[o] == Present(o)
      {
        Others(me);
        var present := store.Contains(oids[i]);
        assert oids[..i + 1] == oids[..i] + [oids[i]];
        ElementsSnoc(oids[..i], oids[i]);
        ElementsSnoc(toQuery, oids[i]);
        if present {
          filed := filed[oids[i] := Present(oids[i])];
        } else {
          toQuery := toQuery + [oids[i]];
        }
      }
      assert oids[..|oids|] == oids;
    }

    /** OIDs a peer has claimed get whatever the store can say right now. */
    method FileSkipped(toQuery: seq<Oid>, lead: seq<Oid>, was: map<Oid, Probe>, ghost me: nat)
      returns (filed: map<Oid, Probe>)
      requires Valid()
      requires honest ==> FiledTrue(store.world, was)
      modifies Footprint()
      ensures Valid() && Grown() && Quiet(me)
      ensures filed.Keys == was.Keys + (Elements(toQuery) - Elements(lead))
      ensures forall o | o in toQuery && o !in lead :: Skipped(o, old(store.resident), store.resident, filed[o])
      ensures honest ==> FiledTrue(store.world, filed)
      ensures forall o | o in was && o !in Elements(toQuery) :: filed[o] == was[o]
    {
      hide ObjectStore.Valid, ObjectStore.HeadersResident, ObjectStore.HeadersTrue, PrefetchClaims.Valid;
      filed := was;
      for i := 0 to |toQuery|
        invariant Valid() && Grown() && Quiet(me)
        invariant filed.Keys == was.Keys + (Elements(toQuery[..i]) - Elements(lead))
        invariant forall o | o in toQuery[..i] && o !in lead :: Skipped(o, old(store.resident), store.resident, filed[o])
        invariant honest ==> FiledTrue(store.world, filed)
        invariant forall o | o in was && o !in toQuery[..i] :: filed[o] == was[o]
      {
        var oid := toQuery[i];
        assert toQuery[..i + 1] == toQuery[..i] + [oid];
        if oid !in lead {
          var probe := Peek(oid, me);
          filed := filed[oid := probe];
        }
      }
      assert toQuery[..|toQuery|] == toQuery;
    }

    method Peek(oid: Oid, ghost me: nat) returns (p: Probe)
      requires Valid()
      modifies Footprint()
      ensures Valid() && Grown() && Quiet(me)
      ensures Skipped(oid, old(store.resident), store.resident, p) && (honest ==> ProbeTrue(store.world, p))
    {
      hide ObjectStore.Valid, PrefetchClaims.Valid;
      Others(me);
      ghost var cached := store.headerCache.Held();
      var h := store.Header(oid);
      p := if h.Ok? then PresentWithHeader(oid, h.value.kind, h.value.size) else Present(oid);
    }

    /** Two tries, unless git itself cannot be started. */
    method QueryTwice(lead: seq<Oid>, ghost me: nat) returns (answer: Try, ghost tries: seq<Try>)
      requires Valid()
      modifies Footprint()
      ensures Valid() && Grown() && ClaimKept(me)
      ensures trace(me) == old(trace(me)) + Queries(lead, tries)
      ensures TwoAttempts(tries) && tries != [] && answer == tries[|tries| - 1]
      ensures answer.PipeError? ==> |tries| == 2
      ensures answer.ResponseLines? ==> |answer.lines| == |lead| && (honest ==> LinesTrue(store.world, lead, answer.lines))
    {
      hide ObjectStore.Valid, ObjectStore.HeadersResident, ObjectStore.HeadersTrue, PrefetchClaims.Valid, Queries;
      tries := [];
      answer := PipeError("exhausted retries");
      QueriesSnoc(lead, [], answer);
      var attempt := 0;
      while attempt < 2
        invariant 0 <= attempt <= 2 && Valid() && Grown() && ClaimKept(me)
        invariant |tries| == attempt && answer.PipeError?
        invariant forall k | 0 <= k < |tries| :: tries[k].PipeError?
        invariant tries != [] ==> answer == tries[|tries| - 1]
        invariant trace(me) == old(trace(me)) + Queries(lead, tries)
      {
        answer := QueryBatch(lead, me);
        QueriesSnoc(lead, tries, answer);
        tries := tries + [answer];
        if !answer.PipeError? {
          return answer, tries;
        }
        attempt := attempt + 1;
      }
    }

    /** The probe of one led OID. */
    method ReadAnswer(answer: Try, k: nat, oid: Oid, ghost seen: set<Oid>, ghost me: nat) returns (p: Probe)
      requires Valid() && seen <= store.resident
      requires answer.ResponseLines? ==> k < |answer.lines| && (honest ==> LineTrue(store.world, oid, answer.lines[k]))
      modifies Footprint()
      ensures Valid() && Grown() && Quiet(me)
      ensures Reported(answer, k, oid, seen, store.resident, p) && (honest ==> ProbeTrue(store.world, p))
    {
      hide ObjectStore.Valid, ObjectStore.HeadersResident, ObjectStore.HeadersTrue, PrefetchClaims.Valid, ParseLine;
      Others(me);
      match answer {
        case SpawnError(msg) => p := ProbeError(oid, FetchBackend(oid, SPAWN + msg));
        case PipeError(msg) => p := ProbeError(oid, Transport(oid, BROKEN_BATCH + msg));
        case ResponseLines(lines) =>
          match ParseLine(oid, lines[k]) {
            case Err(e) => p := ProbeError(oid, e);
            case Ok(MissingLine) => p := ProbeError(oid, Refused(oid, MISSING_REPORT));
            case Ok(HeaderLine(kind, size)) =>
              var present := store.Contains(oid);
              p := if present then PresentWithHeader(oid, kind, size) else ProbeError(oid, NotPresentAfterFetch(oid));
          }
      }
    }

    method FileLed(lead: seq<Oid>, answer: Try, was: map<Oid, Probe>, ghost me: nat) returns (filed: map<Oid, Probe>)
      requires Valid() && Distinct(lead)
      requires answer.ResponseLines? ==> |answer.lines| == |lead| && (honest ==> LinesTrue(store.world, lead, answer.lines))
      requires honest ==> FiledTrue(store.world, was)
      modifies Footprint()
      ensures Valid() && Grown() && Quiet(me)
      ensures filed.Keys == was.Keys + Elements(lead)
      ensures honest ==> FiledTrue(store.world, filed)
      ensures forall o | o in was && o !in lead :: filed[o] == was[o]
      ensures forall k | 0 <= k < |lead| ::
        lead[k] in filed && Reported(answer, k, lead[k], old(store.resident), store.resident, filed[lead[k]])
    {
      hide ObjectStore.Valid, ObjectStore.HeadersResident, ObjectStore.HeadersTrue, PrefetchClaims.Valid, ParseLine, Reported;
      filed := was;
      for i := 0 to |lead|
        invariant Valid() && Grown() && Quiet(me)
        invariant filed.Keys == was.Keys + Elements(lead[..i])
        invariant honest ==> FiledTrue(store.world, filed)
        invariant forall o | o in was && o !in lead[..i] :: filed[o] == was[o]
        invariant forall k | 0 <= k < i ::
          lead[k] in filed && Reported(answer, k, lead[k], old(store.resident), store.resident, filed[lead[k]])
      {
        ghost var now := store.resident;
        var probe := ReadAnswer(answer, i, lead[i], old(store.resident), me);
        forall k | 0 <= k < i ensures Reported(answer, k, lead[k], old(store.resident), store.resident, filed[lead[k]]) {
          ReportedStays(answer, k, lead[k], old(store.resident), now, store.resident, filed[lead[k]]);
        }
        assert lead[..i + 1] == lead[..i] + [lead[i]];
        filed := filed[lead[i] := probe];
      }
      assert lead[..|lead|] == lead;
    }

    /** `prefetch_headers`. The claim is given back on every way out, a spawn failure
        included. `me` stands for this call's guard. */
    method PrefetchHeaders(oids: seq<Oid>, ghost me: nat) returns (out: seq<Probe>, ghost run: BatchRun)
      requires Valid() && me !in claims.guards
      modifies Footprint()
      ensures Valid() && Grown() && me !in claims.guards
      ensures Mine(me) == old(Mine(me))
      ensures out == Drain(oids, run.filed, MissingResult)
      ensures FiledOk(oids, run, old(store.resident), store.resident)
      ensures trace(me) == old(trace(me)) + BatchEvents(oids, run)
      ensures honest ==> FiledTrue(store.world, run.filed)
    {
      hide ObjectStore.Valid, ObjectStore.HeadersResident, ObjectStore.HeadersTrue, PrefetchClaims.Valid, LeadOf, Elements, FiledOk, Distinct, FiledTrue;
      if oids == [] {
        run := BatchRun(map[], [], {}, store.resident, [], [], store.resident);
        EmptyBatch(store.resident);
        return [], run;
      }
      out, run := PrefetchSome(oids, me);
    }

    method PrefetchSome(oids: seq<Oid>, ghost me: nat) returns (out: seq<Probe>, ghost run: BatchRun)
      requires Valid() && me !in claims.guards && oids != []
      modifies Footprint()
      ensures Valid() && Grown() && me !in claims.guards
      ensures Mine(me) == old(Mine(me))
      ensures out == Drain(oids, run.filed, MissingResult)
      ensures FiledOk(oids, run, old(store.resident), store.resident)
      ensures trace(me) == old(trace(me)) + BatchEvents(oids, run)
      ensures honest ==> FiledTrue(store.world, run.filed)
    {
      hide ObjectStore.Valid, ObjectStore.HeadersResident, ObjectStore.HeadersTrue, PrefetchClaims.Valid, LeadOf, Elements, FiledOk,
           Distinct, FiledTrue, Drain, LocalFiled, SkippedFiled, Queries;
      var lead, filed;
      lead, filed, run := ClaimAndFile(oids, me);
      filed, run := AskAndFile(oids, lead, filed, run, old(store.resident), me);
      out := Reassemble(oids, filed, MissingResult);
      claims.Release(lead, me);
    }

    /** Everything before git is asked: what is local, what is won, what peers hold. */
    method ClaimAndFile(oids: seq<Oid>, ghost me: nat) returns (lead: seq<Oid>, filed: map<Oid, Probe>, ghost run: BatchRun)
      requires Valid() && me !in claims.guards
      modifies Footprint()
      ensures Valid() && Grown() && me in claims.guards && claims.guards[me] == Elements(lead)
      ensures Mine(me) == old(Mine(me))
      ensures old(store.resident) <= run.atClaim <= store.resident
      ensures Elements(oids) - run.atClaim <= Elements(run.toQuery) <= Elements(oids) - old(store.resident)
      ensures lead == run.lead == LeadOf(run.toQuery, run.taken)
      ensures filed == run.filed && filed.Keys + Elements(lead) == Elements(oids)
      ensures LocalFiled(run) && SkippedFiled(run, store.resident)
      ensures trace(me) == old(trace(me)) + [Claimed(run.toQuery, run.taken)]
      ensures honest ==> FiledTrue(store.world, filed)
    {
      hide ObjectStore.Valid, ObjectStore.HeadersResident, ObjectStore.HeadersTrue, PrefetchClaims.Valid, LeadOf, Elements,
           Distinct, FiledTrue, Skipped, LocalFiled, SkippedFiled;
      var toQuery, local := Partition(oids, me);
      PresencesAreTrue(store.world, local);
      ghost var taken, atClaim;
      lead, taken, atClaim := TakeLead(toQuery, me);
      filed := FileSkipped(toQuery, lead, local, me);
      run := BatchRun(filed, toQuery, taken, atClaim, lead, [], store.resident);
      LocalAndSkipped(oids, local, run, store.resident);
      ToQueryBounds(oids, toQuery, local.Keys, old(store.resident), atClaim);
    }

    /** Win what no peer is fetching. */
    method TakeLead(toQuery: seq<Oid>, ghost me: nat) returns (lead: seq<Oid>, ghost taken: set<Oid>, ghost atClaim: set<Oid>)
      requires Valid() && me !in claims.guards
      modifies Footprint()
      ensures Valid() && Grown() && old(store.resident) <= atClaim == store.resident
      ensures Mine(me) == old(Mine(me))
      ensures lead == LeadOf(toQuery, taken)
      ensures me in claims.guards && claims.guards[me] == Elements(lead)
      ensures trace(me) == old(trace(me)) + [Claimed(toQuery, taken)]
    {
      hide ObjectStore.Valid, ObjectStore.HeadersResident, ObjectStore.HeadersTrue, PrefetchClaims.Valid, LeadOf;
      Others(me);
      taken, atClaim := claims.inflight, store.resident;
      lead := claims.Claim(toQuery, me);
      trace := Logged(trace, me, [Claimed(toQuery, taken)]);
    }

    /** The part of a batch this caller leads, if any. */
    method AskAndFile(oids: seq<Oid>, lead: seq<Oid>, was: map<Oid, Probe>, ghost sofar: BatchRun, ghost before: set<Oid>, ghost me: nat)
      returns (filed: map<Oid, Probe>, ghost run: BatchRun)
      requires Valid() && before <= sofar.atClaim <= store.resident
      requires Elements(oids) - sofar.atClaim <= Elements(sofar.toQuery) <= Elements(oids) - before
      requires lead == sofar.lead == LeadOf(sofar.toQuery, sofar.taken)
      requires was == sofar.filed && was.Keys + Elements(lead) == Elements(oids)
      requires LocalFiled(sofar) && SkippedFiled(sofar, store.resident)
      requires honest ==> FiledTrue(store.world, was)
      modifies Footprint()
      ensures Valid() && Grown() && ClaimKept(me)
      ensures run.toQuery == sofar.toQuery && run.taken == sofar.taken && run.lead == lead
      ensures trace(me) == old(trace(me)) + Queries(lead, run.tries)
      ensures run.filed == filed && FiledOk(oids, run, before, store.resident)
      ensures honest ==> FiledTrue(store.world, filed)
    {
      hide ObjectStore.Valid, ObjectStore.HeadersResident, ObjectStore.HeadersTrue, PrefetchClaims.Valid, LeadOf, Reported, Skipped, FiledTrue, LinesTrue;
      LeadIsWhatIsFree(sofar.toQuery, sofar.taken);
      if lead == [] {
        return was, sofar.(tries := [], seen := store.resident);
      }
      ghost var now := store.resident;
      var answer;
      ghost var tries;
      answer, tries := QueryTwice(lead, me);
      ghost var seen := store.resident;
      filed := FileLed(lead, answer, was, me);
      run := sofar.(filed := filed, tries := tries, seen := seen);
      OthersStayFiled(sofar, run, now, store.resident);
    }
  }

  lemma ToQueryBounds(oids: seq<Oid>, toQuery: seq<Oid>, local: set<Oid>, before: set<Oid>, atClaim: set<Oid>)
    requires Elements(toQuery) + local == Elements(oids)
    requires Elements(toQuery) !! before && local <= atClaim
    ensures Elements(oids) - atClaim <= Elements(toQuery) <= Elements(oids) - before
  {
  }

  /** What is filed before the led OIDs are asked for. */
  lemma LocalAndSkipped(oids: seq<Oid>, local: map<Oid, Probe>, run: BatchRun, now: set<Oid>)
    requires Elements(run.toQuery) + local.Keys == Elements(oids)
    requires run.lead == LeadOf(run.toQuery, run.taken)
    requires run.filed.Keys == local.Keys + (Elements(run.toQuery) - Elements(run.lead))
    requires forall o | o in local && o !in Elements(run.toQuery) :: run.filed[o] == local[o] == Present(o)
    requires forall o | o in run.toQuery && o !in run.lead :: Skipped(o, run.atClaim, now, run.filed[o])
    ensures run.filed.Keys + Elements(run.lead) == Elements(oids)
    ensures LocalFiled(run) && SkippedFiled(run, now)
  {
    hide LeadOf, Skipped;
    LeadIsWhatIsFree(run.toQuery, run.taken);
  }

  /** Filing the led OIDs leaves the other answers as they were. */
  lemma OthersStayFiled(sofar: BatchRun, run: BatchRun, now: set<Oid>, later: set<Oid>)
    requires now <= later && LocalFiled(sofar) && SkippedFiled(sofar, now)
    requires run.toQuery == sofar.toQuery && run.atClaim == sofar.atClaim && run.lead == sofar.lead
    requires Elements(run.lead) <= Elements(run.toQuery)
    requires run.filed.Keys == sofar.filed.Keys + Elements(run.lead)
    requires forall o | o in sofar.filed && o !in run.lead :: run.filed[o] == sofar.filed[o]
    ensures LocalFiled(run) && SkippedFiled(run, later)
  {
    forall o | o in run.filed && o !in run.toQuery ensures run.filed[o] == Present(o) {
      assert o !in Elements(run.toQuery);
      assert o in sofar.filed;
    }
    forall o | o in run.filed && o in run.toQuery && o !in run.lead ensures Skipped(o, run.atClaim, later, run.filed[o]) {
      assert o in sofar.filed && Skipped(o, run.atClaim, now, sofar.filed[o]);
    }
  }

  lemma PresencesAreTrue(world: World, filed: map<Oid, Probe>)
    requires forall o | o in filed :: filed[o] == Present(o)
    ensures FiledTrue(world, filed)
  {
  }

  lemma EmptyBatch(now: set<Oid>)
    ensures FiledOk([], BatchRun(map[], [], {}, now, [], [], now), now, now)
    ensures forall world :: FiledTrue(world, map[])
  {
  }

  /** An earlier start and a later end: how a batch went stays true. */
  lemma FiledStays(oids: seq<Oid>, run: BatchRun, started: set<Oid>, answered: set<Oid>, before: set<Oid>, now: set<Oid>)
    requires before <= started && answered <= now && FiledOk(oids, run, started, answered)
    ensures FiledOk(oids, run, before, now)
  {
    hide LeadOf, Elements, LocalFiled, SkippedFiled, LedFiled;
    SkippedStays(run, answered, now);
    LedStays(run, answered, now);
  }

  lemma SkippedStays(run: BatchRun, now: set<Oid>, later: set<Oid>)
    requires now <= later && SkippedFiled(run, now)
    ensures SkippedFiled(run, later)
  {
  }

  lemma LedStays(run: BatchRun, now: set<Oid>, later: set<Oid>)
    requires now <= later && LedFiled(run, now)
    ensures LedFiled(run, later)
  {
    hide Reported;
    forall k | 0 <= k < |run.lead| ensures LedAt(run, k, later) {
      assert LedAt(run, k, now);
      ReportedStays(run.tries[|run.tries| - 1], k, run.lead[k], run.seen, now, later, run.filed[run.lead[k]]);
    }
  }

  lemma ReportedStays(answer: Try, k: nat, oid: Oid, seen: set<Oid>, now: set<Oid>, later: set<Oid>, p: Probe)
    requires now <= later && Reported(answer, k, oid, seen, now, p)
    ensures Reported(answer, k, oid, seen, later, p)
  {
  }

  // --------------------------------------------------- the error's way back

  function Contains(s: string, word: string): bool {
    word <= s || (s != "" && Contains(s[1..], word))
  }

  /** The coalescer carries errors as text; this is how `fetch_object` types them again. */
  function Reclassify(oid: Oid, text: string): FetcherError {
    if Contains(text, "Refused") then Refused(oid, text)
    else if Contains(text, "Transport") then Transport(oid, text)
    else if Contains(text, "NotPresentAfterFetch") then NotPresentAfterFetch(oid)
    else FetchBackend(oid, text)
  }

  /** What comes back from the coalescer is never the refusal of a fetcher that cannot
      fetch, and it depends on the leader's result alone. */
  lemma TextIsShared(oid: Oid, raw: Result<(), FetcherError>)
    ensures var shared := AsText(raw);
      (shared.Ok? <==> raw.Ok?) && Retyped(oid, raw) == if shared.Ok? then Ok(()) else Err(Reclassify(oid, shared.error))
    ensures Retyped(oid, raw).Err? ==> !Retyped(oid, raw).error.NotHydratable? && Retyped(oid, raw).error.oid == oid
  {
    hide Contains;
  }

  predicate NoCapitals(s: string) {
    forall i | 0 <= i < |s| :: !('A' <= s[i] <= 'Z')
  }

  lemma NoCapitalsTwice(oid: Oid, before: string, after: string)
    requires NoCapitals(before) && NoCapitals(after)
    ensures NoCapitals(before + ToHex(oid) + after)
  {
  }

  /** A word with a capital initial is never found in, or across the end of, text without. */
  lemma {:induction false} FoundOnlyAfter(before: string, s: string, word: string)
    requires NoCapitals(before) && word != "" && 'A' <= word[0] <= 'Z'
    ensures Contains(before + s, word) == Contains(s, word)
  {
    if before == "" {
      assert before + s == s;
    } else {
      assert (before + s)[0] == before[0] && (before + s)[1..] == before[1..] + s;
      FoundOnlyAfter(before[1..], s, word);
    }
  }

  /** The part of an error's text that is not fixed, and the fixed part before it. */
  function Message(e: FetcherError): string {
    if e.NotPresentAfterFetch? || e.NotHydratable? then "" else e.msg
  }

  function Preamble(e: FetcherError): string {
    match e
    case Refused(oid, _) => "remote refused object " + ToHex(oid) + ": "
    case Transport(oid, _) => "transport error fetching " + ToHex(oid) + ": "
    case NotPresentAfterFetch(oid) => "post-fetch verification failed for " + ToHex(oid) + ": object still absent"
    case NotHydratable(oid) => "fetcher cannot hydrate " + ToHex(oid) + ""
    case FetchBackend(oid, _) => "fetch backend error for " + ToHex(oid) + ": "
  }

  lemma PreambleHasNoCapitals(e: FetcherError)
    ensures NoCapitals(Preamble(e))
  {
    hide ToHex, NoCapitals;
    FixedTexts();
    MoreFixedTexts();
    match e
    case Refused(oid, _) => NoCapitalsTwice(oid, "remote refused object ", ": ");
    case Transport(oid, _) => NoCapitalsTwice(oid, "transport error fetching ", ": ");
    case NotPresentAfterFetch(oid) => NoCapitalsTwice(oid, "post-fetch verification failed for ", ": object still absent");
    case NotHydratable(oid) => NoCapitalsTwice(oid, "fetcher cannot hydrate ", "");
    case FetchBackend(oid, _) => NoCapitalsTwice(oid, "fetch backend error for ", ": ");
  }

  lemma FixedTexts()
    ensures NoCapitals("remote refused object ") && NoCapitals("transport error fetching ")
    ensures NoCapitals("fetch backend error for ") && NoCapitals(": ")
  {
  }

  lemma MoreFixedTexts()
    ensures NoCapitals("post-fetch verification failed for ") && NoCapitals(": object still absent")
    ensures NoCapitals("fetcher cannot hydrate ") && NoCapitals("")
  {
  }

  lemma TextIsPreambleAndMessage(e: FetcherError)
    ensures Display(e) == Preamble(e) + Message(e)
  {
    hide ToHex;
  }

  /** The words looked for are found in an error's text exactly when they are in its message. */
  lemma FoundInMessage(e: FetcherError, word: string)
    requires word != "" && 'A' <= word[0] <= 'Z'
    ensures Contains(Display(e), word) == Contains(Message(e), word)
  {
    hide Contains, Display, Preamble, Message, NoCapitals;
    TextIsPreambleAndMessage(e);
    PreambleHasNoCapitals(e);
    FoundOnlyAfter(Preamble(e), Message(e), word);
  }

  ghost predicate SameVariant(a: FetcherError, b: FetcherError) {
    && (a.Refused? <==> b.Refused?) && (a.Transport? <==> b.Transport?)
    && (a.NotPresentAfterFetch? <==> b.NotPresentAfterFetch?)
    && (a.NotHydratable? <==> b.NotHydratable?) && (a.FetchBackend? <==> b.FetchBackend?)
  }

  /** Which errors come back from the coalescer as what they were, for every error: it
      depends on words in the message alone, never on the variant. */
  lemma VariantKeptIff(e: FetcherError)
    ensures SameVariant(Reclassify(e.oid, Display(e)), e) <==>
      match e
      case Refused(_, msg) => Contains(msg, "Refused")
      case Transport(_, msg) => Contains(msg, "Transport") && !Contains(msg, "Refused")
      case NotPresentAfterFetch(_) => false
      case NotHydratable(_) => false
      case FetchBackend(_, msg) =>
        !Contains(msg, "Refused") && !Contains(msg, "Transport") && !Contains(msg, "NotPresentAfterFetch")
  {
    hide Contains, Display;
    FoundInMessage(e, "Refused");
    FoundInMessage(e, "Transport");
    FoundInMessage(e, "NotPresentAfterFetch");
    NothingInEmptyText();
  }

  lemma NothingInEmptyText()
    ensures !Contains("", "Refused") && !Contains("", "Transport") && !Contains("", "NotPresentAfterFetch")
  {
  }

  /** In particular a refusal by `git` and a failed post-fetch check reach the caller as
      backend errors. */
  lemma VariantsAreLost(oid: Oid)
    ensures var e := Refused(oid, MISSING_REPORT); Reclassify(oid, Display(e)) == FetchBackend(oid, Display(e))
    ensures var e := NotPresentAfterFetch(oid); Reclassify(oid, Display(e)) == FetchBackend(oid, Display(e))
  {
    hide Contains, Display;
    forall e | e == Refused(oid, MISSING_REPORT) || e == NotPresentAfterFetch(oid)
      ensures Reclassify(oid, Display(e)) == FetchBackend(oid, Display(e))
    {
      FoundInMessage(e, "Refused");
      FoundInMessage(e, "Transport");
      FoundInMessage(e, "NotPresentAfterFetch");
      NothingInEmptyText();
      NothingInReport();
    }
  }

  lemma NothingInReport()
    ensures var m := MISSING_REPORT;
      !Contains(m, "Refused") && !Contains(m, "Transport") && !Contains(m, "NotPresentAfterFetch")
  {
    hide Contains;
    assert NoCapitals(MISSING_REPORT) && MISSING_REPORT + "" == MISSING_REPORT;
    FoundOnlyAfter(MISSING_REPORT, "", "Refused");
    FoundOnlyAfter(MISSING_REPORT, "", "Transport");
    FoundOnlyAfter(MISSING_REPORT, "", "NotPresentAfterFetch");
    NothingInEmptyText();
  }

  lemma {:induction false} FoundInRest(before: string, s: string, word: string)
    requires Contains(s, word)
    ensures Contains(before + s, word)
  {
    if before == "" {
      assert before + s == s;
    } else {
      assert (before + s)[1..] == before[1..] + s;
      FoundInRest(before[1..], s, word);
    }
  }

  /** A backend error that quotes a line holding the word comes back as a refusal. */
  lemma QuotedLineCanLookRefused(oid: Oid, quoted: string)
    requires Contains(quoted, "Refused")
    ensures var e := FetchBackend(oid, UNKNOWN_KIND + quoted); Reclassify(oid, Display(e)) == Refused(oid, Display(e))
  {
    hide Display, Contains;
    FoundInRest(UNKNOWN_KIND, quoted, "Refused");
    FoundInMessage(FetchBackend(oid, UNKNOWN_KIND + quoted), "Refused");
  }
}
