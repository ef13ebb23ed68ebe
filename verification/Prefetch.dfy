/** The prefetch worker: a bounded queue of tasks, taken one at a time and sent upstream
    in batches. A method is one step, so a run interleaves posts with the worker's batches. */
module Prefetch {
  import opened Git
  import opened Probes
  import opened Hydrate
  import opened ObjectStore

  const CHANNEL_CAPACITY: nat := 256
  const MAX_BATCH: nat := 64

  datatype Task = Headers(oids: seq<Oid>) | Blobs(oids: seq<Oid>)

  datatype Stats = Stats(
    posted: nat, dropped: nat, batchesSent: nat, oidsResolved: nat, headersPublished: nat, oidsFailed: nat,
    blobsWarmed: nat, blobsSkipped: nat)

  /** What happened, for the books: non-empty posts, OIDs in accepted tasks of each sort,
      and blobs sent on. */
  datatype Books = Books(offered: nat, headerOids: nat, blobOids: nat, blobsKept: nat)

  function OidsOf(tasks: seq<Task>, headers: bool): nat {
    if tasks == [] then 0 else
    OidsOf(tasks[1..], headers) + if tasks[0].Headers? == headers then |tasks[0].oids| else 0
  }

  function AllOids(tasks: seq<Task>): seq<Oid> {
    if tasks == [] then [] else tasks[0].oids + AllOids(tasks[1..])
  }

  lemma {:induction false} OidsOfSnoc(tasks: seq<Task>, t: Task, headers: bool)
    ensures OidsOf(tasks + [t], headers) == OidsOf(tasks, headers) + if t.Headers? == headers then |t.oids| else 0
  {
    if tasks == [] {
      assert tasks + [t] == [t] && [t][1..] == [];
    } else {
      assert (tasks + [t])[1..] == tasks[1..] + [t];
      OidsOfSnoc(tasks[1..], t, headers);
    }
  }

  function Flatten(batches: seq<seq<Oid>>): seq<Oid> {
    if batches == [] then [] else Flatten(batches[..|batches| - 1]) + batches[|batches| - 1]
  }

  lemma FlattenSnoc(batches: seq<seq<Oid>>, batch: seq<Oid>)
    ensures Flatten(batches + [batch]) == Flatten(batches) + batch
  {
    assert (batches + [batch])[..|batches|] == batches;
  }

  function Failures(probes: seq<Probe>): (n: nat)
    ensures n <= |probes|
  {
    if probes == [] then 0 else
    Failures(probes[..|probes| - 1]) + if probes[|probes| - 1].ProbeError? then 1 else 0
  }

  function Published(probes: seq<Probe>): nat {
    if probes == [] then 0 else
    var p := probes[|probes| - 1];
    Published(probes[..|probes| - 1]) + if p.PresentWithHeader? || p.HeaderOnly? then 1 else 0
  }

  /** A resident blob of at most `cap` bytes. */
  predicate SmallBlob(world: World, resident: set<Oid>, oid: Oid, cap: nat) {
    var h := HeaderOf(world, resident, oid);
    h.Ok? && h.value.kind.BlobKind? && h.value.size <= cap
  }

  /** The OIDs whose flag is set, in order. */
  function Picked(oids: seq<Oid>, flags: seq<bool>): (kept: seq<Oid>)
    requires |flags| == |oids|
    ensures |kept| <= |oids|
  {
    if oids == [] then [] else
    var n := |oids| - 1;
    Picked(oids[..n], flags[..n]) + if flags[n] then [oids[n]] else []
  }

  /** Every OID that named a small blob before the checks is kept, and no other than those
      that do after them: what lands meanwhile can go either way. */
  ghost predicate KeptSmall(world: World, before: set<Oid>, now: set<Oid>, oids: seq<Oid>, flags: seq<bool>, cap: nat)
    requires |flags| == |oids|
  {
    forall i | 0 <= i < |oids| ::
      (SmallBlob(world, before, oids[i], cap) ==> flags[i]) && (flags[i] ==> SmallBlob(world, now, oids[i], cap))
  }

  lemma OneMoreChecked(
      world: World, before: set<Oid>, was: set<Oid>, now: set<Oid>, oids: seq<Oid>, i: nat, flags: seq<bool>, cap: nat)
    requires i < |oids| && |flags| == i && before <= was <= now
    requires KeptSmall(world, before, was, oids[..i], flags, cap)
    ensures KeptSmall(world, before, now, oids[..i + 1], flags + [SmallBlob(world, now, oids[i], cap)], cap)
  {
    forall o | o in oids ensures SmallBlob(world, before, o, cap) ==> SmallBlob(world, now, o, cap) {
      AnswersAreStable(world, before, now, o);
    }
    forall o | o in oids ensures SmallBlob(world, was, o, cap) ==> SmallBlob(world, now, o, cap) {
      AnswersAreStable(world, was, now, o);
    }
    forall k | 0 <= k < i ensures oids[..i + 1][k] == oids[..i][k] && oids[..i][k] in oids {
    }
  }

  lemma PickedSnoc(oids: seq<Oid>, i: nat, flags: seq<bool>, kept: bool)
    requires i < |oids| && |flags| == i
    ensures Picked(oids[..i + 1], flags + [kept]) == Picked(oids[..i], flags) + if kept then [oids[i]] else []
  {
    assert oids[..i + 1][..i] == oids[..i] && (flags + [kept])[..i] == flags;
  }

  lemma KeptSmallStays(world: World, before: set<Oid>, was: set<Oid>, now: set<Oid>, oids: seq<Oid>, flags: seq<bool>, cap: nat)
    requires |flags| == |oids| && was <= now && KeptSmall(world, before, was, oids, flags, cap)
    ensures KeptSmall(world, before, now, oids, flags, cap)
  {
    forall i | 0 <= i < |oids| ensures flags[i] ==> SmallBlob(world, now, oids[i], cap) {
      AnswersAreStable(world, was, now, oids[i]);
    }
  }

  class PrefetchWorker {
    const h: HydratingStore
    const blobCap: nat

    /** Posted and not taken yet; the task being worked on and what is left of it. */
    var queue: seq<Task>
    var current: Option<Task>
    var pending: seq<Oid>
    var stats: Stats

    ghost var books: Books
    /** The batches cut so far, those of the current task, and the OIDs of the tasks
        worked off before it. */
    ghost var batches: seq<seq<Oid>>
    ghost var sentOfTask: seq<seq<Oid>>
    ghost var done: seq<Oid>

    ghost function Footprint(): set<object> {
      {this} + h.Footprint()
    }

    /** OIDs of a sort that are accepted but not worked on yet. */
    ghost function Waiting(headers: bool): nat
      reads this
    {
      OidsOf(queue, headers) + if current.Some? && current.value.Headers? == headers then |pending| else 0
    }

    ghost predicate Valid()
      reads Footprint()
    {
      && this !in h.Footprint() && h.Valid()
      && Balanced()
    }

    /** Every OID and every post is accounted for. */
    ghost predicate Balanced()
      reads this
    {
      BatchesAddUp() && CountsAddUp()
    }

    /** The batches of the current task and what is left of it are the task, and the
        batches of all tasks are the tasks. */
    ghost predicate BatchesAddUp()
      reads `queue, `current, `pending, `batches, `sentOfTask, `done
    {
      && |queue| <= CHANNEL_CAPACITY
      && (current.None? ==> pending == [] && sentOfTask == [])
      && (current.Some? ==> Flatten(sentOfTask) + pending == current.value.oids)
      && (forall b | b in batches :: 0 < |b| <= MAX_BATCH)
      && Flatten(batches) == done + Flatten(sentOfTask)
    }

    ghost predicate CountsAddUp()
      reads this
    {
      && stats.posted + stats.dropped == books.offered
      && stats.oidsResolved + Waiting(true) == books.headerOids
      && books.blobsKept + stats.blobsSkipped + Waiting(false) == books.blobOids
      && stats.headersPublished + stats.oidsFailed <= stats.oidsResolved
      && stats.blobsWarmed <= books.blobsKept
    }

    constructor (h: HydratingStore, blobCap: nat)
      requires h.Valid()
      ensures Valid() && this.h == h && this.blobCap == blobCap
      ensures queue == [] && current == None && stats == Stats(0, 0, 0, 0, 0, 0, 0, 0) && books == Books(0, 0, 0, 0)
    {
      hide HydratingStore.Valid;
      this.h, this.blobCap := h, blobCap;
      queue, current, pending := [], None, [];
      stats := Stats(0, 0, 0, 0, 0, 0, 0, 0);
      books, batches, sentOfTask, done := Books(0, 0, 0, 0), [], [], [];
    }

    /** `post_headers` and `post_blobs`: never blocks; a full channel drops the task, and an
        empty post is not counted at all. */
    method Post(task: Task) returns (accepted: bool)
      requires Valid()
      modifies this`queue, this`stats, this`books
      ensures Valid()
      ensures accepted == (task.oids != [] && |old(queue)| < CHANNEL_CAPACITY)
      ensures queue == if accepted then old(queue) + [task] else old(queue)
      ensures stats == if accepted then old(stats).(posted := old(stats).posted + 1)
                       else if task.oids != [] then old(stats).(dropped := old(stats).dropped + 1) else old(stats)
      ensures books.offered == old(books).offered + if task.oids != [] then 1 else 0
      ensures books.headerOids == old(books).headerOids + if accepted && task.Headers? then |task.oids| else 0
      ensures books.blobOids == old(books).blobOids + if accepted && task.Blobs? then |task.oids| else 0
    {
      hide HydratingStore.Valid, Flatten, OidsOf;
      if task.oids == [] {
        return false;
      }
      accepted := |queue| < CHANNEL_CAPACITY;
      var more := if accepted then |task.oids| else 0;
      books := Books(books.offered + 1, books.headerOids + if task.Headers? then more else 0,
                     books.blobOids + if task.Blobs? then more else 0, books.blobsKept);
      if accepted {
        OidsOfSnoc(queue, task, true);
        OidsOfSnoc(queue, task, false);
        queue := queue + [task];
        stats := stats.(posted := stats.posted + 1);
      } else {
        stats := stats.(dropped := stats.dropped + 1);
      }
    }

    /** `recv`: tasks are taken in the order they were posted. */
    method Take()
      requires Valid() && current.None? && queue != []
      modifies this`queue, this`current, this`pending
      ensures Valid()
      ensures current == Some(old(queue)[0]) && queue == old(queue)[1..] && pending == old(queue)[0].oids
    {
      hide HydratingStore.Valid;
      current, pending, queue := Some(queue[0]), queue[0].oids, queue[1..];
      assert Flatten([]) + pending == pending;
    }

    /** The task is finished when nothing of it is left. */
    method Finish()
      requires Valid() && current.Some? && pending == []
      modifies this`current, this`sentOfTask, this`done
      ensures Valid() && current.None? && done == old(done) + old(current).value.oids
    {
      hide HydratingStore.Valid;
      done := done + Flatten(sentOfTask);
      assert Flatten(sentOfTask) + pending == Flatten(sentOfTask);
      sentOfTask, current := [], None;
      assert done == done + Flatten([]);
    }

    /** The next `MAX_BATCH` OIDs of the current task, or what is left of it. */
    method NextChunk() returns (chunk: seq<Oid>)
      requires Valid() && current.Some? && pending != []
      modifies this`pending, this`sentOfTask, this`batches
      ensures BatchesAddUp()
      ensures 0 < |chunk| <= MAX_BATCH && old(pending) == chunk + pending
      ensures |chunk| == MAX_BATCH || pending == []
      ensures batches == old(batches) + [chunk]
    {
      hide HydratingStore.Valid, Flatten;
      var n := if |pending| < MAX_BATCH then |pending| else MAX_BATCH;
      StillBalanced(sentOfTask, batches, pending[..n], pending, pending[n..], done);
      chunk, pending := pending[..n], pending[n..];
      sentOfTask := sentOfTask + [chunk];
      batches := batches + [chunk];
    }

    /** One batch of a header task: what the store answered is what is counted. */
    method SendHeaders(ghost me: nat) returns (ghost probes: seq<Probe>, ghost asked: Asked)
      requires Valid() && h.Unclaimed(me) && current.Some? && current.value.Headers? && pending != []
      modifies Footprint()
      ensures Valid() && h.Unclaimed(me) && queue == old(queue) && current == old(current) && done == old(done) && books == old(books)
      ensures 0 < |probes| <= |old(pending)| && pending == old(pending)[|probes|..]
      ensures batches == old(batches) + [old(pending)[..|probes|]]
      ensures BatchOk(old(pending)[..|probes|], asked, old(h.store.resident), h.store.resident, probes)
      ensures Answered(old(pending)[..|probes|], probes, h.store.resident)
      ensures h.Sent(me) == old(h.Sent(me)) + EventsOf(asked)
      ensures stats == old(stats).(batchesSent := old(stats).batchesSent + 1,
                                   oidsResolved := old(stats).oidsResolved + |probes|,
                                   headersPublished := old(stats).headersPublished + Published(probes),
                                   oidsFailed := old(stats).oidsFailed + Failures(probes))
    {
      hide HydratingStore.Valid, HydratingStore.Unclaimed, BatchOk, Answered, EventsOf, OidsOf, Flatten, BatchesAddUp, Published, Failures;
      var answered;
      answered, asked := AskNext(me);
      stats := stats.(batchesSent := stats.batchesSent + 1, oidsResolved := stats.oidsResolved + |answered|);
      Tally(answered);
      probes := answered;
    }

    method AskNext(ghost me: nat) returns (out: seq<Probe>, ghost asked: Asked)
      requires Valid() && h.Unclaimed(me) && current.Some? && pending != []
      modifies h.Footprint(), this`pending, this`sentOfTask, this`batches
      ensures h.Valid() && h.Unclaimed(me) && h.Grown() && BatchesAddUp()
      ensures 0 < |out| <= |old(pending)| && pending == old(pending)[|out|..]
      ensures batches == old(batches) + [old(pending)[..|out|]]
      ensures BatchOk(old(pending)[..|out|], asked, old(h.store.resident), h.store.resident, out)
      ensures Answered(old(pending)[..|out|], out, h.store.resident)
      ensures h.Sent(me) == old(h.Sent(me)) + EventsOf(asked)
      ensures Published(out) + Failures(out) <= |out|
    {
      hide HydratingStore.Valid, HydratingStore.Unclaimed, BatchOk, EventsOf, Published, Failures, Flatten, OidsOf;
      var chunk := NextChunk();
      assert chunk == old(pending)[..|chunk|] && pending == old(pending)[|chunk|..];
      out, asked := h.PrefetchHeaders(chunk, me);
      HydratedBatchKeepsThePromise(chunk, asked, old(h.store.resident), h.store.resident, out);
      CountsAreBounded(out);
    }

    /** The worker's per-probe counters. */
    method Tally(probes: seq<Probe>)
      modifies this`stats
      ensures stats == old(stats).(headersPublished := old(stats).headersPublished + Published(probes),
                                   oidsFailed := old(stats).oidsFailed + Failures(probes))
    {
      for i := 0 to |probes|
        invariant stats == old(stats).(headersPublished := old(stats).headersPublished + Published(probes[..i]),
                                       oidsFailed := old(stats).oidsFailed + Failures(probes[..i]))
      {
        assert probes[..i + 1][..i] == probes[..i];
        match probes[i] {
          case PresentWithHeader(_, _, _) => stats := stats.(headersPublished := stats.headersPublished + 1);
          case HeaderOnly(_, _, _) => stats := stats.(headersPublished := stats.headersPublished + 1);
          case Present(_) =>
          case ProbeError(_, _) => stats := stats.(oidsFailed := stats.oidsFailed + 1);
        }
      }
      assert probes[..|probes|] == probes;
    }

    /** `blobs_under_cap`: keep the blobs whose known size is within the cap. */
    method BlobsUnderCap(oids: seq<Oid>, ghost me: nat) returns (keep: seq<Oid>, skipped: nat, ghost flags: seq<bool>)
      requires h.Valid() && h.Unclaimed(me)
      modifies h.Footprint()
      ensures h.Valid() && h.Unclaimed(me) && h.Grown() && h.Sent(me) == old(h.Sent(me))
      ensures |flags| == |oids| && keep == Picked(oids, flags) && |keep| + skipped == |oids|
      ensures h.Honest() ==> KeptSmall(h.store.world, old(h.store.resident), h.store.resident, oids, flags, blobCap)
    {
      hide HydratingStore.Valid, HydratingStore.Unclaimed, SmallBlob, KeptSmall, Picked;
      keep, skipped, flags := [], 0, [];
      NothingPicked(h.store.world, h.store.resident, oids);
      for i := 0 to |oids|
        invariant h.Valid() && h.Unclaimed(me) && h.Grown() && h.Sent(me) == old(h.Sent(me))
        invariant |flags| == i && keep == Picked(oids[..i], flags) && |keep| + skipped == i
        invariant h.Honest() ==> KeptSmall(h.store.world, old(h.store.resident), h.store.resident, oids[..i], flags, blobCap)
      {
        ghost var was := h.store.resident;
        h.Others(me);
        var small := KnownSmall(oids[i], me);
        PickedSnoc(oids, i, flags, small);
        if h.Honest() {
          OneMoreChecked(h.store.world, old(h.store.resident), was, h.store.resident, oids, i, flags, blobCap);
        }
        flags := flags + [small];
        if small {
          keep := keep + [oids[i]];
        } else {
          skipped := skipped + 1;
        }
      }
      assert oids[..|oids|] == oids;
    }

    lemma NothingPicked(world: World, resident: set<Oid>, oids: seq<Oid>)
      ensures Picked(oids[..0], []) == [] && KeptSmall(world, resident, resident, oids[..0], [], blobCap)
    {
    }

    /** Whether the local header says so. */
    method KnownSmall(oid: Oid, ghost me: nat) returns (small: bool)
      requires h.Valid() && h.Unclaimed(me)
      modifies h.store.headerCache
      ensures h.Valid() && h.Unclaimed(me) && h.Sent(me) == old(h.Sent(me))
      ensures h.Honest() ==> small == SmallBlob(h.store.world, h.store.resident, oid, blobCap)
    {
      var header := h.store.Header(oid);
      small := header.Ok? && header.value.kind.BlobKind? && header.value.size <= blobCap;
    }

    /** One batch of a blob task: each OID is skipped or kept, and nothing but what is kept
        is fetched. */
    method SendBlobs(ghost me: nat)
      returns (ghost chunk: seq<Oid>, ghost flags: seq<bool>, ghost asked: Asked, ghost out: seq<Probe>)
      requires Valid() && h.Unclaimed(me) && current.Some? && current.value.Blobs? && pending != []
      modifies Footprint()
      ensures Valid() && h.Unclaimed(me) && queue == old(queue) && current == old(current) && done == old(done)
      ensures chunk != [] && old(pending) == chunk + pending && batches == old(batches) + [chunk]
      ensures |flags| == |chunk|
      ensures h.Honest() ==> KeptSmall(h.store.world, old(h.store.resident), h.store.resident, chunk, flags, blobCap)
      ensures BatchOk(Picked(chunk, flags), asked, old(h.store.resident), h.store.resident, out)
      ensures h.Sent(me) == old(h.Sent(me)) + EventsOf(asked)
      ensures |out| == |Picked(chunk, flags)|
      ensures var kept := Picked(chunk, flags);
        && books == old(books).(blobsKept := old(books).blobsKept + |kept|)
        && stats == old(stats).(batchesSent := old(stats).batchesSent + if kept == [] then 0 else 1,
                                blobsSkipped := old(stats).blobsSkipped + |chunk| - |kept|,
                                blobsWarmed := old(stats).blobsWarmed + |kept| - Failures(out))
    {
      hide HydratingStore.Valid, HydratingStore.Unclaimed, BatchOk, KeptSmall, EventsOf, OidsOf, Flatten, BatchesAddUp, Picked, Failures;
      var batch, keep, skipped, warmed;
      batch, keep, skipped, warmed, flags, asked, out := KeepNext(me);
      chunk := batch;
      stats := stats.(batchesSent := stats.batchesSent + if keep == [] then 0 else 1, blobsSkipped := stats.blobsSkipped + skipped, blobsWarmed := stats.blobsWarmed + warmed);
      books := books.(blobsKept := books.blobsKept + |keep|);
    }

    method KeepNext(ghost me: nat)
      returns (chunk: seq<Oid>, keep: seq<Oid>, skipped: nat, warmed: nat, ghost flags: seq<bool>, ghost asked: Asked, ghost out: seq<Probe>)
      requires Valid() && h.Unclaimed(me) && current.Some? && pending != []
      modifies h.Footprint(), this`pending, this`sentOfTask, this`batches
      ensures h.Valid() && h.Unclaimed(me) && BatchesAddUp()
      ensures chunk != [] && old(pending) == chunk + pending && batches == old(batches) + [chunk]
      ensures |flags| == |chunk| && keep == Picked(chunk, flags) && |keep| + skipped == |chunk|
      ensures h.Honest() ==> KeptSmall(h.store.world, old(h.store.resident), h.store.resident, chunk, flags, blobCap)
      ensures BatchOk(keep, asked, old(h.store.resident), h.store.resident, out)
      ensures h.Sent(me) == old(h.Sent(me)) + EventsOf(asked)
      ensures |out| == |keep| && warmed == |keep| - Failures(out)
    {
      hide HydratingStore.Valid, HydratingStore.Unclaimed, BatchOk, KeptSmall, EventsOf, OidsOf, Flatten, Picked, Failures;
      chunk := NextChunk();
      keep, skipped, warmed, flags, asked, out := KeepAndWarm(chunk, me);
    }

    method KeepAndWarm(oids: seq<Oid>, ghost me: nat)
      returns (keep: seq<Oid>, skipped: nat, warmed: nat, ghost flags: seq<bool>, ghost asked: Asked, ghost out: seq<Probe>)
      requires h.Valid() && h.Unclaimed(me)
      modifies h.Footprint()
      ensures h.Valid() && h.Unclaimed(me)
      ensures |flags| == |oids| && keep == Picked(oids, flags) && |keep| + skipped == |oids|
      ensures h.Honest() ==> KeptSmall(h.store.world, old(h.store.resident), h.store.resident, oids, flags, blobCap)
      ensures BatchOk(keep, asked, old(h.store.resident), h.store.resident, out)
      ensures h.Sent(me) == old(h.Sent(me)) + EventsOf(asked)
      ensures |out| == |keep| && warmed == |keep| - Failures(out)
    {
      hide HydratingStore.Valid, HydratingStore.Unclaimed, KeptSmall, BatchOk, Picked, EventsOf;
      keep, skipped, flags := BlobsUnderCap(oids, me);
      ghost var was := h.store.resident;
      if keep == [] {
        NoBatch(old(h.store.resident), h.store.resident);
        return keep, skipped, 0, flags, Asked([], [], None), [];
      }
      warmed, asked, out := Warm(keep, me);
      BatchStays(keep, asked, was, old(h.store.resident), h.store.resident, out);
      if h.Honest() {
        KeptSmallStays(h.store.world, old(h.store.resident), was, h.store.resident, oids, flags, blobCap);
      }
    }

    method Warm(keep: seq<Oid>, ghost me: nat) returns (warmed: nat, ghost asked: Asked, ghost out: seq<Probe>)
      requires h.Valid() && h.Unclaimed(me)
      modifies h.Footprint()
      ensures h.Valid() && h.Unclaimed(me) && h.Grown()
      ensures BatchOk(keep, asked, old(h.store.resident), h.store.resident, out)
      ensures h.Sent(me) == old(h.Sent(me)) + EventsOf(asked)
      ensures |out| == |keep| && warmed == |keep| - Failures(out)
    {
      hide HydratingStore.Valid, HydratingStore.Unclaimed, BatchOk, EventsOf;
      var probes;
      probes, asked := h.FetchObjects(keep, me);
      HydratedBatchKeepsThePromise(keep, asked, old(h.store.resident), h.store.resident, probes);
      CountsAreBounded(probes);
      var failed := CountFailures(probes);
      warmed := |probes| - failed;
      out := probes;
    }

    method CountFailures(probes: seq<Probe>) returns (n: nat)
      ensures n == Failures(probes)
    {
      n := 0;
      for i := 0 to |probes|
        invariant n == Failures(probes[..i])
      {
        assert probes[..i + 1][..i] == probes[..i];
        if probes[i].ProbeError? {
          n := n + 1;
        }
      }
      assert probes[..|probes|] == probes;
    }

    /** `worker_loop` once the senders are gone: everything still queued is worked off, in
        the order it was posted, and the books close. */
    method WorkerLoop(ghost me: nat)
      requires Valid() && h.Unclaimed(me) && current.None?
      modifies Footprint()
      ensures Valid() && h.Unclaimed(me) && queue == [] && current.None?
      ensures done == old(done) + AllOids(old(queue))
      ensures stats.oidsResolved == books.headerOids
      ensures books.blobsKept + stats.blobsSkipped == books.blobOids
      ensures books.headerOids == old(books).headerOids && books.blobOids == old(books).blobOids
      ensures stats.posted == old(stats).posted && stats.dropped == old(stats).dropped
    {
      hide HydratingStore.Valid, HydratingStore.Unclaimed, Flatten, OidsOf, Published, Failures, Balanced, BatchesAddUp, CountsAddUp;
      ghost var start := done;
      assert start + AllOids(queue) == done + AllOids(queue);
      while queue != []
        invariant Valid() && h.Unclaimed(me) && current.None?
        invariant done + AllOids(queue) == start + AllOids(old(queue))
        invariant books.headerOids == old(books).headerOids && books.blobOids == old(books).blobOids
        invariant stats.posted == old(stats).posted && stats.dropped == old(stats).dropped
        decreases |queue|
      {
        ghost var task, rest := queue[0], queue[1..];
        assert done + (task.oids + AllOids(rest)) == done + task.oids + AllOids(rest);
        Take();
        WorkTask(me);
      }
      assert done + AllOids([]) == done;
      DrainedBooks();
    }

    method WorkTask(ghost me: nat)
      requires Valid() && h.Unclaimed(me) && current.Some?
      modifies Footprint()
      ensures Valid() && h.Unclaimed(me) && current.None? && queue == old(queue)
      ensures done == old(done) + old(current).value.oids
      ensures books.headerOids == old(books).headerOids && books.blobOids == old(books).blobOids
      ensures stats.posted == old(stats).posted && stats.dropped == old(stats).dropped
    {
      hide HydratingStore.Valid, HydratingStore.Unclaimed, Flatten, OidsOf, Published, Failures, Balanced, BatchesAddUp, CountsAddUp, Answered;
      while pending != []
        invariant Valid() && h.Unclaimed(me) && current == old(current) && queue == old(queue) && done == old(done)
        invariant books.headerOids == old(books).headerOids && books.blobOids == old(books).blobOids
        invariant stats.posted == old(stats).posted && stats.dropped == old(stats).dropped
        decreases |pending|
      {
        if current.value.Headers? {
          ghost var probes, asked := SendHeaders(me);
        } else {
          ghost var chunk, flags, asked, out := SendBlobs(me);
        }
      }
      Finish();
    }

    /** When the channel is drained, every accepted header OID was resolved, every accepted
        blob was kept or skipped, every non-empty post was accepted or dropped, and the
        batches put together are the tasks put together. */
    lemma DrainedBooks()
      requires Valid() && queue == [] && current.None?
      ensures stats.oidsResolved == books.headerOids
      ensures books.blobsKept + stats.blobsSkipped == books.blobOids
      ensures stats.posted + stats.dropped == books.offered
      ensures Flatten(batches) == done && forall b | b in batches :: 0 < |b| <= MAX_BATCH
    {
      hide HydratingStore.Valid;
      assert done + Flatten([]) == done;
    }
  }

  /** Sending one chunk moves it from the pending part of the task to the sent part. */
  lemma StillBalanced(sent: seq<seq<Oid>>, batches: seq<seq<Oid>>, chunk: seq<Oid>, before: seq<Oid>, after: seq<Oid>, done: seq<Oid>)
    requires before == chunk + after
    ensures Flatten(sent + [chunk]) + after == Flatten(sent) + before
    ensures Flatten(batches + [chunk]) == Flatten(batches) + chunk
    ensures done + Flatten(sent + [chunk]) == done + Flatten(sent) + chunk
  {
    hide Flatten;
    FlattenSnoc(sent, chunk);
    FlattenSnoc(batches, chunk);
    assert Flatten(sent) + chunk + after == Flatten(sent) + (chunk + after);
  }

  lemma {:induction false} CountsAreBounded(probes: seq<Probe>)
    ensures Published(probes) + Failures(probes) <= |probes|
  {
    if probes != [] {
      CountsAreBounded(probes[..|probes| - 1]);
    }
  }
}
