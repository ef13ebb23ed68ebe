/** Eager warming of a tree closure: an exact breadth-first search over the trees of a
    projection, fetching one level at a time. */
module WarmTree {
  import opened Git
  import opened Claims
  import opened Sequences
  import opened ObjectStore
  import opened GitCli
  import opened Hydrate
  import opened Probes
  import opened Paths
  import opened TreeWalk

  datatype Stats = Stats(treesWarmed: nat, levels: nat, errors: nat)

  /** What a level took: the batch that fetched it ahead, what was resident when its reading
      began, and for each of its trees whether it had to be fetched after all. */
  datatype Effort = Effort(asked: Asked, begun: set<Oid>, fetches: seq<Hydration>)

  /** The search level by level: the trees of each level and which of them could be read. */
  datatype Search = Search(layers: seq<seq<Oid>>, good: seq<set<Oid>>, efforts: seq<Effort>)

  // ------------------------------------------------------------- the tree graph

  /** The subdirectories among some entries, in order. Submodules are not directories. */
  function DirOids(entries: seq<RawTreeEntry>): seq<Oid> {
    if entries == [] then [] else
    var n := |entries| - 1;
    DirOids(entries[..n]) + if ModeOf(entries[n].modeRaw).DirectoryMode? then [entries[n].oid] else []
  }

  function EntriesOf(world: World, oid: Oid): seq<RawTreeEntry> {
    if oid in world && world[oid].Tree? && world[oid].entries.Some? then world[oid].entries.value else []
  }

  function Kids(world: World, oid: Oid): seq<Oid> {
    DirOids(EntriesOf(world, oid))
  }

  /** The subdirectories of a list of trees, those that could not be read having none. */
  function KidsOf(world: World, trees: seq<Oid>, good: set<Oid>): seq<Oid> {
    if trees == [] then [] else
    var n := |trees| - 1;
    KidsOf(world, trees[..n], good) + if trees[n] in good then Kids(world, trees[n]) else []
  }

  function Flat(layers: seq<seq<Oid>>): set<Oid> {
    if layers == [] then {} else Flat(layers[..|layers| - 1]) + Elements(layers[|layers| - 1])
  }

  function Total(layers: seq<seq<Oid>>): nat {
    if layers == [] then 0 else Total(layers[..|layers| - 1]) + |layers[|layers| - 1]|
  }

  function Count(good: seq<set<Oid>>): nat {
    if good == [] then 0 else Count(good[..|good| - 1]) + |good[|good| - 1]|
  }

  /** Level k + 1 is what the readable trees of level k lead to and no earlier level
      holds, each once, in the order it is met. */
  ghost predicate Layered(world: World, root: Oid, s: Search) {
    && |s.layers| >= 1 && s.layers[0] == [root]
    && |s.good| <= |s.layers| <= |s.good| + 1
    && (forall k | 0 <= k < |s.good| :: s.good[k] <= Elements(s.layers[k]))
    && (forall k | 0 < k < |s.layers| ::
          s.layers[k] == LeadOf(KidsOf(world, s.layers[k - 1], s.good[k - 1]), Flat(s.layers[..k])) && s.layers[k] != [])
  }

  /** ... and the search went on until a level led nowhere new. */
  ghost predicate Complete(world: World, root: Oid, s: Search) {
    && Layered(world, root, s)
    && |s.good| == |s.layers|
    && var n := |s.layers| - 1;
       LeadOf(KidsOf(world, s.layers[n], s.good[n]), Flat(s.layers)) == []
  }

  ghost predicate Readable(world: World, resident: set<Oid>, good: set<Oid>) {
    forall o | o in good :: TreeOf(world, resident, o).Ok?
  }

  ghost predicate AllReadable(world: World, resident: set<Oid>, s: Search) {
    forall k | 0 <= k < |s.good| :: Readable(world, resident, s.good[k])
  }

  /** None of the trees left unread could be read. */
  ghost predicate Unreadable(world: World, resident: set<Oid>, trees: seq<Oid>, read: set<Oid>) {
    forall o | o in trees && o !in read :: TreeOf(world, resident, o).Err?
  }

  /** The batch for a level asked for everything in it that is still absent. */
  ghost predicate FetchedAhead(trees: seq<Oid>, asked: Asked, before: set<Oid>, begun: set<Oid>) {
    && Elements(trees) - begun <= Elements(asked.oids) <= Elements(trees) - before
    && FromBackend(asked, before, begun)
  }

  /** Each tree was tried once: it was read exactly if no fetch of it failed and it decodes. */
  ghost predicate Attempted(
      world: World, backend: Backend, begun: set<Oid>, now: set<Oid>, trees: seq<Oid>, read: set<Oid>, fetches: seq<Hydration>)
  {
    && |fetches| == |trees|
    && forall i | 0 <= i < |trees| :: TriedOnce(world, backend, begun, now, trees[i], trees[i] in read, fetches[i])
  }

  ghost predicate TriedOnce(
      world: World, backend: Backend, begun: set<Oid>, now: set<Oid>, tree: Oid, read: bool, fetch: Hydration)
  {
    && HydrationOk(backend, tree, fetch, begun, now)
    && (!fetch.Failed() ==> tree in now)
    && (read <==> !fetch.Failed() && TreeOf(world, now, tree).Ok?)
  }

  /** One level: what was absent was fetched ahead, what could be read then was read, and
      what could not was fetched once more by itself. */
  ghost predicate LevelTried(
      world: World, backend: Backend, before: set<Oid>, now: set<Oid>, trees: seq<Oid>, read: set<Oid>, effort: Effort)
  {
    && before <= effort.begun <= now
    && FetchedAhead(trees, effort.asked, before, effort.begun)
    && Unreadable(world, effort.begun, trees, read)
    && Attempted(world, backend, effort.begun, now, trees, read, effort.fetches)
  }

  /** What reading some trees sent, tree by tree. */
  function ReadEvents(trees: seq<Oid>, fetches: seq<Hydration>): seq<Event>
    requires |fetches| == |trees|
  {
    if trees == [] then [] else
    var n := |trees| - 1;
    ReadEvents(trees[..n], fetches[..n]) + SentFor(trees[n], fetches[n])
  }

  lemma ReadEventsSnoc(trees: seq<Oid>, i: nat, fetches: seq<Hydration>, fetch: Hydration, start: seq<Event>, sent: seq<Event>)
    requires i < |trees| && |fetches| == i && sent == start + ReadEvents(trees[..i], fetches)
    ensures sent + SentFor(trees[i], fetch) == start + ReadEvents(trees[..i + 1], fetches + [fetch])
  {
    hide SentFor;
    assert trees[..i + 1][..i] == trees[..i] && (fetches + [fetch])[..i] == fetches;
    OneAfterTheOther(start, ReadEvents(trees[..i], fetches), SentFor(trees[i], fetch));
  }

  lemma OneAfterTheOther(a: seq<Event>, b: seq<Event>, c: seq<Event>)
    ensures a + b + c == a + (b + c)
  {
  }

  /** What the levels sent: for each one batch ahead, then the reads of its trees. */
  function SearchEvents(layers: seq<seq<Oid>>, efforts: seq<Effort>): seq<Event>
    requires |efforts| <= |layers| && forall k | 0 <= k < |efforts| :: |efforts[k].fetches| == |layers[k]|
  {
    if efforts == [] then [] else
    var n := |efforts| - 1;
    SearchEvents(layers, efforts[..n]) + EventsOf(efforts[n].asked) + ReadEvents(layers[n], efforts[n].fetches)
  }

  /** So it was at every level. */
  ghost predicate AllTried(world: World, backend: Backend, before: set<Oid>, now: set<Oid>, s: Search) {
    && |s.efforts| == |s.good| <= |s.layers|
    && forall k | 0 <= k < |s.good| :: LevelTried(world, backend, before, now, s.layers[k], s.good[k], s.efforts[k])
  }

  /** All the search sent. */
  function AllSent(s: Search): seq<Event> {
    if |s.efforts| <= |s.layers| && (forall k | 0 <= k < |s.efforts| :: |s.efforts[k].fetches| == |s.layers[k]|)
    then SearchEvents(s.layers, s.efforts) else []
  }

  // ------------------------------------------------------------- shape of a search

  lemma {:induction false} FlatHas(layers: seq<seq<Oid>>, o: Oid)
    ensures o in Flat(layers) <==> exists k :: 0 <= k < |layers| && o in layers[k]
  {
    if layers != [] {
      var n := |layers| - 1;
      FlatHas(layers[..n], o);
      if o in Flat(layers[..n]) {
        var k :| 0 <= k < n && o in layers[..n][k];
        assert o in layers[k];
      }
      if k :| 0 <= k < |layers| && o in layers[k] {
        assert k < n ==> o in layers[..n][k];
      }
    }
  }

  /** No tree is in two levels, or twice in one. */
  lemma {:induction false} LayersAreDisjoint(world: World, root: Oid, s: Search, i: nat, j: nat)
    requires Layered(world, root, s)
    requires i <= j < |s.layers|
    ensures Distinct(s.layers[j])
    ensures i < j ==> Elements(s.layers[i]) !! Elements(s.layers[j])
  {
    if j > 0 {
      var kids := KidsOf(world, s.layers[j - 1], s.good[j - 1]);
      LeadIsWhatIsFree(kids, Flat(s.layers[..j]));
      forall o | o in s.layers[i] && i < j ensures o in Flat(s.layers[..j]) {
        assert o in s.layers[..j][i];
        FlatHas(s.layers[..j], o);
      }
    }
  }

  lemma {:induction false} TotalIsVisited(world: World, root: Oid, s: Search, n: nat)
    requires Layered(world, root, s) && n <= |s.layers|
    ensures Total(s.layers[..n]) == |Flat(s.layers[..n])|
  {
    if n > 0 {
      var before := s.layers[..n - 1];
      assert s.layers[..n][..n - 1] == before;
      TotalIsVisited(world, root, s, n - 1);
      LayersAreDisjoint(world, root, s, n - 1, n - 1);
      DistinctCount(s.layers[n - 1]);
      forall o | o in Flat(before) ensures o !in s.layers[n - 1] {
        FlatHas(before, o);
        var k :| 0 <= k < n - 1 && o in before[k];
        LayersAreDisjoint(world, root, s, k, n - 1);
        assert o in Elements(s.layers[k]);
      }
      assert Flat(before) !! Elements(s.layers[n - 1]);
    }
  }

  lemma {:induction false} KidsOfHas(world: World, trees: seq<Oid>, good: set<Oid>, o: Oid)
    ensures o in KidsOf(world, trees, good) <==> exists p :: p in trees && p in good && o in Kids(world, p)
  {
    if trees != [] {
      var n := |trees| - 1;
      KidsOfHas(world, trees[..n], good, o);
      assert trees == trees[..n] + [trees[n]];
    }
  }

  /** A tree leads to exactly what its entries of mode 16384 name: to no file, symlink or
      submodule. */
  lemma {:induction false} KidsByNumber(world: World, t: Oid, o: Oid)
    ensures o in Kids(world, t) <==>
      && t in world && world[t].Tree? && world[t].entries.Some?
      && exists e :: e in world[t].entries.value && e.modeRaw == 16384 && e.oid == o
  {
    DirOidsByNumber(EntriesOf(world, t), o);
  }

  lemma {:induction false} DirOidsByNumber(entries: seq<RawTreeEntry>, o: Oid)
    ensures o in DirOids(entries) <==> exists e :: e in entries && e.modeRaw == 16384 && e.oid == o
  {
    if entries != [] {
      var n := |entries| - 1;
      ModesByNumber(entries[n].modeRaw);
      DirOidsByNumber(entries[..n], o);
      assert entries == entries[..n] + [entries[n]];
    }
  }

  /** Every tree visited but the root, and so every one asked for or counted, is named by a
      directory entry of a tree that was read. */
  lemma {:induction false} VisitedByNumber(world: World, root: Oid, s: Search, o: Oid)
    requires Layered(world, root, s) && o in Flat(s.layers)
    ensures o == root || exists t, e ::
      t in GoodSet(s.good) && t in world && world[t].Tree? && world[t].entries.Some?
      && e in world[t].entries.value && e.modeRaw == 16384 && e.oid == o
  {
    hide LeadOf, KidsOf, Kids, Flat;
    FlatHas(s.layers, o);
    var k :| 0 <= k < |s.layers| && o in s.layers[k];
    if k > 0 {
      var kids := KidsOf(world, s.layers[k - 1], s.good[k - 1]);
      LeadIsWhatIsFree(kids, Flat(s.layers[..k]));
      assert o in Elements(s.layers[k]) && o in kids;
      KidsOfHas(world, s.layers[k - 1], s.good[k - 1], o);
      var t :| t in s.layers[k - 1] && t in s.good[k - 1] && o in Kids(world, t);
      KidsByNumber(world, t, o);
      assert t in GoodSet(s.good);
    }
  }

  // ------------------------------------------------------------- distances

  /** `o` is reached from the root by `k` steps through trees that could be read. */
  ghost predicate Reach(world: World, readable: set<Oid>, root: Oid, o: Oid, k: nat)
    decreases k
  {
    if k == 0 then o == root
    else exists p :: Reach(world, readable, root, p, k - 1) && p in readable && o in Kids(world, p)
  }

  /** ... and by no fewer. */
  ghost predicate AtDistance(world: World, readable: set<Oid>, root: Oid, o: Oid, k: nat) {
    Reach(world, readable, root, o, k) && forall j: nat | j < k :: !Reach(world, readable, root, o, j)
  }

  function GoodSet(good: seq<set<Oid>>): set<Oid> {
    set k, o | 0 <= k < |good| && o in good[k] :: o
  }

  lemma {:induction false} LayerIsReached(world: World, root: Oid, s: Search, k: nat, o: Oid)
    requires Complete(world, root, s)
    requires k < |s.layers| && o in s.layers[k]
    ensures Reach(world, GoodSet(s.good), root, o, k)
  {
    hide LeadOf, KidsOf, Kids, Flat, Distinct;
    if k > 0 {
      var kids := KidsOf(world, s.layers[k - 1], s.good[k - 1]);
      LeadIsWhatIsFree(kids, Flat(s.layers[..k]));
      assert o in Elements(s.layers[k]) && o in kids;
      KidsOfHas(world, s.layers[k - 1], s.good[k - 1], o);
      var p :| p in s.layers[k - 1] && p in s.good[k - 1] && o in Kids(world, p);
      LayerIsReached(world, root, s, k - 1, p);
      assert p in GoodSet(s.good);
    }
  }

  /** A readable tree's subdirectories are in its own level's successor or earlier. */
  lemma {:induction false} KidsAreClose(world: World, root: Oid, s: Search, j: nat, p: Oid, o: Oid)
    requires Complete(world, root, s)
    requires j < |s.layers| && p in s.layers[j] && p in GoodSet(s.good) && o in Kids(world, p)
    ensures exists i :: 0 <= i <= j + 1 && i < |s.layers| && o in s.layers[i]
  {
    hide LeadOf, KidsOf, Kids, Flat, Distinct;
    var i :| 0 <= i < |s.good| && p in s.good[i];
    assert p in Elements(s.layers[i]) && p in Elements(s.layers[j]);
    if i < j {
      LayersAreDisjoint(world, root, s, i, j);
    } else if j < i {
      LayersAreDisjoint(world, root, s, j, i);
    }
    var kids := KidsOf(world, s.layers[j], s.good[j]);
    KidsOfHas(world, s.layers[j], s.good[j], o);
    var sofar := s.layers[..j + 1];
    LeadIsWhatIsFree(kids, Flat(sofar));
    if o in Flat(sofar) {
      FlatHas(sofar, o);
      var m :| 0 <= m < j + 1 && o in sofar[m];
      assert o in s.layers[m];
    } else {
      assert o in Elements(LeadOf(kids, Flat(sofar)));
      assert j + 1 == |s.layers| ==> sofar == s.layers;
      assert o in s.layers[j + 1];
    }
  }

  lemma {:induction false} ReachedIsLayered(world: World, root: Oid, s: Search, k: nat, o: Oid)
    requires Complete(world, root, s)
    requires Reach(world, GoodSet(s.good), root, o, k)
    ensures exists i :: 0 <= i <= k && i < |s.layers| && o in s.layers[i]
  {
    hide LeadOf, KidsOf, Kids, Flat, GoodSet;
    if k == 0 {
      assert o in s.layers[0];
    } else {
      hide Complete;
      var p :| Reach(world, GoodSet(s.good), root, p, k - 1) && p in GoodSet(s.good) && o in Kids(world, p);
      ReachedIsLayered(world, root, s, k - 1, p);
      var j :| 0 <= j <= k - 1 && j < |s.layers| && p in s.layers[j];
      KidsAreClose(world, root, s, j, p, o);
    }
  }

  /** The level of a tree is unique. */
  lemma {:induction false} OneLevel(world: World, root: Oid, s: Search, i: nat, j: nat, o: Oid)
    requires Layered(world, root, s)
    requires i < |s.layers| && j < |s.layers| && o in s.layers[i] && o in s.layers[j]
    ensures i == j
  {
    hide Layered;
    assert o in Elements(s.layers[i]) && o in Elements(s.layers[j]);
    if i < j {
      LayersAreDisjoint(world, root, s, i, j);
    } else if j < i {
      LayersAreDisjoint(world, root, s, j, i);
    }
  }

  /** Level k holds exactly the trees whose shortest path from the root, through trees
      that could be read, has k steps; and every tree reached at all is in some level. */
  lemma {:induction false} LayersAreDistances(world: World, root: Oid, s: Search, o: Oid, k: nat)
    requires Complete(world, root, s)
    ensures k < |s.layers| && o in s.layers[k] <==> AtDistance(world, GoodSet(s.good), root, o, k)
    ensures Reach(world, GoodSet(s.good), root, o, k) ==> o in Flat(s.layers)
  {
    hide Layered, Reach, GoodSet, LeadOf, KidsOf;
    var readable := GoodSet(s.good);
    if k < |s.layers| && o in s.layers[k] {
      LayerIsReached(world, root, s, k, o);
      forall j: nat | j < k ensures !Reach(world, readable, root, o, j) {
        if Reach(world, readable, root, o, j) {
          ReachedIsLayered(world, root, s, j, o);
          var i :| 0 <= i <= j && i < |s.layers| && o in s.layers[i];
          OneLevel(world, root, s, i, k, o);
        }
      }
    }
    if Reach(world, readable, root, o, k) {
      ReachedIsLayered(world, root, s, k, o);
      var i :| 0 <= i <= k && i < |s.layers| && o in s.layers[i];
      FlatHas(s.layers, o);
      LayerIsReached(world, root, s, i, o);
      assert i < k ==> Reach(world, GoodSet(s.good), root, o, i as nat);
    }
  }

  /** The number of levels is one more than the greatest distance of a reached tree. */
  lemma {:induction false} LevelsIsGreatestDistance(world: World, root: Oid, s: Search)
    requires Complete(world, root, s)
    ensures var n := |s.layers| - 1;
      s.layers[n] != [] && AtDistance(world, GoodSet(s.good), root, s.layers[n][0], n)
    ensures forall o, k: nat | AtDistance(world, GoodSet(s.good), root, o, k) :: k < |s.layers|
  {
    hide AtDistance, GoodSet, LeadOf, KidsOf;
    var n := |s.layers| - 1;
    LayersAreDistances(world, root, s, s.layers[n][0], n);
    forall o, k: nat | AtDistance(world, GoodSet(s.good), root, o, k) ensures k < |s.layers| {
      LayersAreDistances(world, root, s, o, k);
    }
  }

  // ------------------------------------------------------------- the walk

  /** Every OID a search could ever meet. */
  ghost function Universe(world: World, root: Oid): set<Oid> {
    {root} + set t, o | t in world && o in Kids(world, t) :: o
  }

  lemma {:induction false} LeadAppend(a: seq<Oid>, b: seq<Oid>, taken: set<Oid>)
    ensures LeadOf(a + b, taken) == LeadOf(a, taken) + LeadOf(b, taken + Elements(a))
  {
    if a == [] {
      assert a + b == b && taken + Elements(a) == taken;
    } else {
      assert (a + b)[1..] == a[1..] + b && a == [a[0]] + a[1..];
      var taken' := if a[0] in taken then taken else taken + {a[0]};
      LeadAppend(a[1..], b, taken');
      assert taken' + Elements(a[1..]) == taken + Elements(a);
    }
  }

  /** The inner loop: subdirectories not met before are queued, in entry order. */
  method PushNew(entries: seq<RawTreeEntry>, visited: set<Oid>, next: seq<Oid>)
    returns (nextOut: seq<Oid>, visitedOut: set<Oid>)
    ensures nextOut == next + LeadOf(DirOids(entries), visited)
    ensures visitedOut == visited + Elements(DirOids(entries))
  {
    hide LeadOf, DirOids, Elements, ModeOf;
    nextOut, visitedOut := next, visited;
    NothingPushed(entries, visited, next);
    for i := 0 to |entries|
      invariant nextOut == next + LeadOf(DirOids(entries[..i]), visited)
      invariant visitedOut == visited + Elements(DirOids(entries[..i]))
    {
      var e := entries[i];
      PushOne(entries, i, visited, next);
      if ModeOf(e.modeRaw).DirectoryMode? {
        if e.oid !in visitedOut {
          visitedOut := visitedOut + {e.oid};
          nextOut := nextOut + [e.oid];
        }
      }
    }
    assert entries[..|entries|] == entries;
  }

  lemma NothingPushed(entries: seq<RawTreeEntry>, visited: set<Oid>, next: seq<Oid>)
    ensures next == next + LeadOf(DirOids(entries[..0]), visited)
    ensures visited == visited + Elements(DirOids(entries[..0]))
  {
  }

  lemma PushOne(entries: seq<RawTreeEntry>, i: nat, visited: set<Oid>, next: seq<Oid>)
    requires i < |entries|
    ensures var e, dirs, more := entries[i], DirOids(entries[..i]), DirOids(entries[..i + 1]);
      if ModeOf(e.modeRaw).DirectoryMode? then
        && visited + Elements(more) == visited + Elements(dirs) + {e.oid}
        && next + LeadOf(more, visited) ==
             next + LeadOf(dirs, visited) + if e.oid in visited + Elements(dirs) then [] else [e.oid]
      else more == dirs
  {
    hide LeadOf, Elements;
    var e, dirs := entries[i], DirOids(entries[..i]);
    assert entries[..i + 1][..i] == entries[..i];
    if ModeOf(e.modeRaw).DirectoryMode? {
      LeadAppend(dirs, [e.oid], visited);
      LeadOfOne(e.oid, visited + Elements(dirs));
      ElementsSnoc(dirs, e.oid);
    }
  }

  lemma TreeIsItsEntries(world: World, resident: set<Oid>, oid: Oid)
    ensures TreeOf(world, resident, oid).Ok? ==> Kids(world, oid) == DirOids(TreeOf(world, resident, oid).value)
  {
  }

  lemma ReadableStays(world: World, before: set<Oid>, after: set<Oid>, good: set<Oid>)
    requires before <= after && Readable(world, before, good)
    ensures Readable(world, after, good)
  {
    forall o | o in good ensures TreeOf(world, after, o).Ok? {
      AnswersAreStable(world, before, after, o);
    }
  }

  /** Trees outside the list do not matter. */
  lemma {:induction false} KidsOfFrame(world: World, trees: seq<Oid>, good: set<Oid>, more: set<Oid>)
    requires Elements(trees) !! more
    ensures KidsOf(world, trees, good + more) == KidsOf(world, trees, good)
  {
    if trees != [] {
      var n := |trees| - 1;
      assert trees[n] in Elements(trees);
      assert Elements(trees[..n]) <= Elements(trees);
      KidsOfFrame(world, trees[..n], good, more);
    }
  }

  /** Read one tree, hydrating it if need be. */
  method TryTree(h: HydratingStore, tree: Oid, ghost begun: set<Oid>, ghost me: nat)
    returns (entries: Result<seq<RawTreeEntry>, HydrateError>, ghost fetch: Hydration)
    requires h.Valid() && h.Unclaimed(me) && begun <= h.store.resident
    modifies h.Footprint()
    ensures h.Valid() && h.Unclaimed(me) && old(h.store.resident) <= h.store.resident
    ensures h.Sent(me) == old(h.Sent(me)) + SentFor(tree, fetch)
    ensures TriedOnce(h.store.world, h.backend, begun, h.store.resident, tree, entries.Ok?, fetch)
    ensures entries.Ok? ==> TreeOf(h.store.world, h.store.resident, tree).Ok? && DirOids(entries.value) == Kids(h.store.world, tree)
    ensures entries.Err? ==> TreeOf(h.store.world, begun, tree).Err?
  {
    hide HydratingStore.Valid, HydratingStore.Unclaimed, TreeOf, DirOids, Kids, HydrationOk, SentFor;
    ghost var was := h.store.resident;
    entries, fetch := h.ReadTree(tree, me);
    TreeIsItsEntries(h.store.world, h.store.resident, tree);
    FailedReadWasUnreadable(h.store.world, begun, was, h.store.resident, tree, entries);
    HydrationStays(h.backend, tree, fetch, was, h.store.resident, begun, h.store.resident);
  }

  /** Read one tree and queue what it leads to. */
  method VisitTree(h: HydratingStore, tree: Oid, visited: set<Oid>, next: seq<Oid>, ghost begun: set<Oid>, ghost me: nat)
    returns (ok: bool, nextOut: seq<Oid>, visitedOut: set<Oid>, ghost fetch: Hydration)
    requires h.Valid() && h.Unclaimed(me) && begun <= h.store.resident
    modifies h.Footprint()
    ensures h.Valid() && h.Unclaimed(me) && old(h.store.resident) <= h.store.resident
    ensures h.Sent(me) == old(h.Sent(me)) + SentFor(tree, fetch)
    ensures TriedOnce(h.store.world, h.backend, begun, h.store.resident, tree, ok, fetch)
    ensures if ok then TreeOf(h.store.world, h.store.resident, tree).Ok? else TreeOf(h.store.world, begun, tree).Err?
    ensures nextOut == if ok then next + LeadOf(Kids(h.store.world, tree), visited) else next
    ensures visitedOut == if ok then visited + Elements(Kids(h.store.world, tree)) else visited
  {
    hide HydratingStore.Valid, HydratingStore.Unclaimed, TreeOf, DirOids, Kids, TriedOnce, SentFor, LeadOf, Elements;
    nextOut, visitedOut := next, visited;
    var entries;
    entries, fetch := TryTree(h, tree, begun, me);
    ok := entries.Ok?;
    if ok {
      nextOut, visitedOut := PushNew(entries.value, visited, next);
    }
  }

  /** One level: read each of its trees once, queue what they lead to. */
  method ReadLevel(h: HydratingStore, frontier: seq<Oid>, visited: set<Oid>, ghost me: nat)
    returns (next: seq<Oid>, visitedOut: set<Oid>, warmed: nat, errors: nat, ghost read: set<Oid>, ghost fetches: seq<Hydration>)
    requires h.Valid() && h.Unclaimed(me) && Distinct(frontier)
    modifies h.Footprint()
    ensures h.Valid() && h.Unclaimed(me) && old(h.store.resident) <= h.store.resident
    ensures read <= Elements(frontier) && Readable(h.store.world, h.store.resident, read)
    ensures Unreadable(h.store.world, old(h.store.resident), frontier, read)
    ensures Attempted(h.store.world, h.backend, old(h.store.resident), h.store.resident, frontier, read, fetches)
    ensures |fetches| == |frontier| && h.Sent(me) == old(h.Sent(me)) + ReadEvents(frontier, fetches)
    ensures warmed == |read| && warmed + errors == |frontier|
    ensures next == LeadOf(KidsOf(h.store.world, frontier, read), visited)
    ensures visitedOut == visited + Elements(KidsOf(h.store.world, frontier, read))
  {
    hide HydratingStore.Valid, HydratingStore.Unclaimed, TreeOf, DirOids, Kids, Readable, Unreadable, LeadOf, KidsOf, Elements, Distinct,
         PartRead, Attempted, TriedOnce, SentFor, ReadEvents;
    ghost var world, begun, sent := h.store.world, h.store.resident, h.Sent(me);
    next, visitedOut, warmed, errors, read, fetches := [], visited, 0, 0, {}, [];
    NothingRead(world, h.backend, begun, frontier, visited, sent);
    for i := 0 to |frontier|
      invariant h.Valid() && h.Unclaimed(me) && begun <= h.store.resident
      invariant PartRead(world, h.backend, begun, h.store.resident, frontier[..i], visited, next, visitedOut, read, fetches)
      invariant |fetches| == i && h.Sent(me) == sent + ReadEvents(frontier[..i], fetches)
      invariant warmed == |read| && warmed + errors == i
    {
      var tree := frontier[i];
      ghost var was, sofar, next0, visited0 := h.store.resident, h.Sent(me), next, visitedOut;
      var ok;
      ghost var fetch;
      ok, next, visitedOut, fetch := VisitTree(h, tree, visitedOut, next, begun, me);
      ReadEventsSnoc(frontier, i, fetches, fetch, sent, sofar);
      if ok {
        OneRead(world, h.backend, begun, was, h.store.resident, frontier, i, visited,
                next0, visited0, read, fetches, next, visitedOut, fetch);
        warmed := warmed + 1;
        read := read + {tree};
      } else {
        OneFailed(world, h.backend, begun, was, h.store.resident, frontier, i, visited, next, visitedOut, read, fetches, fetch);
        errors := errors + 1;
      }
      fetches := fetches + [fetch];
    }
    assert frontier[..|frontier|] == frontier;
    WholeLevel(world, h.backend, begun, h.store.resident, frontier, visited, next, visitedOut, read, fetches);
  }

  /** Where the reading of a level stands after some of its trees. */
  ghost predicate PartRead(
      world: World, backend: Backend, begun: set<Oid>, now: set<Oid>, trees: seq<Oid>, visited: set<Oid>,
      next: seq<Oid>, visitedNow: set<Oid>, read: set<Oid>, fetches: seq<Hydration>)
  {
    && read <= Elements(trees) && Readable(world, now, read) && Unreadable(world, begun, trees, read)
    && Attempted(world, backend, begun, now, trees, read, fetches)
    && next == LeadOf(KidsOf(world, trees, read), visited)
    && visitedNow == visited + Elements(KidsOf(world, trees, read))
  }

  lemma WholeLevel(
      world: World, backend: Backend, begun: set<Oid>, now: set<Oid>, trees: seq<Oid>, visited: set<Oid>,
      next: seq<Oid>, visitedNow: set<Oid>, read: set<Oid>, fetches: seq<Hydration>)
    requires PartRead(world, backend, begun, now, trees, visited, next, visitedNow, read, fetches)
    ensures read <= Elements(trees) && Readable(world, now, read) && Unreadable(world, begun, trees, read)
    ensures Attempted(world, backend, begun, now, trees, read, fetches)
    ensures next == LeadOf(KidsOf(world, trees, read), visited)
    ensures visitedNow == visited + Elements(KidsOf(world, trees, read))
  {
  }

  lemma OneRead(
      world: World, backend: Backend, begun: set<Oid>, was: set<Oid>, now: set<Oid>, frontier: seq<Oid>, i: nat, visited: set<Oid>,
      next0: seq<Oid>, visited0: set<Oid>, read: set<Oid>, fetches: seq<Hydration>, next: seq<Oid>, visitedNow: set<Oid>, fetch: Hydration)
    requires i < |frontier| && Distinct(frontier) && was <= now
    requires PartRead(world, backend, begun, was, frontier[..i], visited, next0, visited0, read, fetches)
    requires TreeOf(world, now, frontier[i]).Ok? && TriedOnce(world, backend, begun, now, frontier[i], true, fetch)
    requires next == next0 + LeadOf(Kids(world, frontier[i]), visited0)
    requires visitedNow == visited0 + Elements(Kids(world, frontier[i]))
    ensures PartRead(world, backend, begun, now, frontier[..i + 1], visited, next, visitedNow, read + {frontier[i]}, fetches + [fetch])
    ensures frontier[i] !in read
  {
    hide Kids, KidsOf, LeadOf, TreeOf, Readable, Unreadable, Elements, Distinct, Attempted, TriedOnce;
    ReadableStays(world, was, now, read);
    OneMoreRead(world, now, frontier, i, read, visited);
    OneMoreTried(world, begun, frontier, i, read, true);
    OneMoreAttempt(world, backend, begun, was, now, frontier, i, read, fetches, true, fetch);
  }

  lemma OneFailed(
      world: World, backend: Backend, begun: set<Oid>, was: set<Oid>, now: set<Oid>, frontier: seq<Oid>, i: nat, visited: set<Oid>,
      next: seq<Oid>, visitedNow: set<Oid>, read: set<Oid>, fetches: seq<Hydration>, fetch: Hydration)
    requires i < |frontier| && Distinct(frontier) && was <= now
    requires PartRead(world, backend, begun, was, frontier[..i], visited, next, visitedNow, read, fetches)
    requires TreeOf(world, begun, frontier[i]).Err? && TriedOnce(world, backend, begun, now, frontier[i], false, fetch)
    ensures PartRead(world, backend, begun, now, frontier[..i + 1], visited, next, visitedNow, read, fetches + [fetch])
  {
    hide Kids, KidsOf, LeadOf, TreeOf, Readable, Unreadable, Elements, Distinct, Attempted, TriedOnce;
    ReadableStays(world, was, now, read);
    OneMoreRead(world, now, frontier, i, read, visited);
    OneMoreTried(world, begun, frontier, i, read, false);
    OneMoreAttempt(world, backend, begun, was, now, frontier, i, read, fetches, false, fetch);
  }

  lemma NothingRead(world: World, backend: Backend, begun: set<Oid>, frontier: seq<Oid>, visited: set<Oid>, sent: seq<Event>)
    ensures PartRead(world, backend, begun, begun, frontier[..0], visited, [], visited, {}, [])
    ensures sent == sent + ReadEvents(frontier[..0], [])
  {
  }

  lemma TriedStays(world: World, backend: Backend, begun: set<Oid>, was: set<Oid>, now: set<Oid>, tree: Oid, read: bool, fetch: Hydration)
    requires was <= now && TriedOnce(world, backend, begun, was, tree, read, fetch)
    ensures TriedOnce(world, backend, begun, now, tree, read, fetch)
  {
    hide HydrationOk;
    HydrationStays(backend, tree, fetch, begun, was, begun, now);
  }

  lemma AttemptStays(
      world: World, backend: Backend, begun: set<Oid>, was: set<Oid>, now: set<Oid>, trees: seq<Oid>, read: set<Oid>, fetches: seq<Hydration>)
    requires was <= now && Attempted(world, backend, begun, was, trees, read, fetches)
    ensures Attempted(world, backend, begun, now, trees, read, fetches)
  {
    hide TriedOnce;
    forall i | 0 <= i < |trees| ensures TriedOnce(world, backend, begun, now, trees[i], trees[i] in read, fetches[i]) {
      TriedStays(world, backend, begun, was, now, trees[i], trees[i] in read, fetches[i]);
    }
  }

  lemma OneMoreAttempt(
      world: World, backend: Backend, begun: set<Oid>, was: set<Oid>, now: set<Oid>, frontier: seq<Oid>, i: nat, read: set<Oid>,
      fetches: seq<Hydration>, ok: bool, fetch: Hydration)
    requires i < |frontier| && Distinct(frontier) && was <= now && read <= Elements(frontier[..i])
    requires Attempted(world, backend, begun, was, frontier[..i], read, fetches)
    requires TriedOnce(world, backend, begun, now, frontier[i], ok, fetch)
    ensures Attempted(world, backend, begun, now, frontier[..i + 1], if ok then read + {frontier[i]} else read, fetches + [fetch])
  {
    hide TriedOnce;
    AttemptStays(world, backend, begun, was, now, frontier[..i], read, fetches);
    var more := if ok then read + {frontier[i]} else read;
    assert frontier[i] !in read;
    forall k | 0 <= k < i + 1
      ensures TriedOnce(world, backend, begun, now, frontier[..i + 1][k], frontier[..i + 1][k] in more, (fetches + [fetch])[k])
    {
      if k < i {
        assert frontier[..i][k] == frontier[k] && frontier[k] != frontier[i];
      }
    }
  }

  /** A read that failed, for whatever reason, would have failed before: nothing is lost
      from the database, and what was there is not fetched. */
  lemma FailedReadWasUnreadable(
      world: World, begun: set<Oid>, was: set<Oid>, now: set<Oid>, tree: Oid, r: Result<seq<RawTreeEntry>, HydrateError>)
    requires begun <= was <= now
    requires r.Err? && r.error.InStore? ==> TreeOf(world, now, tree) == Err(r.error.store)
    requires r.Err? && r.error.InFetcher? ==> tree !in was
    ensures r.Err? ==> TreeOf(world, begun, tree).Err?
  {
    AnswersAreStable(world, begun, now, tree);
  }

  lemma OneMoreTried(world: World, begun: set<Oid>, frontier: seq<Oid>, i: nat, read: set<Oid>, ok: bool)
    requires i < |frontier| && Unreadable(world, begun, frontier[..i], read)
    requires !ok ==> TreeOf(world, begun, frontier[i]).Err?
    ensures Unreadable(world, begun, frontier[..i + 1], if ok then read + {frontier[i]} else read)
  {
    hide TreeOf;
    assert frontier[..i + 1] == frontier[..i] + [frontier[i]];
  }

  /** What the next tree of a level adds, read or not. */
  lemma OneMoreRead(world: World, resident: set<Oid>, frontier: seq<Oid>, i: nat, read: set<Oid>, visited: set<Oid>)
    requires i < |frontier| && Distinct(frontier) && read <= Elements(frontier[..i])
    requires Readable(world, resident, read)
    ensures frontier[i] !in read && read <= read + {frontier[i]} <= Elements(frontier[..i + 1])
    ensures KidsOf(world, frontier[..i + 1], read) == KidsOf(world, frontier[..i], read)
    ensures var kids, more := KidsOf(world, frontier[..i], read), Kids(world, frontier[i]);
      && KidsOf(world, frontier[..i + 1], read + {frontier[i]}) == kids + more
      && LeadOf(kids + more, visited) == LeadOf(kids, visited) + LeadOf(more, visited + Elements(kids))
      && Elements(kids + more) == Elements(kids) + Elements(more)
    ensures TreeOf(world, resident, frontier[i]).Ok? ==> Readable(world, resident, read + {frontier[i]})
  {
    hide Kids, LeadOf, TreeOf;
    var tree := frontier[i];
    assert frontier[..i + 1][..i] == frontier[..i] && frontier[..i + 1] == frontier[..i] + [tree];
    ElementsSnoc(frontier[..i], tree);
    assert tree !in frontier[..i] && Elements(frontier[..i]) !! {tree};
    KidsOfFrame(world, frontier[..i], read, {tree});
    LeadAppend(KidsOf(world, frontier[..i], read), Kids(world, tree), visited);
  }

  // ------------------------------------------------------------- the whole search

  /** A level's new trees are all in the finite universe, which is why the search ends. */
  lemma {:induction false} KidsAreKnown(world: World, root: Oid, trees: seq<Oid>, good: set<Oid>)
    ensures Elements(KidsOf(world, trees, good)) <= Universe(world, root)
  {
    forall o | o in KidsOf(world, trees, good) ensures o in Universe(world, root) {
      KidsOfHas(world, trees, good, o);
      var p :| p in trees && p in good && o in Kids(world, p);
      KidsNeedATree(world, p);
    }
  }

  lemma KidsNeedATree(world: World, p: Oid)
    ensures p !in world ==> Kids(world, p) == []
  {
  }

  function Extended(s: Search, read: set<Oid>, effort: Effort, next: seq<Oid>): Search {
    Search(if next == [] then s.layers else s.layers + [next], s.good + [read], s.efforts + [effort])
  }

  function Started(root: Oid): Search {
    Search([[root]], [], [])
  }

  /** The state of the search when a level is about to be read. */
  ghost predicate AtLevel(world: World, root: Oid, s: Search, frontier: seq<Oid>, visited: set<Oid>) {
    && Layered(world, root, s)
    && |s.layers| == |s.good| + 1
    && s.layers[|s.good|] == frontier && frontier != []
    && visited == Flat(s.layers)
  }

  lemma {:induction false} StartLevel(world: World, root: Oid)
    ensures AtLevel(world, root, Started(root), [root], {root})
    ensures Total(Started(root).layers) == 1 && Started(root).good == [] && Started(root).efforts == []
  {
    assert [[root]][..0] == [];
    assert Total([]) == 0 && Flat([]) == {};
  }

  lemma {:induction false} LevelRead(
      world: World, root: Oid, s: Search, frontier: seq<Oid>, visited: set<Oid>, read: set<Oid>, next: seq<Oid>,
      effort: Effort)
    requires AtLevel(world, root, s, frontier, visited)
    requires read <= Elements(frontier)
    requires next == LeadOf(KidsOf(world, frontier, read), visited)
    ensures var e := Extended(s, read, effort, next);
      && Count(e.good) == Count(s.good) + |read|
      && Total(e.layers) == Total(s.layers) + |next|
      && (next == [] ==> Complete(world, root, e))
      && (next != [] ==> AtLevel(world, root, e, next, visited + Elements(KidsOf(world, frontier, read))))
    ensures next != [] ==> visited < visited + Elements(KidsOf(world, frontier, read))
  {
    hide LeadOf, KidsOf, Layered, Flat, Elements;
    var e := Extended(s, read, effort, next);
    assert e.good[..|s.good|] == s.good;
    assert next != [] ==> e.layers[..|s.layers|] == s.layers;
    ExtendedIsLayered(world, root, s, frontier, visited, read, next, effort);
    NewTreesAreVisited(KidsOf(world, frontier, read), visited, next);
    FlatSnoc(s.layers, next);
  }

  lemma {:induction false} ExtendedIsLayered(
      world: World, root: Oid, s: Search, frontier: seq<Oid>, visited: set<Oid>, read: set<Oid>, next: seq<Oid>,
      effort: Effort)
    requires AtLevel(world, root, s, frontier, visited)
    requires read <= Elements(frontier)
    requires next == LeadOf(KidsOf(world, frontier, read), visited)
    ensures Layered(world, root, Extended(s, read, effort, next))
  {
    hide LeadOf, KidsOf, Flat, Elements;
    var e := Extended(s, read, effort, next);
    forall k | 0 < k < |e.layers|
      ensures e.layers[k] == LeadOf(KidsOf(world, e.layers[k - 1], e.good[k - 1]), Flat(e.layers[..k])) && e.layers[k] != []
    {
      assert e.layers[..k] == s.layers[..k];
      assert s.layers[..|s.layers|] == s.layers;
    }
  }

  lemma FlatSnoc(layers: seq<seq<Oid>>, next: seq<Oid>)
    ensures Flat(layers + [next]) == Flat(layers) + Elements(next)
  {
    assert (layers + [next])[..|layers|] == layers;
  }

  lemma NewTreesAreVisited(kids: seq<Oid>, visited: set<Oid>, next: seq<Oid>)
    requires next == LeadOf(kids, visited)
    ensures visited + Elements(next) == visited + Elements(kids)
    ensures next != [] ==> visited < visited + Elements(kids)
  {
    hide LeadOf;
    LeadIsWhatIsFree(kids, visited);
    if next != [] {
      assert next[0] in Elements(next);
    }
  }

  lemma ReadableLevels(
      world: World, before: set<Oid>, after: set<Oid>, s: Search, read: set<Oid>, next: seq<Oid>, effort: Effort)
    requires before <= after && AllReadable(world, before, s) && Readable(world, after, read)
    ensures AllReadable(world, after, Extended(s, read, effort, next))
  {
    hide Readable;
    var e := Extended(s, read, effort, next);
    forall k | 0 <= k < |e.good| ensures Readable(world, after, e.good[k]) {
      if k < |s.good| {
        ReadableStays(world, before, after, s.good[k]);
      }
    }
  }

  lemma SearchStaysReadable(world: World, before: set<Oid>, after: set<Oid>, s: Search)
    requires before <= after && AllReadable(world, before, s)
    ensures AllReadable(world, after, s)
  {
    hide Readable;
    forall k | 0 <= k < |s.good| ensures Readable(world, after, s.good[k]) {
      ReadableStays(world, before, after, s.good[k]);
    }
  }

  lemma TriedLevels(
      world: World, backend: Backend, before: set<Oid>, was: set<Oid>, now: set<Oid>, s: Search, frontier: seq<Oid>, read: set<Oid>,
      next: seq<Oid>, effort: Effort)
    requires AllTried(world, backend, before, was, s) && was <= now
    requires |s.good| < |s.layers| && s.layers[|s.good|] == frontier
    requires LevelTried(world, backend, before, now, frontier, read, effort)
    ensures AllTried(world, backend, before, now, Extended(s, read, effort, next))
  {
    hide LevelTried;
    SearchStaysTried(world, backend, before, was, now, s);
    var e := Extended(s, read, effort, next);
    forall k | 0 <= k < |e.good| ensures LevelTried(world, backend, before, now, e.layers[k], e.good[k], e.efforts[k]) {
      if k < |s.good| {
        assert LevelTried(world, backend, before, now, s.layers[k], s.good[k], s.efforts[k]);
      }
    }
  }

  lemma SearchStaysTried(world: World, backend: Backend, before: set<Oid>, was: set<Oid>, now: set<Oid>, s: Search)
    requires AllTried(world, backend, before, was, s) && was <= now
    ensures AllTried(world, backend, before, now, s)
  {
    hide Unreadable, Attempted, FetchedAhead;
    forall k | 0 <= k < |s.good| ensures LevelTried(world, backend, before, now, s.layers[k], s.good[k], s.efforts[k]) {
      assert LevelTried(world, backend, before, was, s.layers[k], s.good[k], s.efforts[k]);
      AttemptStays(world, backend, s.efforts[k].begun, was, now, s.layers[k], s.good[k], s.efforts[k].fetches);
    }
  }

  lemma LevelIsTried(
      world: World, backend: Backend, before: set<Oid>, now: set<Oid>, trees: seq<Oid>, read: set<Oid>, asked: Asked, begun: set<Oid>,
      fetches: seq<Hydration>)
    requires before <= begun <= now && FetchedAhead(trees, asked, before, begun)
    requires Unreadable(world, begun, trees, read) && Attempted(world, backend, begun, now, trees, read, fetches)
    ensures LevelTried(world, backend, before, now, trees, read, Effort(asked, begun, fetches))
  {
    hide Unreadable, Attempted, FetchedAhead;
  }

  /** Reading a level sends what its trees needed, after the batch that fetched it ahead. */
  lemma SentWithLevel(
      world: World, backend: Backend, before: set<Oid>, now: set<Oid>, s: Search, frontier: seq<Oid>, read: set<Oid>, next: seq<Oid>,
      effort: Effort, start: seq<Event>)
    requires AllTried(world, backend, before, now, s) && |s.good| < |s.layers| && s.layers[|s.good|] == frontier
    requires |effort.fetches| == |frontier|
    ensures start + AllSent(s) + EventsOf(effort.asked) + ReadEvents(frontier, effort.fetches)
      == start + AllSent(Extended(s, read, effort, next))
  {
    hide Unreadable, FetchedAhead, TriedOnce, EventsOf, ReadEvents;
    var e := Extended(s, read, effort, next);
    forall k | 0 <= k < |s.efforts| ensures |s.efforts[k].fetches| == |s.layers[k]| {
      assert LevelTried(world, backend, before, now, s.layers[k], s.good[k], s.efforts[k]);
    }
    assert e.efforts[..|s.efforts|] == s.efforts;
    SameEvents(s.layers, e.layers, s.efforts);
    OneAfterTheOther(start, AllSent(s), EventsOf(effort.asked));
    OneAfterTheOther(start, AllSent(s) + EventsOf(effort.asked), ReadEvents(frontier, effort.fetches));
  }

  lemma {:induction false} SameEvents(layers: seq<seq<Oid>>, more: seq<seq<Oid>>, efforts: seq<Effort>)
    requires |efforts| <= |layers| <= |more| && more[..|layers|] == layers
    requires forall k | 0 <= k < |efforts| :: |efforts[k].fetches| == |layers[k]|
    ensures forall k | 0 <= k < |efforts| :: more[k] == layers[k]
    ensures SearchEvents(more, efforts) == SearchEvents(layers, efforts)
  {
    hide EventsOf, ReadEvents;
    forall k | 0 <= k < |efforts| ensures more[k] == layers[k] {
      assert more[..|layers|][k] == layers[k];
    }
    if efforts != [] {
      SameEvents(layers, more, efforts[..|efforts| - 1]);
    }
  }

  /** A batch for a level asks for whatever is absent. */
  lemma AheadOf(trees: seq<Oid>, asked: Asked, before: set<Oid>, was: set<Oid>, now: set<Oid>, out: seq<Probe>)
    requires BatchOk(trees, asked, was, now, out) && before <= was
    ensures FetchedAhead(trees, asked, before, now)
  {
    hide FromBackend;
    BackendStays(asked, was, now, before, now);
  }

  lemma NothingYet(world: World, resident: set<Oid>, root: Oid)
    ensures AllReadable(world, resident, Started(root)) && Count([]) == 0
    ensures forall before, backend :: AllTried(world, backend, before, resident, Started(root))
    ensures forall start :: start + AllSent(Started(root)) == start
    ensures {root} <= Universe(world, root)
  {
  }

  lemma {:induction false} FrontierIsDistinct(world: World, root: Oid, s: Search, frontier: seq<Oid>, visited: set<Oid>)
    requires AtLevel(world, root, s, frontier, visited)
    ensures Distinct(frontier) && frontier != []
    ensures |s.good| < |s.layers| && s.layers[|s.good|] == frontier
  {
    LayersAreDisjoint(world, root, s, |s.good|, |s.good|);
  }

  lemma ExtendedLevels(s: Search, read: set<Oid>, effort: Effort, next: seq<Oid>)
    ensures |Extended(s, read, effort, next).good| == |s.good| + 1
  {
  }

  lemma Shrinks(all: set<Oid>, before: set<Oid>, after: set<Oid>)
    requires before < after <= all
    ensures |all - after| < |all - before|
  {
    var o :| o in after && o !in before;
    assert all - after <= all - before - {o};
    SubsetIsSmaller(all - after, all - before - {o});
  }

  lemma {:induction false} SubsetIsSmaller(a: set<Oid>, b: set<Oid>)
    requires a <= b
    ensures |a| <= |b|
  {
    assert b == a + (b - a);
  }

  /** `warm_tree_closure`. The statistics count an exact breadth-first search: one level
      per distance, and every tree met either warmed or an error. What a level lacks is
      fetched ahead, in one batch a level; an error is a tree that could not be read when
      its level began and whose own fetch failed or which does not decode. Nothing else is
      sent. */
  method WarmTreeClosure(h: HydratingStore, root: Oid, ghost me: nat)
    returns (stats: Stats, ghost s: Search)
    requires h.Valid() && h.Unclaimed(me)
    modifies h.Footprint()
    ensures h.Valid() && h.Unclaimed(me) && old(h.store.resident) <= h.store.resident
    ensures Complete(h.store.world, root, s) && AllReadable(h.store.world, h.store.resident, s)
    ensures AllTried(h.store.world, h.backend, old(h.store.resident), h.store.resident, s)
    ensures h.Sent(me) == old(h.Sent(me)) + AllSent(s)
    ensures stats.levels == |s.good|
    ensures stats.treesWarmed == Count(s.good) && stats.treesWarmed + stats.errors == Total(s.layers)
  {
    hide HydratingStore.Valid, HydratingStore.Unclaimed, BatchOk, Readable, AllReadable, Unreadable, Attempted, AllTried, AtLevel, Complete,
         LeadOf, KidsOf, Elements, Flat, Total, Count, Universe, Extended, Started, Distinct, EventsOf, ReadEvents, AllSent, FetchedAhead;
    var world := h.store.world;
    ghost var start := h.Sent(me);
    ghost var asked;
    var probes, frontier, visited;
    probes, asked := h.FetchObjects([root], me);
    AheadOf([root], asked, old(h.store.resident), old(h.store.resident), h.store.resident, probes);
    frontier, visited := [root], {root};
    s := Started(root);
    stats := Stats(0, 0, 0);
    StartLevel(world, root);
    NothingYet(world, h.store.resident, root);
    while frontier != []
      invariant h.Valid() && h.Unclaimed(me) && old(h.store.resident) <= h.store.resident
      invariant AtLevel(world, root, s, frontier, visited) && visited <= Universe(world, root)
      invariant AllReadable(world, h.store.resident, s)
      invariant AllTried(world, h.backend, old(h.store.resident), h.store.resident, s)
      invariant FetchedAhead(frontier, asked, old(h.store.resident), h.store.resident)
      invariant h.Sent(me) == start + AllSent(s) + EventsOf(asked)
      invariant stats.levels == |s.good| && stats.treesWarmed == Count(s.good)
      invariant stats.treesWarmed + stats.errors + |frontier| == Total(s.layers)
      decreases |Universe(world, root) - visited|
    {
      ghost var begun, before := h.store.resident, visited;
      FrontierIsDistinct(world, root, s, frontier, visited);
      var next, ok, bad;
      ghost var read, fetches;
      next, visited, ok, bad, read, fetches := ReadLevel(h, frontier, visited, me);
      ghost var effort := Effort(asked, begun, fetches);
      LevelRead(world, root, s, frontier, before, read, next, effort);
      KidsAreKnown(world, root, frontier, read);
      ReadableLevels(world, begun, h.store.resident, s, read, next, effort);
      LevelIsTried(world, h.backend, old(h.store.resident), h.store.resident, frontier, read, asked, begun, fetches);
      SentWithLevel(world, h.backend, old(h.store.resident), begun, s, frontier, read, next, effort, start);
      TriedLevels(world, h.backend, old(h.store.resident), begun, h.store.resident, s, frontier, read, next, effort);
      ExtendedLevels(s, read, effort, next);
      s := Extended(s, read, effort, next);
      stats := Stats(stats.treesWarmed + ok, stats.levels + 1, stats.errors + bad);
      if next == [] {
        return;
      }
      Shrinks(Universe(world, root), before, visited);
      ghost var was := h.store.resident;
      probes, asked := h.FetchObjects(next, me);
      AheadOf(next, asked, old(h.store.resident), was, h.store.resident, probes);
      SearchStaysReadable(world, was, h.store.resident, s);
      SearchStaysTried(world, h.backend, old(h.store.resident), was, h.store.resident, s);
      frontier := next;
    }
    FrontierIsDistinct(world, root, s, frontier, visited);
    assert false;
  }

  // ------------------------------------------------------------- the real graph

  /** The trees that can be read from a database holding `resident`. */
  ghost function ReadableTrees(world: World, resident: set<Oid>): set<Oid> {
    set o | o in world && TreeOf(world, resident, o).Ok?
  }

  /** All that will ever be readable: the trees that decode. */
  ghost function Decodable(world: World): set<Oid> {
    ReadableTrees(world, world.Keys)
  }

  lemma ReadableIsInWorld(world: World, resident: set<Oid>, o: Oid)
    ensures TreeOf(world, resident, o).Ok? <==> o in ReadableTrees(world, resident)
    ensures o in ReadableTrees(world, resident) ==> o in Decodable(world)
  {
  }

  /** If every visited tree of `local` was read, what `local` reaches was reached. */
  lemma {:induction false} ReachCarries(world: World, root: Oid, s: Search, local: set<Oid>, o: Oid, k: nat)
    requires Complete(world, root, s)
    requires local * Flat(s.layers) <= GoodSet(s.good)
    requires Reach(world, local, root, o, k)
    ensures Reach(world, GoodSet(s.good), root, o, k)
    decreases k
  {
    hide Complete, GoodSet, Flat, Kids;
    if k > 0 {
      var p :| Reach(world, local, root, p, k - 1) && p in local && o in Kids(world, p);
      ReachCarries(world, root, s, local, p, k - 1);
      LayersAreDistances(world, root, s, p, k - 1);
      assert p in local * Flat(s.layers);
    }
  }

  lemma {:induction false} ReachGrows(world: World, fewer: set<Oid>, more: set<Oid>, root: Oid, o: Oid, k: nat)
    requires fewer <= more && Reach(world, fewer, root, o, k)
    ensures Reach(world, more, root, o, k)
    decreases k
  {
    hide Kids;
    if k > 0 {
      var p :| Reach(world, fewer, root, p, k - 1) && p in fewer && o in Kids(world, p);
      ReachGrows(world, fewer, more, root, p, k - 1);
    }
  }

  /** What the search read lies between what could be read before it and after it. */
  lemma {:induction false} GoodIsBetween(world: World, backend: Backend, before: set<Oid>, now: set<Oid>, root: Oid, s: Search)
    requires Complete(world, root, s) && AllReadable(world, now, s) && AllTried(world, backend, before, now, s)
    ensures ReadableTrees(world, before) * Flat(s.layers) <= GoodSet(s.good) <= Flat(s.layers) * ReadableTrees(world, now)
  {
    hide LeadOf, KidsOf, TreeOf, Flat;
    forall o | o in ReadableTrees(world, before) * Flat(s.layers) ensures o in GoodSet(s.good) {
      FlatHas(s.layers, o);
      var k :| 0 <= k < |s.layers| && o in s.layers[k];
      assert LevelTried(world, backend, before, now, s.layers[k], s.good[k], s.efforts[k]);
      AnswersAreStable(world, before, s.efforts[k].begun, o);
    }
    forall o | o in GoodSet(s.good) ensures o in Flat(s.layers) && o in ReadableTrees(world, now) {
      var k :| 0 <= k < |s.good| && o in s.good[k];
      assert o in Elements(s.layers[k]) && Readable(world, now, s.good[k]);
      FlatHas(s.layers, o);
      ReadableIsInWorld(world, now, o);
    }
  }

  /** Whatever is reached through trees that were already local is visited, no later than
      at that distance, and if it was local itself it is warm. */
  lemma {:induction false} LocalTreesAreVisited(
      world: World, backend: Backend, before: set<Oid>, now: set<Oid>, root: Oid, s: Search, o: Oid, k: nat)
    requires Complete(world, root, s) && AllReadable(world, now, s) && AllTried(world, backend, before, now, s)
    requires Reach(world, ReadableTrees(world, before), root, o, k)
    ensures exists i :: 0 <= i <= k && i < |s.layers| && o in s.layers[i]
    ensures TreeOf(world, before, o).Ok? ==> o in GoodSet(s.good)
  {
    hide Complete, AllReadable, AllTried, Reach, GoodSet, Flat, TreeOf, ReadableTrees;
    GoodIsBetween(world, backend, before, now, root, s);
    ReachCarries(world, root, s, ReadableTrees(world, before), o, k);
    ReachedIsLayered(world, root, s, k, o);
    LayersAreDistances(world, root, s, o, k);
    ReadableIsInWorld(world, before, o);
  }

  /** An error-free search is of the real graph: level k is exactly the trees at shortest
      distance k from the root through all trees that decode. */
  lemma {:induction false} NoErrorsMeansRealDistances(
      world: World, resident: set<Oid>, root: Oid, s: Search, o: Oid, k: nat)
    requires Complete(world, root, s) && AllReadable(world, resident, s)
    requires Count(s.good) == Total(s.layers)
    ensures k < |s.layers| && o in s.layers[k] <==> AtDistance(world, Decodable(world), root, o, k)
  {
    hide Complete, AllReadable, Reach, Count, Total, Flat, GoodSet, TreeOf;
    AllVisitedAreGood(world, resident, root, s);
    LayersAreDistances(world, root, s, o, k);
    forall j: nat | j <= k ensures Reach(world, Decodable(world), root, o, j) <==> Reach(world, GoodSet(s.good), root, o, j) {
      if Reach(world, Decodable(world), root, o, j) {
        ReachCarries(world, root, s, Decodable(world), o, j);
      }
      if Reach(world, GoodSet(s.good), root, o, j) {
        ReachGrows(world, GoodSet(s.good), Decodable(world), root, o, j);
      }
    }
  }

  lemma {:induction false} AllVisitedAreGood(world: World, resident: set<Oid>, root: Oid, s: Search)
    requires Complete(world, root, s) && AllReadable(world, resident, s)
    requires Count(s.good) == Total(s.layers)
    ensures Flat(s.layers) == GoodSet(s.good) <= Decodable(world)
  {
    hide LeadOf, KidsOf, TreeOf, Flat;
    CountsAreExact(world, root, s);
    forall o ensures o in Flat(s.layers) <==> o in GoodSet(s.good) {
      FlatHas(s.layers, o);
      if k :| 0 <= k < |s.layers| && o in s.layers[k] {
        assert o in Elements(s.layers[k]);
      }
    }
    forall o | o in GoodSet(s.good) ensures o in Decodable(world) {
      var k :| 0 <= k < |s.good| && o in s.good[k];
      assert Readable(world, resident, s.good[k]);
      ReadableIsInWorld(world, resident, o);
    }
  }

  /** Every tree of the real graph is already local. */
  ghost predicate AllLocal(world: World, resident: set<Oid>, root: Oid) {
    forall o, k: nat | Reach(world, Decodable(world), root, o, k) :: TreeOf(world, resident, o).Ok?
  }

  /** Where the real graph is already local there are no errors, so its distances are
      what the search finds. */
  lemma {:induction false} LocalGraphHasNoErrors(
      world: World, backend: Backend, before: set<Oid>, now: set<Oid>, root: Oid, s: Search)
    requires Complete(world, root, s) && AllReadable(world, now, s) && AllTried(world, backend, before, now, s)
    requires AllLocal(world, before, root)
    ensures Count(s.good) == Total(s.layers)
  {
    hide LeadOf, KidsOf, TreeOf, Reach, Flat, GoodSet, ReadableTrees, Decodable;
    GoodIsBetween(world, backend, before, now, root, s);
    forall o | o in GoodSet(s.good) ensures o in Decodable(world) {
      ReadableIsInWorld(world, now, o);
    }
    forall k | 0 <= k < |s.layers| ensures s.good[k] == Elements(s.layers[k]) {
      assert LevelTried(world, backend, before, now, s.layers[k], s.good[k], s.efforts[k]);
      forall o | o in s.layers[k] ensures o in s.good[k] {
        LayerIsReached(world, root, s, k, o);
        ReachGrows(world, GoodSet(s.good), Decodable(world), root, o, k);
        AnswersAreStable(world, before, s.efforts[k].begun, o);
      }
    }
    assert s.layers[..|s.layers|] == s.layers && s.good[..|s.good|] == s.good;
    AllGoodCount(world, root, s, |s.layers|);
  }

  lemma {:induction false} AllGoodCount(world: World, root: Oid, s: Search, n: nat)
    requires Complete(world, root, s) && n <= |s.layers|
    requires forall k | 0 <= k < |s.layers| :: s.good[k] == Elements(s.layers[k])
    ensures Count(s.good[..n]) == Total(s.layers[..n])
  {
    hide LeadOf, KidsOf, Flat;
    if n > 0 {
      assert s.good[..n][..n - 1] == s.good[..n - 1] && s.layers[..n][..n - 1] == s.layers[..n - 1];
      AllGoodCount(world, root, s, n - 1);
      LayersAreDisjoint(world, root, s, n - 1, n - 1);
      DistinctCount(s.layers[n - 1]);
    }
  }

  // ------------------------------------------------------------- warm means local

  /** Each tree met is in exactly one level, so the counts are sizes of sets. */
  lemma {:induction false} CountsAreExact(world: World, root: Oid, s: Search)
    requires Complete(world, root, s)
    ensures Total(s.layers) == |Flat(s.layers)|
    ensures Count(s.good) == Total(s.layers) ==> forall k | 0 <= k < |s.layers| :: s.good[k] == Elements(s.layers[k])
  {
    hide LeadOf, KidsOf;
    TotalIsVisited(world, root, s, |s.layers|);
    assert s.layers[..|s.layers|] == s.layers && s.good[..|s.good|] == s.good;
    if Count(s.good) == Total(s.layers) {
      AllWarm(world, root, s, |s.layers|);
    }
  }

  lemma {:induction false} AllWarm(world: World, root: Oid, s: Search, n: nat)
    requires Complete(world, root, s) && n <= |s.layers|
    ensures Count(s.good[..n]) <= Total(s.layers[..n])
    ensures Count(s.good[..n]) == Total(s.layers[..n]) ==> forall k | 0 <= k < n :: s.good[k] == Elements(s.layers[k])
  {
    hide LeadOf, KidsOf, Flat;
    if n > 0 {
      assert s.good[..n][..n - 1] == s.good[..n - 1] && s.layers[..n][..n - 1] == s.layers[..n - 1];
      AllWarm(world, root, s, n - 1);
      LayersAreDisjoint(world, root, s, n - 1, n - 1);
      DistinctCount(s.layers[n - 1]);
      SubsetIsSmaller(s.good[n - 1], Elements(s.layers[n - 1]));
      SameSize(s.good[n - 1], Elements(s.layers[n - 1]));
    }
  }

  lemma SameSize(a: set<Oid>, b: set<Oid>)
    requires a <= b
    ensures |a| == |b| ==> a == b
  {
    assert b == a + (b - a);
  }

  /** A search without errors read every tree it met, and those trees are closed under
      going down. */
  lemma {:induction false} WarmIsClosed(world: World, resident: set<Oid>, root: Oid, s: Search, t: Oid)
    requires Complete(world, root, s) && AllReadable(world, resident, s)
    requires Count(s.good) == Total(s.layers)
    requires t in Flat(s.layers)
    ensures TreeOf(world, resident, t).Ok?
    ensures forall o | o in Kids(world, t) :: o in Flat(s.layers)
  {
    hide LeadOf, KidsOf, TreeOf, Kids;
    CountsAreExact(world, root, s);
    FlatHas(s.layers, t);
    var k :| 0 <= k < |s.layers| && t in s.layers[k];
    assert t in s.good[k] && Readable(world, resident, s.good[k]);
    forall o | o in Kids(world, t) ensures o in Flat(s.layers) {
      KidsAreClose(world, root, s, k, t, o);
      var i :| 0 <= i <= k + 1 && i < |s.layers| && o in s.layers[i];
      FlatHas(s.layers, o);
    }
  }

  lemma {:induction false} DirectoryIsKid(entries: seq<RawTreeEntry>, e: RawTreeEntry)
    requires e in entries && ModeOf(e.modeRaw).DirectoryMode?
    ensures e.oid in DirOids(entries)
  {
    var n := |entries| - 1;
    if e != entries[n] {
      assert e in entries[..n];
      DirectoryIsKid(entries[..n], e);
    }
  }

  lemma {:induction false} WarmWalk(
      world: World, resident: set<Oid>, later: set<Oid>, root: Oid, s: Search, t: Oid, cs: seq<string>, walked: string)
    requires Complete(world, root, s) && AllReadable(world, resident, s) && resident <= later
    requires Count(s.good) == Total(s.layers)
    requires t in Flat(s.layers)
    ensures var r := Walk(world, later, t, cs, walked); r.Err? ==> !r.error.ProjectionStore?
    decreases |cs|
  {
    hide Complete, AllReadable, Count, Total, Flat, DirOids;
    if cs != [] {
      WarmIsClosed(world, resident, root, s, t);
      AnswersAreStable(world, resident, later, t);
      TreeIsItsEntries(world, later, t);
      var entries := TreeOf(world, later, t).value;
      var found := Find(entries, cs[0]);
      if found.Some? && ModeOf(found.value.modeRaw).DirectoryMode? {
        DirectoryIsKid(entries, found.value);
        WarmWalk(world, resident, later, root, s, found.value.oid, cs[1..], Extend(walked, cs[0]));
      }
    }
  }

  /** After a warm without errors, no path lookup from that root ever fails in the store,
      then or later, although lookups never fetch. */
  lemma {:induction false} WarmingMakesWalkingLocal(
      world: World, resident: set<Oid>, later: set<Oid>, root: Oid, s: Search, stats: Stats, path: string)
    requires Complete(world, root, s) && AllReadable(world, resident, s) && resident <= later
    requires stats.treesWarmed == Count(s.good) && stats.treesWarmed + stats.errors == Total(s.layers)
    requires stats.errors == 0
    ensures var r := Resolve(world, later, root, path); r.Err? ==> !r.error.ProjectionStore?
  {
    hide Walk;
    assert root in s.layers[0];
    FlatHas(s.layers, root);
    if Components(path).Ok? {
      WarmWalk(world, resident, later, root, s, root, Components(path).value, "");
    }
  }
}
