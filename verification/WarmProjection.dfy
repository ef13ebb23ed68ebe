/** Warming a projection's root tree makes the whole projection local. */
module WarmProjection {
  import opened Git
  import opened Paths
  import opened ObjectStore
  import opened TreeWalk
  import opened Overlay
  import opened Projection
  import opened FsTypes
  import opened WarmTree

  /** After a warm without errors of the tree a projection shows, no lookup and no root
      listing of that projection ever fails in the store, then or later, although both
      read the local store only. */
  lemma {:induction false} WarmedProjectionNeverMissesATree(
      s: Snapshot, later: Snapshot, overlay: RootOverlay, p: Projection, root: Oid, search: Search, stats: Stats, path: string)
    requires s.world == later.world && s.refs == later.refs && s.resident <= later.resident
    requires RootTreeOf(s, p) == Ok(root)
    requires Complete(s.world, root, search) && AllReadable(s.world, s.resident, search)
    requires stats.treesWarmed == Count(search.good) && stats.treesWarmed + stats.errors == Total(search.layers)
    requires stats.errors == 0
    ensures var r := LookupOf(later, overlay, p, path); r.Err? ==> !r.error.ProjectionStore?
    ensures RootListing(later, overlay, p).Ok?
  {
    hide Walk, Parts, Complete, AllReadable, Count, Total, TreeOf, RootTreeOf, OverlayPairs, Unshadowed;
    RootIsStable(s, later, p);
    WarmingMakesWalkingLocal(s.world, s.resident, later.resident, root, search, stats, path);
    RootIsWarm(s.world, s.resident, root, search);
    AnswersAreStable(s.world, s.resident, later.resident, root);
    if Parts(path) != [] && Parts(path)[0] in overlay {
      DescendNeedsNoStore(Parts(path)[0], overlay[Parts(path)[0]], Parts(path)[1..], Parts(path)[0]);
    }
  }

  lemma RootIsWarm(world: World, resident: set<Oid>, root: Oid, search: Search)
    requires Complete(world, root, search) && AllReadable(world, resident, search)
    requires Count(search.good) == Total(search.layers)
    ensures TreeOf(world, resident, root).Ok?
  {
    hide TreeOf, KidsOf, Kids;
    assert root in search.layers[0];
    FlatHas(search.layers, root);
    WarmIsClosed(world, resident, root, search, root);
  }

  lemma {:induction false} DescendNeedsNoStore(name: string, entry: SyntheticEntry, cs: seq<string>, walked: string)
    ensures var r := Descend(name, entry, cs, walked); r.Err? ==> !r.error.ProjectionStore?
    decreases |cs|
  {
    if cs != [] && entry.Directory? && cs[0] in entry.children {
      DescendNeedsNoStore(cs[0], entry.children[cs[0]], cs[1..], walked + "/" + cs[0]);
    }
  }
}
