/** The user-visible view of a commit: overlay first, then the git tree. */
module Projection {
  import opened Git
  import opened Paths
  import opened ObjectStore
  import opened TreeWalk
  import opened Overlay
  import Names

  datatype Projection = Ref(name: string) | OfCommit(oid: Oid) | Subtree(commit: Oid, path: string)

  datatype ResolvedEntry = OnTree(entry: TreeEntry) | OnOverlay(name: string, synthetic: SyntheticEntry)

  type Found = Result<ResolvedEntry, ProjectionError>

  /** What a resolution depends on: the database as it stands and the refs. */
  datatype Snapshot = Snapshot(world: World, resident: set<Oid>, refs: map<string, Oid>)

  function CommitRoot(s: Snapshot, commit: Oid): Result<Oid, ProjectionError> {
    match CommitTreeOf(s.world, s.resident, commit)
    case Err(e) => Err(ProjectionStore(e))
    case Ok(tree) => Ok(tree)
  }

  function LastPart(path: string): string {
    var ps := Parts(path);
    if ps == [] then "" else ps[|ps| - 1]
  }

  /** `rsplit_once('/')`: the text before the last slash, if there is one. */
  function BeforeLastSlash(path: string): string {
    if path == "" then "" else if path[|path| - 1] == '/' then path[..|path| - 1] else BeforeLastSlash(path[..|path| - 1])
  }

  function RootTreeOf(s: Snapshot, p: Projection): Result<Oid, ProjectionError> {
    match p
    case Ref(name) =>
      if name !in s.refs then Err(ProjectionStore(StoreBackend)) else CommitRoot(s, s.refs[name])
    case OfCommit(oid) => CommitRoot(s, oid)
    case Subtree(commit, path) =>
      match CommitRoot(s, commit)
      case Err(e) => Err(e)
      case Ok(tree) =>
        match Resolve(s.world, s.resident, tree, path)
        case Err(e) => Err(e)
        case Ok(entry) =>
          if entry.mode.DirectoryMode? then Ok(entry.oid)
          else Err(NotADirectory(LastPart(path), BeforeLastSlash(path)))
  }

  function FromOverlay(r: Named): Found {
    match r
    case Err(e) => Err(e)
    case Ok(pair) => Ok(OnOverlay(pair.0, pair.1))
  }

  function FromTree(r: Resolution): Found {
    match r
    case Err(e) => Err(e)
    case Ok(entry) => Ok(OnTree(entry))
  }

  /** What a virtual path means: only its components matter for the overlay. */
  function LookupOf(s: Snapshot, overlay: RootOverlay, p: Projection, path: string): Found {
    var ps := Parts(path);
    if ps != [] && ps[0] in overlay then FromOverlay(Descend(ps[0], overlay[ps[0]], ps[1..], ps[0]))
    else match RootTreeOf(s, p)
      case Err(e) => Err(e)
      case Ok(tree) => FromTree(Resolve(s.world, s.resident, tree, path))
  }

  /** Tree entries whose name the overlay does not shadow. */
  function Unshadowed(overlay: RootOverlay, entries: seq<RawTreeEntry>): seq<(string, ResolvedEntry)> {
    if entries == [] then [] else
    (if entries[0].name in overlay then [] else [(entries[0].name, OnTree(FromRaw(entries[0])))])
      + Unshadowed(overlay, entries[1..])
  }

  /** Synthetic entries in name order. */
  function OverlayPairs(overlay: RootOverlay): (r: seq<(string, ResolvedEntry)>)
    ensures |r| == |overlay.Keys|
  {
    Names.SortedListsKeys(overlay.Keys);
    var names := Names.Sorted(overlay.Keys);
    seq(|names|, i requires 0 <= i < |names| => assert names[i] in names; (names[i], OnOverlay(names[i], overlay[names[i]])))
  }

  /** Synthetic entries in name order, then the real entries they do not shadow. */
  function RootListing(s: Snapshot, overlay: RootOverlay, p: Projection): Result<seq<(string, ResolvedEntry)>, ProjectionError> {
    match RootTreeOf(s, p)
    case Err(e) => Err(e)
    case Ok(tree) =>
      match TreeOf(s.world, s.resident, tree)
      case Err(e) => Err(ProjectionStore(e))
      case Ok(entries) => Ok(OverlayPairs(overlay) + Unshadowed(overlay, entries))
  }

  /** A reference shows what its commit shows, a commit what its tree holds, and a name
      that is no reference nothing but the overlay. */
  lemma RefShowsItsCommit(s: Snapshot, overlay: RootOverlay, name: string, path: string)
    ensures name in s.refs ==>
      && LookupOf(s, overlay, Ref(name), path) == LookupOf(s, overlay, OfCommit(s.refs[name]), path)
      && RootListing(s, overlay, Ref(name)) == RootListing(s, overlay, OfCommit(s.refs[name]))
    ensures name !in s.refs ==> RootListing(s, overlay, Ref(name)) == Err(ProjectionStore(StoreBackend))
  {
    hide Resolve, Parts, Descend, TreeOf, CommitRoot, OverlayPairs, Unshadowed;
  }

  lemma CommitShowsItsTree(s: Snapshot, commit: Oid, tree: Oid, size: nat, path: string)
    requires commit in s.resident && commit in s.world && s.world[commit] == Commit(Some(tree), size)
    ensures LookupOf(s, map[], OfCommit(commit), path) == FromTree(Resolve(s.world, s.resident, tree, path))
  {
    hide Resolve, Parts, Descend;
  }

  // ------------------------------------------------------------ the operations

  method RootTree(store: ObjectStore, refs: map<string, Oid>, p: Projection) returns (r: Result<Oid, ProjectionError>)
    requires store.Valid()
    modifies store.treeCache
    ensures store.Valid()
    ensures r == RootTreeOf(Snapshot(store.world, store.resident, refs), p)
  {
    ghost var s := Snapshot(store.world, store.resident, refs);
    match p {
      case Ref(name) =>
        if name !in refs {
          return Err(ProjectionStore(StoreBackend));
        }
        r := CommitRoot(Snapshot(store.world, store.resident, refs), refs[name]);
      case OfCommit(oid) =>
        r := CommitRoot(Snapshot(store.world, store.resident, refs), oid);
      case Subtree(commit, path) =>
        var tree := CommitRoot(Snapshot(store.world, store.resident, refs), commit);
        if tree.Err? {
          return Err(tree.error);
        }
        var entry := TreeWalk.Lookup(store, tree.value, path);
        if entry.Err? {
          return Err(entry.error);
        }
        if !entry.value.mode.DirectoryMode? {
          return Err(NotADirectory(LastPart(path), BeforeLastSlash(path)));
        }
        r := Ok(entry.value.oid);
    }
  }

  /** `Projection::lookup` on path text: trim, let the overlay claim the first
      component, otherwise walk the git tree. */
  method LookupPath(store: ObjectStore, refs: map<string, Oid>, overlay: RootOverlay, p: Projection, path: string) returns (r: Found)
    requires store.Valid()
    modifies store.treeCache
    ensures store.Valid()
    ensures r == LookupOf(Snapshot(store.world, store.resident, refs), overlay, p, path)
  {
    var trimmed := Trim(path);
    TrimmedFirst(path);
    if trimmed != "" {
      var first := SplitSlash(trimmed)[0];
      if first in overlay {
        var found := ResolveInSynthetic(first, overlay[first], trimmed[|first|..]);
        return FromOverlay(found);
      }
    }
    var tree := RootTree(store, refs, p);
    if tree.Err? {
      return Err(tree.error);
    }
    var entry := TreeWalk.Lookup(store, tree.value, path);
    r := FromTree(entry);
  }

  method ReadRoot(store: ObjectStore, refs: map<string, Oid>, overlay: RootOverlay, p: Projection)
    returns (r: Result<seq<(string, ResolvedEntry)>, ProjectionError>)
    requires store.Valid()
    modifies store.treeCache
    ensures store.Valid()
    ensures r == RootListing(Snapshot(store.world, store.resident, refs), overlay, p)
  {
    var tree := RootTree(store, refs, p);
    if tree.Err? {
      return Err(tree.error);
    }
    var synthetic := ListOverlay(overlay);
    var listed := store.ReadTree(tree.value);
    if listed.Err? {
      return Err(ProjectionStore(listed.error));
    }
    var visible := ListUnshadowed(overlay, listed.value);
    r := Ok(synthetic + visible);
  }

  method ListOverlay(overlay: RootOverlay) returns (out: seq<(string, ResolvedEntry)>)
    ensures out == OverlayPairs(overlay)
  {
    Names.SortedListsKeys(overlay.Keys);
    var names := Names.Sorted(overlay.Keys);
    out := [];
    for i := 0 to |names|
      invariant out == OverlayPairs(overlay)[..i]
    {
      assert names[i] in names;
      out := out + [(names[i], OnOverlay(names[i], overlay[names[i]]))];
    }
  }

  method ListUnshadowed(overlay: RootOverlay, entries: seq<RawTreeEntry>) returns (out: seq<(string, ResolvedEntry)>)
    ensures out == Unshadowed(overlay, entries)
  {
    hide Unshadowed;
    out := [];
    var i := 0;
    assert entries[0..] == entries && [] + Unshadowed(overlay, entries) == Unshadowed(overlay, entries);
    while i < |entries|
      invariant 0 <= i <= |entries|
      invariant out + Unshadowed(overlay, entries[i..]) == Unshadowed(overlay, entries)
    {
      var entry := entries[i];
      ghost var rest := Unshadowed(overlay, entries[i + 1..]);
      OneEntry(overlay, entries, i);
      i := i + 1;
      if entry.name in overlay {
        continue;
      }
      var pair := (entry.name, OnTree(FromRaw(entry)));
      assert out + ([pair] + rest) == (out + [pair]) + rest;
      out := out + [pair];
    }
    NoEntriesLeft(overlay, entries);
    assert out + [] == out;
  }

  lemma OneEntry(overlay: RootOverlay, entries: seq<RawTreeEntry>, i: nat)
    requires i < |entries|
    ensures Unshadowed(overlay, entries[i..]) ==
      (if entries[i].name in overlay then [] else [(entries[i].name, OnTree(FromRaw(entries[i])))])
      + Unshadowed(overlay, entries[i + 1..])
  {
    assert entries[i..][1..] == entries[i + 1..];
  }

  lemma NoEntriesLeft(overlay: RootOverlay, entries: seq<RawTreeEntry>)
    ensures Unshadowed(overlay, entries[|entries|..]) == []
  {
  }

  // -------------------------------------------------------- subtree projections

  function RelocatedFound(walked: string, r: Found): Found {
    match r
    case Ok(_) => r
    case Err(NotFound(c, parent)) => Err(NotFound(c, Under(walked, parent)))
    case Err(NotADirectory(c, parent)) => Err(NotADirectory(c, Under(walked, parent)))
    case Err(_) => r
  }

  /** Mounting the subtree at `p` shows at `q` exactly what mounting the whole commit
      shows at `p/q`. On failure the error is the same up to the reported parent, which
      the whole-commit view prefixes with `p`. */
  lemma SubtreeIsTheSame(s: Snapshot, commit: Oid, p: string, q: string)
    requires Components(p).Ok? && Components(q).Ok? && Components(q).value != []
    ensures var inside := LookupOf(s, map[], Subtree(commit, p), q);
      var whole := LookupOf(s, map[], OfCommit(commit), p + "/" + q);
      && (forall e :: inside == Ok(e) <==> whole == Ok(e))
      && (RootTreeOf(s, Subtree(commit, p)).Ok? ==> whole == RelocatedFound(Join(Components(p).value), inside))
      && (RootTreeOf(s, Subtree(commit, p)).Err? ==>
            whole == inside || (inside.error.NotADirectory? && whole.error.NotADirectory?
                                && whole.error.component == inside.error.component))
  {
    hide Walk, Join, SplitSlash, NonEmpty;
    var root := CommitRoot(s, commit);
    if root.Ok? {
      LookupComposes(s.world, s.resident, root.value, p, q);
      var cs := Components(p).value;
      if cs == [] {
        RootIsDirectory(s, root.value, p);
      }
    }
  }

  lemma RootIsDirectory(s: Snapshot, tree: Oid, p: string)
    requires Components(p) == Ok([])
    ensures Resolve(s.world, s.resident, tree, p) == Ok(RootEntry(tree))
  {
  }
}
