/** The filesystem provider: inodes handed out by `lookup`, remembered for `getattr`,
    and listed by `readdir`. */
module ProjectionFs {
  import opened Git
  import opened Paths
  import opened ObjectStore
  import opened Overlay
  import opened Projection
  import opened Inodes
  import opened FsTypes
  import opened GitCli
  import opened Hydrate
  import Chunks

  /** The view everything is answered from. */
  datatype View = View(overlay: RootOverlay, projection: Projection, hashes: Hashes, honest: bool)

  /** A remembered inode: the path it was looked up by still resolves to the entry its
      snapshot was made from. */
  ghost predicate Known(v: View, s: Snapshot, issued: set<InodeKind>, i: nat, snap: Snap, cs: seq<string>) {
    && cs != [] && (forall c | c in cs :: ValidName(c))
    && var r := LookupOf(s, v.overlay, v.projection, Join(cs));
    && r.Ok?
    && IdOf(r.value, Join(cs)) in issued && InodeOf(v.hashes, IdOf(r.value, Join(cs))) == i
    && (exists size :: snap == SnapOf(r.value, Join(cs), size))
    && (v.honest ==> snap == SnapOf(r.value, Join(cs), TrueSize(s.world, r.value)))
  }

  /** The attributes of an entry: its number, its kind and permissions, and its object's
      size where headers can be trusted. */
  ghost predicate Describes(v: View, world: World, attr: Attr, e: ResolvedEntry, path: string) {
    && attr.inode == InodeOf(v.hashes, IdOf(e, path))
    && attr.kind == KindOf(e)
    && (exists size :: attr == AttrOf(attr.inode, SnapOf(e, path, size)))
    && (v.honest ==> attr == AttrOf(attr.inode, SnapOf(e, path, TrueSize(world, e))))
  }

  /** So what `lookup` answers, and `getattr` repeats, is what `stat` should show. */
  lemma DescribedIsShown(v: View, world: World, attr: Attr, e: ResolvedEntry, path: string)
    requires Describes(v, world, attr, e, path)
    requires NeedsHeader(e) && v.honest ==> e.entry.oid in world
    ensures Shows(world, v.honest, attr, e)
  {
  }

  lemma KnownStays(v: View, s: Snapshot, t: Snapshot, issued: set<InodeKind>, more: set<InodeKind>, i: nat, snap: Snap, cs: seq<string>)
    requires s.world == t.world && s.refs == t.refs && s.resident <= t.resident && issued <= more
    requires Known(v, s, issued, i, snap, cs)
    ensures Known(v, t, more, i, snap, cs)
  {
    hide LookupOf, InodeOf, Join, SnapOf;
    LookupIsStable(s, t, v.overlay, v.projection, Join(cs));
  }

  /** Two lookups that got the same number, without a collision, found the same entry at
      the same path and, with truthful headers, remember the same snapshot. */
  lemma SameInodeSameSnap(v: View, s: Snapshot, issued: set<InodeKind>, i: nat, a: Snap, cs: seq<string>, b: Snap, ds: seq<string>)
    requires Known(v, s, issued, i, a, cs) && Known(v, s, issued, i, b, ds)
    requires forall j, k | j in issued && k in issued && InodeOf(v.hashes, j) == InodeOf(v.hashes, k) :: j == k
    ensures cs == ds && (v.honest ==> a == b)
  {
    hide LookupOf, InodeOf, SnapOf, Join;
    var e := LookupOf(s, v.overlay, v.projection, Join(cs)).value;
    var f := LookupOf(s, v.overlay, v.projection, Join(ds)).value;
    assert IdOf(e, Join(cs)) == IdOf(f, Join(ds));
    ComponentsOfJoin(cs);
    ComponentsOfJoin(ds);
  }

  class ProjectionFsProvider {
    const h: HydratingStore
    const refs: map<string, Oid>
    const overlay: RootOverlay
    const projection: Projection
    const allocator: InodeAllocator
    var attrs: map<nat, Snap>

    /** The path each remembered inode was first looked up by. */
    ghost var paths: map<nat, seq<string>>

    ghost function Footprint(): set<object> {
      {this, allocator} + h.Footprint()
    }

    ghost function Now(): Snapshot
      reads h.store
    {
      Snapshot(h.store.world, h.store.resident, refs)
    }

    ghost function TheView(): View {
      View(overlay, projection, allocator.hashes, h.Honest())
    }

    ghost predicate Valid()
      reads Footprint()
    {
      && this !in h.Footprint() && allocator !in h.Footprint()
      && h.Valid() && allocator.Valid()
      && Remembered()
    }

    ghost predicate Remembered()
      reads Footprint()
    {
      && ROOT_INODE in attrs && attrs[ROOT_INODE] == RootSnap
      && paths.Keys == attrs.Keys - {ROOT_INODE}
      && forall i | i in paths :: Known(TheView(), Now(), allocator.issued, i, attrs[i], paths[i])
    }

    /** Nothing handed out is ever taken back or changed. */
    twostate predicate Kept()
      reads Footprint()
    {
      && old(h.store.resident) <= h.store.resident
      && old(allocator.issued) <= allocator.issued
      && (forall i | i in old(attrs) :: i in attrs && attrs[i] == old(attrs[i]))
      && (forall i | i in old(paths) :: i in paths && paths[i] == old(paths[i]))
    }

    constructor (h: HydratingStore, refs: map<string, Oid>, overlay: RootOverlay, projection: Projection, hashes: Hashes)
      requires h.Valid()
      ensures Valid() && this.h == h && attrs == map[ROOT_INODE := RootSnap]
      ensures fresh(allocator)
    {
      hide HydratingStore.Valid, LookupOf, InodeOf;
      this.h, this.refs, this.overlay, this.projection := h, refs, overlay, projection;
      allocator := new InodeAllocator(hashes);
      attrs, paths := map[ROOT_INODE := RootSnap], map[];
    }

    /** The components of a directory's path. */
    ghost function DirOf(inode: nat): seq<string>
      reads this
    {
      if inode in paths then paths[inode] else []
    }

    /** `parent_path`, and the kinds of inode that have no children. */
    function ParentPath(parent: nat): Result<string, FsError>
      reads this
    {
      if parent == ROOT_INODE then Ok("")
      else if parent !in attrs then Err(NoEntry)
      else match attrs[parent]
        case TreeDir(_, path) => Ok(path)
        case SyntheticDir(_, path) => Ok(path)
        case GitlinkSnap => Err(NoEntry)
        case _ => Err(NotDirectory)
    }

    /** `getattr`: what is remembered, or nothing. */
    function GetAttr(inode: nat): Result<Attr, FsError>
      reads this
    {
      if inode == ROOT_INODE then Ok(AttrOf(ROOT_INODE, RootSnap))
      else if inode !in attrs then Err(NoEntry)
      else Ok(AttrOf(inode, attrs[inode]))
    }

    /** A directory's remembered path is the spelling of its components. */
    lemma ParentIsItsPath(parent: nat)
      requires Valid() && ParentPath(parent).Ok?
      ensures ParentPath(parent).value == Join(DirOf(parent))
      ensures forall c | c in DirOf(parent) :: ValidName(c)
      ensures parent == ROOT_INODE <==> DirOf(parent) == []
    {
      hide LookupOf, InodeOf, HydratingStore.Valid, InodeAllocator.Valid;
      if parent != ROOT_INODE {
        assert Known(TheView(), Now(), allocator.issued, parent, attrs[parent], paths[parent]);
      }
    }

    // ------------------------------------------------------------------ lookup

    /** What `lookup` must answer: the entry the projection resolves the child's path to. */
    ghost function ChildOf(parent: nat, name: string): Found
      reads this, h.store
    {
      LookupOf(Now(), overlay, projection, Join(DirOf(parent) + [name]))
    }

    /** `lookup`. The path is resolved against the local store; only the header of a file or
        a symlink is fetched if it is absent, and only that can fail after a name is found. */
    method Lookup(parent: nat, name: string, ghost me: nat) returns (r: Result<Attr, FsError>, ghost fetch: Hydration)
      requires Valid() && h.Unclaimed(me) && ValidName(name)
      modifies Footprint()
      ensures Valid() && h.Unclaimed(me) && Kept()
      ensures old(ParentPath(parent)).Err? ==> r == Err(old(ParentPath(parent)).error)
      ensures old(ParentPath(parent)).Ok? && old(ChildOf(parent, name)).Err? ==> r == Err(ToFs(old(ChildOf(parent, name)).error))
      ensures parent != ROOT_INODE && parent !in old(attrs) ==> r == Err(NoEntry)
      ensures parent != ROOT_INODE && parent in old(attrs) ==>
        match old(attrs)[parent]
        case GitlinkSnap => r == Err(NoEntry)
        case TreeFile(_, _, _) => r == Err(NotDirectory)
        case TreeSymlink(_, _) => r == Err(NotDirectory)
        case SyntheticFile(_, _) => r == Err(NotDirectory)
        case SyntheticSymlink(_) => r == Err(NotDirectory)
        case _ => true
      ensures old(ParentPath(parent)).Ok? ==>
        match old(ChildOf(parent, name))
        case Err(NotFound(_, _)) => r == Err(NoEntry)
        case Err(NotADirectory(_, _)) => r == Err(NotDirectory)
        case Err(InvalidPath(_)) => r == Err(NoEntry)
        case Err(ProjectionStore(_)) => r == Err(Io)
        case Ok(_) => true
      ensures old(ParentPath(parent)).Err? || old(ChildOf(parent, name)).Err? ==> fetch.NotNeeded? && h.Sent(me) == old(h.Sent(me))
      ensures old(ParentPath(parent)).Ok? && old(ChildOf(parent, name)).Ok? ==>
        var e := old(ChildOf(parent, name)).value;
        && HeaderRead(e, fetch, old(h.store.resident), h.store.resident, old(h.Sent(me)), h.Sent(me))
        && match r
           case Err(x) => x == Io && fetch.Failed()
           case Ok(attr) =>
             && !fetch.Failed()
             && Describes(TheView(), h.store.world, attr, e, Join(old(DirOf(parent)) + [name]))
             && Shows(h.store.world, h.Honest(), attr, e)
      ensures r.Ok? ==> r.value.inode in attrs && IsFaithful(r.value)
      ensures r.Ok? && r.value.inode !in old(attrs) ==> GetAttr(r.value.inode) == Ok(r.value)
    {
      hide LookupOf, InodeOf, Join, HydratingStore.Valid, InodeAllocator.Valid, Remembered, IsFaithful, HydratingStore.Unclaimed, Describes,
           Shows, HeaderRead;
      fetch := NotNeeded;
      var parentPath := ParentPath(parent);
      if parentPath.Err? {
        return Err(parentPath.error), NotNeeded;
      }
      ParentIsItsPath(parent);
      ghost var cs := DirOf(parent) + [name];
      var full := if parentPath.value == "" then name else parentPath.value + "/" + name;
      FullIsJoin(DirOf(parent), name);
      var resolved := ResolvePath(full, me);
      if resolved.Err? {
        return Err(ToFs(resolved.error)), NotNeeded;
      }
      r, fetch := Remember(resolved.value, full, cs, me);
    }

    /** Whether the header of an entry had to be fetched; entries that need none send nothing. */
    ghost predicate HeaderRead(
        e: ResolvedEntry, fetch: Hydration, before: set<Oid>, now: set<Oid>, sent: seq<Event>, sentNow: seq<Event>)
    {
      if NeedsHeader(e) then Hydrated(h.backend, e.entry.oid, fetch, before, now, sent, sentNow)
      else fetch.NotNeeded? && sentNow == sent
    }

    /** Resolving a path reads the local store only. */
    method ResolvePath(path: string, ghost me: nat) returns (r: Found)
      requires Valid() && h.Unclaimed(me)
      modifies h.store.treeCache
      ensures Valid() && h.Unclaimed(me) && h.Sent(me) == old(h.Sent(me))
      ensures r == LookupOf(Now(), overlay, projection, path)
    {
      hide LookupOf, InodeOf, Known, InodeAllocator.Valid, ObjectStore.Valid, ObjectStore.HeadersResident, ObjectStore.HeadersTrue;
      r := LookupPath(h.store, refs, overlay, projection, path);
    }

    /** `snapshot_for`: number the entry and, if it is a file or a symlink, get its size,
        fetching the object if need be. */
    method SnapshotFor(e: ResolvedEntry, path: string, ghost me: nat)
      returns (inode: nat, snap: Result<Snap, FsError>, ghost fetch: Hydration)
      requires Valid() && h.Unclaimed(me)
      modifies Footprint()
      ensures Valid() && h.Unclaimed(me) && Kept() && attrs == old(attrs) && paths == old(paths)
      ensures inode == InodeOf(allocator.hashes, IdOf(e, path)) && IdOf(e, path) in allocator.issued
      ensures snap.Ok? ==> exists size :: snap.value == SnapOf(e, path, size)
      ensures snap.Ok? && h.Honest() ==> snap.value == SnapOf(e, path, TrueSize(h.store.world, e))
      ensures snap.Ok? && NeedsHeader(e) && h.Honest() ==> e.entry.oid in h.store.world
      ensures snap.Err? ==> snap.error == Io
      ensures snap.Err? <==> fetch.Failed()
      ensures HeaderRead(e, fetch, old(h.store.resident), h.store.resident, old(h.Sent(me)), h.Sent(me))
    {
      hide LookupOf, InodeOf, Join, HydratingStore.Valid, InodeAllocator.Valid, HydratingStore.Unclaimed, Known, HydrationOk, SentFor;
      ghost var before, issued := Now(), allocator.issued;
      fetch := NotNeeded;
      inode := allocator.Issue(IdOf(e, path));
      var size := 0;
      if NeedsHeader(e) {
        var header;
        header, fetch := h.Header(e.entry.oid, me);
        StillRemembered(before, issued);
        if header.Err? {
          return inode, Err(Io), fetch;
        }
        size := header.value.size;
        HeaderIsSize(h.store.world, h.store.resident, e.entry.oid, header.value);
      } else {
        StillRemembered(before, issued);
      }
      snap := Ok(SnapOf(e, path, size));
    }

    /** What was known stays known as the database and the table of numbers grow. */
    lemma StillRemembered(before: Snapshot, issued: set<InodeKind>)
      requires ROOT_INODE in attrs && attrs[ROOT_INODE] == RootSnap && paths.Keys == attrs.Keys - {ROOT_INODE}
      requires forall i | i in paths :: Known(TheView(), before, issued, i, attrs[i], paths[i])
      requires before.world == h.store.world && before.refs == refs && before.resident <= h.store.resident
      requires issued <= allocator.issued
      ensures Remembered()
    {
      hide Known;
      forall i | i in paths ensures Known(TheView(), Now(), allocator.issued, i, attrs[i], paths[i]) {
        KnownStays(TheView(), before, Now(), issued, allocator.issued, i, attrs[i], paths[i]);
      }
    }

    /** Answer with the entry's attributes and keep its snapshot, unless one is kept already. */
    method Remember(e: ResolvedEntry, path: string, ghost cs: seq<string>, ghost me: nat)
      returns (r: Result<Attr, FsError>, ghost fetch: Hydration)
      requires Valid() && h.Unclaimed(me)
      requires cs != [] && (forall c | c in cs :: ValidName(c)) && path == Join(cs)
      requires LookupOf(Now(), overlay, projection, path) == Ok(e)
      modifies Footprint()
      ensures Valid() && h.Unclaimed(me) && Kept()
      ensures HeaderRead(e, fetch, old(h.store.resident), h.store.resident, old(h.Sent(me)), h.Sent(me))
      ensures match r
        case Err(x) => x == Io && fetch.Failed()
        case Ok(attr) =>
          !fetch.Failed() && Describes(TheView(), h.store.world, attr, e, path) && Shows(h.store.world, h.Honest(), attr, e)
      ensures r.Ok? ==> r.value.inode in attrs && IsFaithful(r.value)
      ensures r.Ok? && r.value.inode !in old(attrs) ==> GetAttr(r.value.inode) == Ok(r.value)
    {
      hide LookupOf, InodeOf, Join, HydratingStore.Valid, InodeAllocator.Valid, HydratingStore.Unclaimed, Known, Describes, Shows, IsFaithful, HeaderRead;
      ghost var before := Now();
      var inode, made;
      inode, made, fetch := SnapshotFor(e, path, me);
      if made.Err? {
        return Err(made.error), fetch;
      }
      var snap := made.value;
      SnapshotIsKnown(TheView(), before, Now(), allocator.issued, inode, snap, cs, e);
      r := Ok(AttrOf(inode, snap));
      Keep(inode, snap, cs, me);
    }

    /** The first snapshot of an inode is kept. */
    method Keep(inode: nat, snap: Snap, ghost cs: seq<string>, ghost me: nat)
      requires Valid() && h.Unclaimed(me) && inode != ROOT_INODE
      requires Known(TheView(), Now(), allocator.issued, inode, snap, cs)
      modifies this`attrs, this`paths
      ensures Valid() && h.Unclaimed(me) && h.Sent(me) == old(h.Sent(me))
      ensures attrs == if inode in old(attrs) then old(attrs) else old(attrs)[inode := snap]
      ensures paths == if inode in old(attrs) then old(paths) else old(paths)[inode := cs]
      ensures IsFaithful(AttrOf(inode, snap))
    {
      hide LookupOf, InodeOf, Join, HydratingStore.Valid, InodeAllocator.Valid, HydratingStore.Unclaimed, Known;
      if inode !in attrs {
        attrs := attrs[inode := snap];
        paths := paths[inode := cs];
      } else if allocator.CollisionFree() {
        SameInodeSameSnap(TheView(), Now(), allocator.issued, inode, attrs[inode], paths[inode], snap, cs);
      }
    }

    // ----------------------------------------------------------------- readdir

    /** `readdir`. Everything is listed at offset zero and nothing at any other; no snapshot
        is kept and no header is read. `posted` is what the prefetch worker is told. */
    method Readdir(inode: nat, offset: nat, ghost me: nat)
      returns (r: Result<seq<DirEntry>, FsError>, posted: seq<Oid>, ghost fetch: Hydration)
      requires Valid() && h.Unclaimed(me)
      modifies Footprint()
      ensures Valid() && h.Unclaimed(me) && Kept() && attrs == old(attrs) && paths == old(paths)
      ensures offset > 0 ==> r == Ok([]) && posted == []
      ensures offset == 0 && inode !in attrs ==> r == Err(NoEntry)
      ensures offset == 0 && inode in attrs ==> Listed(Now(), inode, attrs[inode], r, posted)
      ensures offset == 0 && inode in attrs ==>
        match attrs[inode]
        case GitlinkSnap => r == Ok([]) && posted == []
        case TreeFile(_, _, _) => r == Err(NotDirectory)
        case TreeSymlink(_, _) => r == Err(NotDirectory)
        case SyntheticFile(_, _) => r == Err(NotDirectory)
        case SyntheticSymlink(_) => r == Err(NotDirectory)
        case _ => true
      ensures offset > 0 || inode !in attrs ==> fetch.NotNeeded? && h.Sent(me) == old(h.Sent(me))
      ensures offset == 0 && inode in attrs ==>
        DirectoryRead(attrs[inode], fetch, old(h.store.resident), h.store.resident, old(h.Sent(me)), h.Sent(me))
        && (r.Err? <==> fetch.Failed() || ListingOf(Now(), overlay, projection, attrs[inode]).Err?)
      ensures offset == 0 && inode in attrs && old(ListingOf(Now(), overlay, projection, attrs[inode])).Ok? ==> r.Ok?
    {
      hide LookupOf, InodeOf, Join, HydratingStore.Valid, InodeAllocator.Valid, HydratingStore.Unclaimed, Remembered, RootListing,
           TreeOf, Unshadowed, OverlayPairs, DirEntries, Harvest, Listed, ListingOf, DirectoryRead;
      fetch := NotNeeded;
      posted := [];
      if offset > 0 {
        return Ok([]), [], NotNeeded;
      }
      if inode !in attrs {
        return Err(NoEntry), [], NotNeeded;
      }
      var snap := attrs[inode];
      DirectoryIsItsPath(inode);
      var listing;
      listing, fetch := Listing(snap, me);
      ListableKinds(Now(), snap);
      NoEntries(allocator.hashes, PathOf(snap));
      if listing.Err? {
        ListingFailed(Now(), inode, snap, listing.error);
        return Err(listing.error), [], fetch;
      }
      var entries, blobs := Emit(PathOf(snap), listing.value, me);
      posted := if snap.RootSnap? || snap.TreeDir? then blobs else [];
      ListingWorked(Now(), inode, snap, PathOf(snap), listing.value, entries, posted);
      r := Ok(entries);
    }

    /** Whether a directory had to be fetched: only directories of the tree ever are. */
    ghost predicate DirectoryRead(
        snap: Snap, fetch: Hydration, before: set<Oid>, now: set<Oid>, sent: seq<Event>, sentNow: seq<Event>)
    {
      if snap.TreeDir? then Hydrated(h.backend, snap.tree, fetch, before, now, sent, sentNow)
      else fetch.NotNeeded? && sentNow == sent
    }

    /** What a listing must be: each pair of the directory numbered, typed and named. */
    ghost predicate Listed(s: Snapshot, inode: nat, snap: Snap, r: Result<seq<DirEntry>, FsError>, posted: seq<Oid>)
      reads this
    {
      match (r, ListingOf(s, overlay, projection, snap))
      case (Ok(entries), Ok(pairs)) =>
        && entries == DirEntries(allocator.hashes, Join(DirOf(inode)), pairs)
        && posted == (if snap.RootSnap? || snap.TreeDir? then Harvest(pairs) else [])
      case (Err(x), listing) => (listing == Err(x) || snap.TreeDir?) && (snap.TreeDir? ==> x == Io)
      case _ => false
    }

    lemma ListableKinds(s: Snapshot, snap: Snap)
      ensures ListingOf(s, overlay, projection, snap).Ok? ==> snap.RootSnap? || snap.TreeDir? || snap.SyntheticDir? || snap.GitlinkSnap?
      ensures snap.GitlinkSnap? ==> ListingOf(s, overlay, projection, snap) == Ok([])
      ensures snap.TreeFile? || snap.TreeSymlink? || snap.SyntheticFile? || snap.SyntheticSymlink? ==>
        ListingOf(s, overlay, projection, snap) == Err(NotDirectory)
    {
    }

    /** `getattr` of the root, which is never looked up, and of a number never given out. */
    lemma RootIsShown(inode: nat)
      requires Valid()
      ensures GetAttr(ROOT_INODE) == Ok(Attr(1, DirectoryType, 0, 493))
      ensures inode != ROOT_INODE && inode !in attrs ==> GetAttr(inode) == Err(NoEntry)
    {
    }

    lemma ListingFailed(s: Snapshot, inode: nat, snap: Snap, x: FsError)
      requires if snap.TreeDir? then x == Io else ListingOf(s, overlay, projection, snap) == Err(x)
      ensures Listed(s, inode, snap, Err(x), [])
    {
    }

    lemma ListingWorked(s: Snapshot, inode: nat, snap: Snap, dir: string, pairs: Pairs, entries: seq<DirEntry>, posted: seq<Oid>)
      requires ListingOf(s, overlay, projection, snap) == Ok(pairs)
      requires dir == Join(DirOf(inode)) || snap.GitlinkSnap?
      requires entries == DirEntries(allocator.hashes, dir, pairs)
      requires posted == (if snap.RootSnap? || snap.TreeDir? then Harvest(pairs) else [])
      ensures Listed(s, inode, snap, Ok(entries), posted)
    {
      hide InodeOf, Join, Harvest, RootListing, Unshadowed, OverlayPairs, TreeOf;
    }

    /** The pairs of a directory; a tree is fetched if need be, except at the root, which is
        read from the local store. */
    method Listing(snap: Snap, ghost me: nat) returns (r: Result<Pairs, FsError>, ghost fetch: Hydration)
      requires Valid() && h.Unclaimed(me)
      modifies Footprint()
      ensures Valid() && h.Unclaimed(me) && Kept() && attrs == old(attrs) && paths == old(paths)
      ensures DirectoryRead(snap, fetch, old(h.store.resident), h.store.resident, old(h.Sent(me)), h.Sent(me))
      ensures r.Err? <==> fetch.Failed() || ListingOf(Now(), overlay, projection, snap).Err?
      ensures r.Ok? ==> ListingOf(Now(), overlay, projection, snap) == r
      ensures r.Err? ==> if snap.TreeDir? then r.error == Io else ListingOf(Now(), overlay, projection, snap) == r
      ensures r.Err? ==> old(ListingOf(Now(), overlay, projection, snap)).Err?
    {
      hide ListingOf, LookupOf, InodeOf, Known, HydratingStore.Valid, InodeAllocator.Valid, HydratingStore.Unclaimed, Valid, Hydrated;
      fetch := NotNeeded;
      match snap {
        case RootSnap => r := ListRoot(me);
        case TreeDir(tree, path) => r, fetch := ListTree(tree, path, me);
        case _ => r := ListInMemory(snap);
      }
    }

    method ListInMemory(snap: Snap) returns (r: Result<Pairs, FsError>)
      requires !snap.RootSnap? && !snap.TreeDir?
      ensures r == ListingOf(Now(), overlay, projection, snap)
    {
      match snap {
        case SyntheticDir(children, _) =>
          var pairs := ListOverlay(children);
          r := Ok(pairs);
        case GitlinkSnap => r := Ok([]);
        case _ => r := Err(NotDirectory);
      }
    }

    method ListRoot(ghost me: nat) returns (r: Result<Pairs, FsError>)
      requires Valid() && h.Unclaimed(me)
      modifies h.store.treeCache
      ensures Valid() && h.Unclaimed(me) && Kept() && attrs == old(attrs) && paths == old(paths)
      ensures r == ListingOf(Now(), overlay, projection, RootSnap)
      ensures Now() == old(Now()) && h.Sent(me) == old(h.Sent(me))
    {
      hide LookupOf, InodeOf, Known, InodeAllocator.Valid, ObjectStore.Valid, ObjectStore.HeadersResident, ObjectStore.HeadersTrue,
           RootListing;
      var pairs := ReadRoot(h.store, refs, overlay, projection);
      r := if pairs.Ok? then Ok(pairs.value) else Err(ToFs(pairs.error));
    }

    method ListTree(tree: Oid, path: string, ghost me: nat) returns (r: Result<Pairs, FsError>, ghost fetch: Hydration)
      requires Valid() && h.Unclaimed(me)
      modifies Footprint()
      ensures Valid() && h.Unclaimed(me) && Kept() && attrs == old(attrs) && paths == old(paths)
      ensures Hydrated(h.backend, tree, fetch, old(h.store.resident), h.store.resident, old(h.Sent(me)), h.Sent(me))
      ensures r.Err? <==> fetch.Failed() || ListingOf(Now(), overlay, projection, TreeDir(tree, path)).Err?
      ensures r.Ok? ==> ListingOf(Now(), overlay, projection, TreeDir(tree, path)) == r
      ensures r.Err? ==> r.error == Io && old(ListingOf(Now(), overlay, projection, TreeDir(tree, path))).Err?
    {
      hide LookupOf, InodeOf, HydratingStore.Valid, InodeAllocator.Valid, HydratingStore.Unclaimed, TreeOf, Unshadowed, Known, HydrationOk, SentFor;
      ghost var before := Now();
      var entries;
      entries, fetch := h.ReadTree(tree, me);
      StillRemembered(before, allocator.issued);
      if entries.Err? {
        TreeNotRead(before, Now(), tree, entries.error);
        return Err(Io), fetch;
      }
      var pairs := ListUnshadowed(map[], entries.value);
      r := Ok(pairs);
    }

    /** The path a directory's snapshot carries is the spelling of its components. */
    lemma DirectoryIsItsPath(inode: nat)
      requires Valid() && inode in attrs
      ensures attrs[inode].TreeDir? || attrs[inode].SyntheticDir? || attrs[inode].RootSnap? ==> PathOf(attrs[inode]) == Join(DirOf(inode))
      ensures attrs[inode].RootSnap? <==> inode == ROOT_INODE
      ensures inode == ROOT_INODE ==> DirOf(inode) == []
    {
      hide LookupOf, InodeOf, HydratingStore.Valid, InodeAllocator.Valid;
      if inode != ROOT_INODE {
        assert Known(TheView(), Now(), allocator.issued, inode, attrs[inode], paths[inode]);
      }
    }

    /** Give an entry its number; what is remembered stays so. */
    method Number(e: ResolvedEntry, path: string, ghost me: nat) returns (inode: nat)
      requires Valid() && h.Unclaimed(me)
      modifies allocator
      ensures Valid() && h.Unclaimed(me) && old(allocator.issued) <= allocator.issued
      ensures h.Sent(me) == old(h.Sent(me))
      ensures inode == InodeOf(allocator.hashes, IdOf(e, path))
    {
      hide LookupOf, InodeOf, HydratingStore.Valid, InodeAllocator.Valid, HydratingStore.Unclaimed, Known;
      ghost var issued := allocator.issued;
      inode := allocator.Issue(IdOf(e, path));
      StillRemembered(Now(), issued);
    }

    /** Number, name and type each pair, in order. */
    method Emit(dir: string, pairs: Pairs, ghost me: nat) returns (out: seq<DirEntry>, blobs: seq<Oid>)
      requires Valid() && h.Unclaimed(me)
      modifies allocator
      ensures h.Sent(me) == old(h.Sent(me))
      ensures Valid() && h.Unclaimed(me) && old(allocator.issued) <= allocator.issued
      ensures out == DirEntries(allocator.hashes, dir, pairs) && blobs == Harvest(pairs)
    {
      hide InodeOf, HydratingStore.Unclaimed, Valid;
      out, blobs := [], [];
      for i := 0 to |pairs|
        invariant h.Sent(me) == old(h.Sent(me))
        invariant Valid() && h.Unclaimed(me) && old(allocator.issued) <= allocator.issued
        invariant out == DirEntries(allocator.hashes, dir, pairs[..i]) && blobs == Harvest(pairs[..i])
      {
        var (name, e) := pairs[i];
        assert pairs[..i + 1][..i] == pairs[..i];
        if NeedsHeader(e) {
          blobs := blobs + [e.entry.oid];
        }
        var child := Number(e, Extend(dir, name), me);
        out := out + [DirEntry(child, name, KindOf(e))];
      }
      assert pairs[..|pairs|] == pairs;
    }

    /** The names of the tree a directory lists are distinct, as git writes them. */
    ghost predicate DistinctInside(s: Snapshot, snap: Snap)
      reads {}
    {
      match snap
      case RootSnap =>
        RootTreeOf(s, projection).Ok? && TreeOf(s.world, s.resident, RootTreeOf(s, projection).value).Ok? ==>
          DistinctNames(TreeOf(s.world, s.resident, RootTreeOf(s, projection).value).value)
      case TreeDir(tree, _) =>
        TreeOf(s.world, s.resident, tree).Ok? ==> DistinctNames(TreeOf(s.world, s.resident, tree).value)
      case _ => true
    }

    /** What the directory is once a `readdir` has fetched it. */
    ghost function AfterFetch(inode: nat): Snapshot
      requires inode in attrs
      reads this, h.store
    {
      Fetched(Now(), attrs[inode])
    }

    /** In a directory that is local, the listing has a pair exactly when looking the name up
        finds that entry; in one that is not, every lookup fails in the store. */
    lemma ListedIffFound(inode: nat, pairs: Pairs, name: string, e: ResolvedEntry)
      requires Valid() && ValidName(name) && inode in attrs && ParentPath(inode).Ok?
      requires ListingOf(AfterFetch(inode), overlay, projection, attrs[inode]) == Ok(pairs)
      requires DistinctInside(AfterFetch(inode), attrs[inode])
      ensures Local(Now(), attrs[inode]) ==> ((name, e) in pairs <==> ChildOf(inode, name) == Ok(e))
      ensures !Local(Now(), attrs[inode]) ==> ChildOf(inode, name) == Err(ProjectionStore(MissingObject(attrs[inode].tree)))
    {
      hide LookupOf, InodeOf, HydratingStore.Valid, InodeAllocator.Valid, TreeOf, RootTreeOf, Unshadowed, OverlayPairs, Known;
      DirectoryIsItsPath(inode);
      var cs := DirOf(inode);
      match attrs[inode] {
        case RootSnap =>
          assert cs + [name] == [name];
          RootAgrees(Now(), overlay, projection, pairs, name, e);
        case TreeDir(tree, _) =>
          KnownDirectory(TheView(), Now(), allocator.issued, inode, attrs[inode], cs);
          var dir := LookupOf(Now(), overlay, projection, Join(cs)).value;
          FetchedTree(Now(), tree);
          if tree in h.store.resident {
            TreeAgrees(Now(), overlay, projection, cs, dir.entry, TreeOf(h.store.world, h.store.resident, tree).value, name, e);
          } else {
            UnfetchedHidesAll(Now(), overlay, projection, cs, dir.entry, name);
          }
        case SyntheticDir(children, _) =>
          KnownDirectory(TheView(), Now(), allocator.issued, inode, attrs[inode], cs);
          var dir := LookupOf(Now(), overlay, projection, Join(cs)).value;
          SyntheticAgrees(Now(), overlay, projection, cs, dir.name, children, name, e);
      }
    }

    /** The entries of a listing and a lookup of one name say the same: the lookup finds
        something exactly when the name is listed, and it is then listed with the very
        inode and kind `Lookup` answers with. */
    ghost predicate SameAnswer(inode: nat, entries: seq<DirEntry>, name: string)
      reads this, h.store
    {
      && (ChildOf(inode, name).Ok? <==> exists i :: 0 <= i < |entries| && entries[i].name == name)
      && forall i | 0 <= i < |entries| && entries[i].name == name ::
           && ChildOf(inode, name).Ok?
           && var e := ChildOf(inode, name).value;
              entries[i] == DirEntry(InodeOf(allocator.hashes, IdOf(e, Join(DirOf(inode) + [name]))), name, KindOf(e))
    }

    /** Lookup, readdir and getattr agree, for any known directory, on a name that the
        directory lists once fetched, if and only if the directory is local: lookups never
        fetch a directory, `readdir` does. On a local directory they agree on every name. */
    lemma LookupAgreesWithReaddir(inode: nat, pairs: Pairs, name: string)
      requires Valid() && ValidName(name) && inode in attrs && ParentPath(inode).Ok?
      requires ListingOf(AfterFetch(inode), overlay, projection, attrs[inode]) == Ok(pairs)
      requires DistinctInside(AfterFetch(inode), attrs[inode])
      ensures var entries := DirEntries(allocator.hashes, Join(DirOf(inode)), pairs);
        && (Local(Now(), attrs[inode]) ==> SameAnswer(inode, entries, name))
        && ((exists i :: 0 <= i < |entries| && entries[i].name == name) ==>
              (SameAnswer(inode, entries, name) <==> Local(Now(), attrs[inode])))
    {
      hide LookupOf, InodeOf, HydratingStore.Valid, InodeAllocator.Valid, TreeOf, RootTreeOf, ListingOf, Join, KindOf, IdOf, Fetched,
           DistinctInside;
      ParentIsItsPath(inode);
      FullIsJoin(DirOf(inode), name);
      var entries := DirEntries(allocator.hashes, Join(DirOf(inode)), pairs);
      if ChildOf(inode, name).Ok? {
        var e := ChildOf(inode, name).value;
        ListedIffFound(inode, pairs, name, e);
        var i :| 0 <= i < |pairs| && pairs[i] == (name, e);
        assert entries[i].name == name;
      }
      forall i | 0 <= i < |entries| && entries[i].name == name
        ensures if Local(Now(), attrs[inode]) then ChildOf(inode, name) == Ok(pairs[i].1) else ChildOf(inode, name).Err?
      {
        assert pairs[i] == (name, pairs[i].1) && pairs[i] in pairs;
        ListedIffFound(inode, pairs, name, pairs[i].1);
      }
    }

    /** And so, once `readdir` has answered with a listing, made when the database was `s`,
        lookups agree with it on every name, however the database has grown since. */
    lemma AgreesAfterReaddir(s: Snapshot, inode: nat, entries: seq<DirEntry>, posted: seq<Oid>, name: string)
      requires Valid() && ValidName(name) && inode in attrs && ParentPath(inode).Ok?
      requires s.world == h.store.world && s.refs == refs && s.resident <= h.store.resident
      requires Listed(s, inode, attrs[inode], Ok(entries), posted)
      requires DistinctInside(s, attrs[inode])
      ensures Local(Now(), attrs[inode]) && SameAnswer(inode, entries, name)
    {
      hide LookupOf, InodeOf, HydratingStore.Valid, InodeAllocator.Valid, TreeOf, RootTreeOf, Join, RootListing, Unshadowed, OverlayPairs,
           SameAnswer, Remembered;
      var pairs := ListingOf(s, overlay, projection, attrs[inode]).value;
      ListingIsStable(s, Now(), overlay, projection, attrs[inode]);
      DistinctIsStable(s, Now(), attrs[inode]);
      ListedIsLocal(Now(), attrs[inode]);
      LookupAgreesWithReaddir(inode, pairs, name);
    }

    lemma DistinctIsStable(s: Snapshot, t: Snapshot, snap: Snap)
      requires s.world == t.world && s.refs == t.refs && s.resident <= t.resident
      requires ListingOf(s, overlay, projection, snap).Ok? && DistinctInside(s, snap)
      ensures DistinctInside(t, snap)
    {
      hide TreeOf, RootTreeOf, Unshadowed, OverlayPairs;
      match snap
      case RootSnap =>
        RootIsStable(s, t, projection);
        AnswersAreStable(s.world, s.resident, t.resident, RootTreeOf(s, projection).value);
      case TreeDir(tree, _) => AnswersAreStable(s.world, s.resident, t.resident, tree);
      case _ =>
    }

    /** Nothing the provider does later takes that listing back. */
    twostate lemma ListedLasts(s: Snapshot, inode: nat, entries: seq<DirEntry>, posted: seq<Oid>)
      requires old(Valid()) && Valid() && Kept() && inode in old(attrs)
      requires old(Listed(s, inode, attrs[inode], Ok(entries), posted))
      ensures inode in attrs && Listed(s, inode, attrs[inode], Ok(entries), posted)
    {
      hide LookupOf, InodeOf, HydratingStore.Valid, InodeAllocator.Valid, ListingOf, DirEntries, Harvest, Known;
    }

    /** A directory that lists is local, and fetching it changes nothing. */
    lemma ListedIsLocal(s: Snapshot, snap: Snap)
      requires ListingOf(s, overlay, projection, snap).Ok?
      ensures Local(s, snap) && Fetched(s, snap) == s
    {
      hide RootListing, Unshadowed, OverlayPairs;
      if snap.TreeDir? {
        FetchedTree(s, snap.tree);
        assert s.resident + {snap.tree} == s.resident;
      }
    }

    /** A directory that cannot be listed even after a fetch: nothing in it is found, except
        overlay entries at a root whose tree cannot be read. */
    lemma UnlistedIsNotFound(inode: nat, name: string)
      requires Valid() && ValidName(name) && inode in attrs && ParentPath(inode).Ok?
      requires ListingOf(AfterFetch(inode), overlay, projection, attrs[inode]).Err?
      ensures ChildOf(inode, name).Ok? <==> inode == ROOT_INODE && name in overlay
    {
      hide LookupOf, InodeOf, HydratingStore.Valid, InodeAllocator.Valid, TreeOf, RootTreeOf, Unshadowed, OverlayPairs, Known, RootListing;
      DirectoryIsItsPath(inode);
      var cs := DirOf(inode);
      match attrs[inode] {
        case RootSnap =>
          assert cs + [name] == [name];
          RootUnlisted(Now(), overlay, projection, name);
        case TreeDir(tree, _) =>
          KnownDirectory(TheView(), Now(), allocator.issued, inode, attrs[inode], cs);
          var dir := LookupOf(Now(), overlay, projection, Join(cs)).value;
          FetchedTree(Now(), tree);
          UnfetchedHidesAll(Now(), overlay, projection, cs, dir.entry, name);
        case SyntheticDir(_, _) =>
      }
    }

    // ------------------------------------------------------------------- reads

    /** `read`: a slice of the blob, fetched if need be, or of a synthetic file. */
    method Read(inode: nat, offset: nat, size: nat, ghost me: nat) returns (r: Result<seq<Byte>, FsError>, ghost fetch: Hydration)
      requires Valid() && h.Unclaimed(me)
      modifies Footprint()
      ensures Valid() && h.Unclaimed(me) && Kept() && attrs == old(attrs) && paths == old(paths)
      ensures match GetSnap(inode)
        case Some(TreeFile(oid, _, _)) =>
          && Hydrated(h.backend, oid, fetch, old(h.store.resident), h.store.resident, old(h.Sent(me)), h.Sent(me))
          && (r.Err? <==> fetch.Failed() || BlobOf(h.store.world, h.store.resident, oid).Err?)
        case _ => fetch.NotNeeded? && h.Sent(me) == old(h.Sent(me))
      ensures match GetSnap(inode)
        case None => r == Err(NoEntry)
        case Some(TreeFile(oid, _, _)) =>
          (match r
           case Ok(piece) =>
             var blob := BlobOf(h.store.world, h.store.resident, oid);
             blob.Ok? && piece == Chunks.Slice(blob.value, offset, size)
           case Err(x) => x == Io && old(BlobOf(h.store.world, h.store.resident, oid)).Err?)
        case Some(SyntheticFile(content, _)) => r == Ok(Chunks.Slice(BytesOf(content), offset, size))
        case Some(_) => r == Err(NotFile)
    {
      hide LookupOf, InodeOf, HydratingStore.Valid, InodeAllocator.Valid, HydratingStore.Unclaimed, Known, BlobOf, Hydrated;
      fetch := NotNeeded;
      if inode !in attrs {
        return Err(NoEntry), NotNeeded;
      }
      match attrs[inode] {
        case TreeFile(oid, _, _) =>
          var blob;
          blob, fetch := ReadWholeBlob(oid, me);
          r := if blob.Ok? then Ok(Chunks.Slice(blob.value, offset, size)) else Err(blob.error);
        case SyntheticFile(content, _) => r := Ok(Chunks.Slice(BytesOf(content), offset, size));
        case _ => r := Err(NotFile);
      }
    }

    /** `readlink`: the whole blob is the target. */
    method Readlink(inode: nat, ghost me: nat) returns (r: Result<seq<Byte>, FsError>, ghost fetch: Hydration)
      requires Valid() && h.Unclaimed(me)
      modifies Footprint()
      ensures Valid() && h.Unclaimed(me) && Kept() && attrs == old(attrs) && paths == old(paths)
      ensures match GetSnap(inode)
        case Some(TreeSymlink(oid, _)) =>
          && Hydrated(h.backend, oid, fetch, old(h.store.resident), h.store.resident, old(h.Sent(me)), h.Sent(me))
          && (r.Err? <==> fetch.Failed() || BlobOf(h.store.world, h.store.resident, oid).Err?)
        case _ => fetch.NotNeeded? && h.Sent(me) == old(h.Sent(me))
      ensures match GetSnap(inode)
        case None => r == Err(NoEntry)
        case Some(TreeSymlink(oid, _)) =>
          (match r
           case Ok(target) => BlobOf(h.store.world, h.store.resident, oid) == Ok(target)
           case Err(x) => x == Io && old(BlobOf(h.store.world, h.store.resident, oid)).Err?)
        case Some(SyntheticSymlink(target)) => r == Ok(BytesOf(target))
        case Some(_) => r == Err(NotSymlink)
    {
      hide LookupOf, InodeOf, HydratingStore.Valid, InodeAllocator.Valid, HydratingStore.Unclaimed, Known, BlobOf, Hydrated;
      fetch := NotNeeded;
      if inode !in attrs {
        return Err(NoEntry), NotNeeded;
      }
      match attrs[inode] {
        case TreeSymlink(oid, _) => r, fetch := ReadWholeBlob(oid, me);
        case SyntheticSymlink(target) => r := Ok(BytesOf(target));
        case _ => r := Err(NotSymlink);
      }
    }

    function GetSnap(inode: nat): Option<Snap>
      reads this
    {
      if inode in attrs then Some(attrs[inode]) else None
    }

    method ReadWholeBlob(oid: Oid, ghost me: nat) returns (r: Result<seq<Byte>, FsError>, ghost fetch: Hydration)
      requires Valid() && h.Unclaimed(me)
      modifies Footprint()
      ensures Valid() && h.Unclaimed(me) && Kept() && attrs == old(attrs) && paths == old(paths)
      ensures Hydrated(h.backend, oid, fetch, old(h.store.resident), h.store.resident, old(h.Sent(me)), h.Sent(me))
      ensures r.Err? <==> fetch.Failed() || BlobOf(h.store.world, h.store.resident, oid).Err?
      ensures match r
        case Ok(bytes) => BlobOf(h.store.world, h.store.resident, oid) == Ok(bytes)
        case Err(x) => x == Io && old(BlobOf(h.store.world, h.store.resident, oid)).Err?
    {
      hide LookupOf, InodeOf, HydratingStore.Valid, InodeAllocator.Valid, HydratingStore.Unclaimed, Known, HydrationOk, SentFor;
      ghost var before := Now();
      var blob;
      blob, fetch := h.ReadBlob(oid, me);
      StillRemembered(before, allocator.issued);
      if blob.Err? {
        BlobNotRead(before, Now(), oid, blob.error);
      }
      r := if blob.Ok? then Ok(blob.value) else Err(Io);
    }

    /** Without a collision so far, and with truthful headers, what was answered is what is
        remembered. */
    ghost predicate IsFaithful(attr: Attr)
      reads Footprint()
    {
      allocator.CollisionFree() && h.Honest() ==> GetAttr(attr.inode) == Ok(attr)
    }
  }

  lemma NoEntries(h: Hashes, dir: string)
    ensures DirEntries(h, dir, []) == []
  {
  }

  function PathOf(snap: Snap): string {
    if snap.TreeDir? || snap.SyntheticDir? then snap.path else ""
  }

  /** A remembered directory's path resolves to that directory. */
  lemma KnownDirectory(v: View, s: Snapshot, issued: set<InodeKind>, i: nat, snap: Snap, cs: seq<string>)
    requires Known(v, s, issued, i, snap, cs)
    ensures cs != [] && (forall c | c in cs :: ValidName(c))
    ensures var r := LookupOf(s, v.overlay, v.projection, Join(cs));
      && r.Ok?
      && (snap.TreeDir? ==> r.value.OnTree? && r.value.entry.mode.DirectoryMode? && r.value.entry.oid == snap.tree)
      && (snap.SyntheticDir? ==> r.value.OnOverlay? && r.value.synthetic == Directory(snap.children))
  {
    hide LookupOf, InodeOf, Join;
  }

  /** A synthetic file's text as bytes, one character each. */
  function BytesOf(text: string): seq<Byte> {
    seq(|text|, i requires 0 <= i < |text| => (text[i] as int % 256) as Byte)
  }

  /** A tree that could not be read, fetched or not, was not readable to begin with. */
  lemma TreeNotRead(before: Snapshot, after: Snapshot, tree: Oid, e: HydrateError)
    requires before.world == after.world && before.resident <= after.resident
    requires e.InStore? ==> TreeOf(after.world, after.resident, tree) == Err(e.store)
    requires e.InFetcher? ==> tree !in before.resident
    ensures TreeOf(before.world, before.resident, tree).Err?
  {
  }

  lemma BlobNotRead(before: Snapshot, after: Snapshot, oid: Oid, e: HydrateError)
    requires before.world == after.world && before.resident <= after.resident
    requires e.InStore? ==> BlobOf(after.world, after.resident, oid) == Err(e.store)
    requires e.InFetcher? ==> oid !in before.resident
    ensures BlobOf(before.world, before.resident, oid).Err?
  {
  }

  lemma MakesKnown(v: View, s: Snapshot, issued: set<InodeKind>, i: nat, snap: Snap, cs: seq<string>, e: ResolvedEntry)
    requires cs != [] && (forall c | c in cs :: ValidName(c))
    requires LookupOf(s, v.overlay, v.projection, Join(cs)) == Ok(e)
    requires IdOf(e, Join(cs)) in issued && InodeOf(v.hashes, IdOf(e, Join(cs))) == i
    requires exists size :: snap == SnapOf(e, Join(cs), size)
    requires v.honest ==> snap == SnapOf(e, Join(cs), TrueSize(s.world, e))
    ensures Known(v, s, issued, i, snap, cs)
    ensures Describes(v, s.world, AttrOf(i, snap), e, Join(cs))
  {
    hide LookupOf, InodeOf, Join;
  }

  lemma SnapshotIsKnown(
      v: View, before: Snapshot, now: Snapshot, issued: set<InodeKind>, i: nat, snap: Snap, cs: seq<string>, e: ResolvedEntry)
    requires before.world == now.world && before.refs == now.refs && before.resident <= now.resident
    requires cs != [] && (forall c | c in cs :: ValidName(c))
    requires LookupOf(before, v.overlay, v.projection, Join(cs)) == Ok(e)
    requires IdOf(e, Join(cs)) in issued && InodeOf(v.hashes, IdOf(e, Join(cs))) == i
    requires exists size :: snap == SnapOf(e, Join(cs), size)
    requires v.honest ==> snap == SnapOf(e, Join(cs), TrueSize(now.world, e))
    requires NeedsHeader(e) && v.honest ==> e.entry.oid in now.world
    ensures i != ROOT_INODE && Known(v, now, issued, i, snap, cs)
    ensures Describes(v, now.world, AttrOf(i, snap), e, Join(cs)) && Shows(now.world, v.honest, AttrOf(i, snap), e)
  {
    hide LookupOf, InodeOf, Join, SnapOf, Known, Describes;
    LookupIsStable(before, now, v.overlay, v.projection, Join(cs));
    MakesKnown(v, now, issued, i, snap, cs, e);
    NamespacesAreDisjoint(v.hashes, IdOf(e, Join(cs)));
    DescribedIsShown(v, now.world, AttrOf(i, snap), e, Join(cs));
  }

  lemma HeaderIsSize(world: World, resident: set<Oid>, oid: Oid, header: Git.Header)
    ensures HeaderOf(world, resident, oid) == Ok(header) ==> oid in world && world[oid].Size() == header.size
  {
  }

  lemma FullIsJoin(dir: seq<string>, name: string)
    requires (forall c | c in dir :: ValidName(c)) && ValidName(name)
    ensures Join(dir + [name]) == if Join(dir) == "" then name else Join(dir) + "/" + name
    ensures forall c | c in dir + [name] :: ValidName(c)
  {
    if dir == [] {
      assert dir + [name] == [name];
    } else {
      ChildPath(dir, name);
    }
  }
}
