/** What the filesystem layer hands out, as functions of what a path resolves to. */
module FsTypes {
  import opened Git
  import opened Paths
  import opened TreeWalk
  import opened Overlay
  import opened Projection
  import opened Inodes
  import opened ObjectStore

  datatype FileType = RegularFileType | DirectoryType | SymlinkType

  datatype Attr = Attr(inode: nat, kind: FileType, size: nat, perm: nat)

  datatype FsError = NoEntry | NotDirectory | NotFile | NotSymlink | Io

  datatype DirEntry = DirEntry(inode: nat, name: string, kind: FileType)

  /** What is remembered of an inode; text is one character a byte. */
  datatype Snap =
    | RootSnap
    | TreeFile(oid: Oid, size: nat, perm: nat)
    | TreeDir(tree: Oid, path: string)
    | TreeSymlink(oid: Oid, size: nat)
    | GitlinkSnap
    | SyntheticFile(content: string, perm: nat)
    | SyntheticDir(children: map<string, SyntheticEntry>, path: string)
    | SyntheticSymlink(target: string)

  const PERM_DIR: nat := 493   // 0o755
  const PERM_EXEC: nat := 493  // 0o755
  const PERM_FILE: nat := 420  // 0o644
  const PERM_LINK: nat := 511  // 0o777

  function KindOf(e: ResolvedEntry): FileType {
    match e
    case OnTree(entry) =>
      (match entry.mode
       case RegularFile => RegularFileType
       case ExecutableFile => RegularFileType
       case DirectoryMode => DirectoryType
       case Gitlink => DirectoryType
       case SymlinkMode => SymlinkType)
    case OnOverlay(_, s) => if s.File? then RegularFileType else if s.Directory? then DirectoryType else SymlinkType
  }

  /** The kind shown for an entry of the tree, by its mode number. */
  lemma KindByNumber(e: RawTreeEntry)
    ensures KindOf(OnTree(FromRaw(e))) ==
      if e.modeRaw == 16384 || e.modeRaw == 57344 then DirectoryType else if e.modeRaw == 40960 then SymlinkType else RegularFileType
  {
    ModesByNumber(e.modeRaw);
  }

  /** The length of an object's content. */
  function ContentLength(obj: Object): nat {
    match obj
    case Blob(bytes) => |bytes|
    case Tree(_, rawSize) => rawSize
    case Commit(_, rawSize) => rawSize
    case Tag(rawSize) => rawSize
  }

  /** What `stat` shows of an entry of the tree, with permissions in decimal: a submodule
      shows as an empty directory. The size needs a truthful header. */
  ghost predicate ShowsTree(world: World, honest: bool, attr: Attr, entry: TreeEntry) {
    match entry.mode
    case RegularFile => attr.kind == RegularFileType && attr.perm == 420 && ShowsSize(world, honest, attr, entry.oid)
    case ExecutableFile => attr.kind == RegularFileType && attr.perm == 493 && ShowsSize(world, honest, attr, entry.oid)
    case SymlinkMode => attr.kind == SymlinkType && attr.perm == 511 && ShowsSize(world, honest, attr, entry.oid)
    case DirectoryMode => attr.kind == DirectoryType && attr.perm == 493 && attr.size == 0
    case Gitlink => attr.kind == DirectoryType && attr.perm == 493 && attr.size == 0
  }

  ghost predicate ShowsSize(world: World, honest: bool, attr: Attr, oid: Oid) {
    honest ==> oid in world && attr.size == ContentLength(world[oid])
  }

  /** The same for an entry of the overlay, whose text is one character a byte. */
  ghost predicate ShowsSynthetic(attr: Attr, entry: SyntheticEntry) {
    match entry
    case File(text, modeRaw) =>
      attr.kind == RegularFileType && attr.size == |text| && attr.perm == (if modeRaw == 33261 then 493 else 420)
    case Directory(_) => attr.kind == DirectoryType && attr.size == 0 && attr.perm == 493
    case Symlink(target) => attr.kind == SymlinkType && attr.size == |target| && attr.perm == 511
  }

  ghost predicate Shows(world: World, honest: bool, attr: Attr, e: ResolvedEntry) {
    match e
    case OnTree(entry) => ShowsTree(world, honest, attr, entry)
    case OnOverlay(_, entry) => ShowsSynthetic(attr, entry)
  }

  function IdOf(e: ResolvedEntry, path: string): InodeKind {
    if e.OnTree? then TreeEntryKind(e.entry.oid, path) else SyntheticKind(path)
  }

  /** Only files and symlinks of the tree need their object's header. */
  predicate NeedsHeader(e: ResolvedEntry) {
    e.OnTree? && (e.entry.mode.RegularFile? || e.entry.mode.ExecutableFile? || e.entry.mode.SymlinkMode?)
  }

  /** The snapshot of an entry, `size` being its header's where it needs one. */
  function SnapOf(e: ResolvedEntry, path: string, size: nat): Snap {
    match e
    case OnTree(entry) =>
      (match entry.mode
       case RegularFile => TreeFile(entry.oid, size, PERM_FILE)
       case ExecutableFile => TreeFile(entry.oid, size, PERM_EXEC)
       case DirectoryMode => TreeDir(entry.oid, path)
       case SymlinkMode => TreeSymlink(entry.oid, size)
       case Gitlink => GitlinkSnap)
    case OnOverlay(_, File(content, modeRaw)) =>
      SyntheticFile(content, if modeRaw == MODE_EXECUTABLE then PERM_EXEC else PERM_FILE)
    case OnOverlay(_, Directory(children)) => SyntheticDir(children, path)
    case OnOverlay(_, Symlink(target)) => SyntheticSymlink(target)
  }

  function AttrOf(inode: nat, s: Snap): Attr {
    match s
    case RootSnap => Attr(inode, DirectoryType, 0, PERM_DIR)
    case TreeFile(_, size, perm) => Attr(inode, RegularFileType, size, perm)
    case TreeDir(_, _) => Attr(inode, DirectoryType, 0, PERM_DIR)
    case TreeSymlink(_, size) => Attr(inode, SymlinkType, size, PERM_LINK)
    case GitlinkSnap => Attr(inode, DirectoryType, 0, PERM_DIR)
    case SyntheticFile(content, perm) => Attr(inode, RegularFileType, |content|, perm)
    case SyntheticDir(_, _) => Attr(inode, DirectoryType, 0, PERM_DIR)
    case SyntheticSymlink(target) => Attr(inode, SymlinkType, |target|, PERM_LINK)
  }

  /** The object's own size, where the entry needs one. */
  function TrueSize(world: World, e: ResolvedEntry): nat {
    if NeedsHeader(e) && e.entry.oid in world then world[e.entry.oid].Size() else 0
  }

  function ToFs(e: ProjectionError): FsError {
    match e
    case NotFound(_, _) => NoEntry
    case NotADirectory(_, _) => NotDirectory
    case InvalidPath(_) => NoEntry
    case ProjectionStore(_) => Io
  }

  // ---------------------------------------------------------- directory listings

  type Pairs = seq<(string, ResolvedEntry)>

  /** What a directory lists. A submodule shows as an empty directory. */
  function ListingOf(s: Snapshot, overlay: RootOverlay, p: Projection, snap: Snap): Result<Pairs, FsError> {
    match snap
    case RootSnap =>
      (match RootListing(s, overlay, p)
       case Err(e) => Err(ToFs(e))
       case Ok(pairs) => Ok(pairs))
    case TreeDir(tree, _) =>
      (match TreeOf(s.world, s.resident, tree)
       case Err(_) => Err(Io)
       case Ok(entries) => Ok(Unshadowed(map[], entries)))
    case SyntheticDir(children, _) => Ok(OverlayPairs(children))
    case GitlinkSnap => Ok([])
    case _ => Err(NotDirectory)
  }

  function DirEntryFor(h: Hashes, dir: string, pair: (string, ResolvedEntry)): DirEntry {
    DirEntry(InodeOf(h, IdOf(pair.1, Extend(dir, pair.0))), pair.0, KindOf(pair.1))
  }

  function DirEntries(h: Hashes, dir: string, pairs: Pairs): seq<DirEntry> {
    seq(|pairs|, i requires 0 <= i < |pairs| => DirEntryFor(h, dir, pairs[i]))
  }

  /** The blobs behind a listing's files and symlinks, in order, for the prefetch worker. */
  function Harvest(pairs: Pairs): seq<Oid> {
    if pairs == [] then [] else
    var n := |pairs| - 1;
    Harvest(pairs[..n]) + if NeedsHeader(pairs[n].1) then [pairs[n].1.entry.oid] else []
  }

  predicate IsBlobEntry(e: ResolvedEntry) {
    match e
    case OnTree(entry) => entry.mode in {RegularFile, ExecutableFile, SymlinkMode}
    case OnOverlay(_, _) => false
  }

  function Blobs(pairs: Pairs): nat {
    if pairs == [] then 0 else
    var n := |pairs| - 1;
    Blobs(pairs[..n]) + if IsBlobEntry(pairs[n].1) then 1 else 0
  }

  /** What is posted for prefetch: one object for every file and symlink of the tree that is
      listed, in the order of the listing, and nothing else. */
  lemma {:induction false} HarvestIsTheBlobs(pairs: Pairs, k: nat)
    ensures |Harvest(pairs)| == Blobs(pairs)
    ensures k < |pairs| && IsBlobEntry(pairs[k].1) ==>
      && Blobs(pairs[..k]) < |Harvest(pairs)|
      && Harvest(pairs)[Blobs(pairs[..k])] == pairs[k].1.entry.oid
  {
    if pairs != [] {
      var n := |pairs| - 1;
      HarvestIsTheBlobs(pairs[..n], k);
      assert k < n ==> pairs[..n][..k] == pairs[..k] && pairs[..n][k] == pairs[k];
    }
  }

  // ------------------------------------------------- a listing is all the lookups

  ghost predicate DistinctNames(entries: seq<RawTreeEntry>) {
    forall i, j | 0 <= i < j < |entries| :: entries[i].name != entries[j].name
  }

  lemma {:induction false} FindIsMember(entries: seq<RawTreeEntry>, raw: RawTreeEntry)
    requires DistinctNames(entries)
    ensures Find(entries, raw.name) == Some(raw) <==> raw in entries
  {
    if entries != [] {
      FindIsMember(entries[1..], raw);
      if raw in entries && entries[0].name == raw.name {
        var i :| 0 <= i < |entries| && entries[i] == raw;
        assert i == 0;
      }
    }
  }

  lemma {:induction false} UnshadowedHas(overlay: RootOverlay, entries: seq<RawTreeEntry>, name: string, e: ResolvedEntry)
    ensures (name, e) in Unshadowed(overlay, entries) <==>
      name !in overlay && exists raw :: raw in entries && raw.name == name && e == OnTree(FromRaw(raw))
  {
    if entries != [] {
      UnshadowedHas(overlay, entries[1..], name, e);
      assert entries == [entries[0]] + entries[1..];
    }
  }

  lemma OverlayPairsHas(overlay: RootOverlay, name: string, e: ResolvedEntry)
    ensures (name, e) in OverlayPairs(overlay) <==> name in overlay && e == OnOverlay(name, overlay[name])
  {
    Names.SortedListsKeys(overlay.Keys);
    var names, pairs := Names.Sorted(overlay.Keys), OverlayPairs(overlay);
    forall i | 0 <= i < |names| ensures names[i] in overlay && pairs[i] == (names[i], OnOverlay(names[i], overlay[names[i]])) {
      assert names[i] in names;
    }
    if name in overlay {
      var i :| 0 <= i < |names| && names[i] == name;
      assert pairs[i] == (name, OnOverlay(name, overlay[name]));
    }
  }

  /** One component inside one tree. */
  lemma OneStep(world: World, resident: set<Oid>, tree: Oid, name: string, entries: seq<RawTreeEntry>, e: TreeEntry)
    requires ValidName(name)
    requires TreeOf(world, resident, tree) == Ok(entries) && DistinctNames(entries)
    ensures Resolve(world, resident, tree, name) == Ok(e) <==>
      exists raw :: raw in entries && raw.name == name && e == FromRaw(raw)
  {
    hide TreeOf;
    PartsOfName(name);
    assert Components(name) == Ok([name]);
    if raw :| raw in entries && raw.name == name {
      FindIsMember(entries, raw);
    }
    var found := Find(entries, name);
    if found.Some? {
      FindIsMember(entries, found.value);
    }
  }

  /** At the root: overlay entries once, and the tree entries they do not shadow. */
  lemma RootAgrees(s: Snapshot, overlay: RootOverlay, p: Projection, pairs: Pairs, name: string, e: ResolvedEntry)
    requires ValidName(name)
    requires RootListing(s, overlay, p) == Ok(pairs)
    requires DistinctNames(TreeOf(s.world, s.resident, RootTreeOf(s, p).value).value)
    ensures (name, e) in pairs <==> LookupOf(s, overlay, p, name) == Ok(e)
  {
    hide TreeOf, RootTreeOf, Unshadowed, OverlayPairs, Find, Resolve;
    var tree := RootTreeOf(s, p).value;
    var entries := TreeOf(s.world, s.resident, tree).value;
    PartsOfName(name);
    OverlayPairsHas(overlay, name, e);
    UnshadowedHas(overlay, entries, name, e);
    if name in overlay {
      assert Parts(name)[1..] == [];
    } else if e.OnTree? {
      OneStep(s.world, s.resident, tree, name, entries, e.entry);
    }
  }

  ghost predicate NamesOnce(pairs: Pairs) {
    forall i, j | 0 <= i < j < |pairs| :: pairs[i].0 != pairs[j].0
  }

  /** A name is listed at most once at the root: shadowed names only as synthetic. */
  lemma {:induction false} RootNamesOnce(s: Snapshot, overlay: RootOverlay, p: Projection, pairs: Pairs)
    requires RootListing(s, overlay, p) == Ok(pairs)
    requires DistinctNames(TreeOf(s.world, s.resident, RootTreeOf(s, p).value).value)
    ensures NamesOnce(pairs)
    ensures forall i | 0 <= i < |pairs| :: pairs[i].0 in overlay <==> pairs[i].1.OnOverlay?
  {
    hide TreeOf, RootTreeOf, OverlayPairs;
    var entries := TreeOf(s.world, s.resident, RootTreeOf(s, p).value).value;
    var synthetic, visible := OverlayPairs(overlay), Unshadowed(overlay, entries);
    SyntheticNamesOnce(overlay);
    VisibleNamesOnce(overlay, entries);
    forall i | 0 <= i < |synthetic| ensures synthetic[i].0 in overlay && synthetic[i].1.OnOverlay? {
      assert (synthetic[i].0, synthetic[i].1) in synthetic;
      OverlayPairsHas(overlay, synthetic[i].0, synthetic[i].1);
    }
    forall i | 0 <= i < |visible| ensures visible[i].0 !in overlay && visible[i].1.OnTree? {
      assert (visible[i].0, visible[i].1) in visible;
      UnshadowedHas(overlay, entries, visible[i].0, visible[i].1);
    }
    assert pairs == synthetic + visible;
    var n := |synthetic|;
    forall i, j | 0 <= i < j < |pairs| ensures pairs[i].0 != pairs[j].0 {
      if j < n {
        assert pairs[i] == synthetic[i] && pairs[j] == synthetic[j];
        assert synthetic[i].0 != synthetic[j].0;
      } else {
        assert pairs[j] == visible[j - n];
        assert i < n ==> pairs[i] == synthetic[i];
        assert n <= i ==> pairs[i] == visible[i - n] && visible[i - n].0 != visible[j - n].0;
      }
    }
  }

  lemma SyntheticNamesOnce(overlay: RootOverlay)
    ensures NamesOnce(OverlayPairs(overlay))
  {
    Names.SortedListsKeys(overlay.Keys);
    var names := Names.Sorted(overlay.Keys);
    forall i, j | 0 <= i < j < |names| ensures names[i] != names[j] {
      Names.LessIrreflexive(names[i]);
    }
  }

  lemma {:induction false} VisibleNamesOnce(overlay: RootOverlay, entries: seq<RawTreeEntry>)
    requires DistinctNames(entries)
    ensures NamesOnce(Unshadowed(overlay, entries))
  {
    if entries != [] {
      VisibleNamesOnce(overlay, entries[1..]);
      var rest := Unshadowed(overlay, entries[1..]);
      forall i | 0 <= i < |rest| ensures rest[i].0 != entries[0].name {
        assert (rest[i].0, rest[i].1) in rest;
        UnshadowedHas(overlay, entries[1..], rest[i].0, rest[i].1);
      }
      var v := Unshadowed(overlay, entries);
      forall i, j | 0 <= i < j < |v| ensures v[i].0 != v[j].0 {
        if entries[0].name !in overlay {
          assert v == [(entries[0].name, OnTree(FromRaw(entries[0])))] + rest;
          assert v[j] == rest[j - 1] && (i > 0 ==> v[i] == rest[i - 1]);
        } else {
          assert v == rest;
        }
      }
    }
  }

  /** What makes a string of components spell a child of a directory. */
  lemma ChildPath(cs: seq<string>, name: string)
    requires cs != [] && (forall c | c in cs :: ValidName(c)) && ValidName(name)
    ensures Join(cs + [name]) == Join(cs) + "/" + name == Extend(Join(cs), name)
    ensures Join(cs) != "" && Parts(Join(cs)) == cs && Parts(Join(cs + [name])) == cs + [name]
    ensures Components(Join(cs)) == Ok(cs) && Components(name) == Ok([name])
  {
    ExtendJoin(cs, name);
    ComponentsOfJoin(cs);
    PartsOfJoin(cs + [name]);
    PartsOfJoin(cs);
    PartsOfName(name);
    assert Parts("") == [];
  }

  /** Inside a directory of the tree. */
  lemma TreeAgrees(
      s: Snapshot, overlay: RootOverlay, p: Projection, cs: seq<string>, dir: TreeEntry, entries: seq<RawTreeEntry>,
      name: string, e: ResolvedEntry)
    requires cs != [] && (forall c | c in cs :: ValidName(c)) && ValidName(name)
    requires LookupOf(s, overlay, p, Join(cs)) == Ok(OnTree(dir)) && dir.mode.DirectoryMode?
    requires TreeOf(s.world, s.resident, dir.oid) == Ok(entries) && DistinctNames(entries)
    ensures (name, e) in Unshadowed(map[], entries) <==> LookupOf(s, overlay, p, Join(cs + [name])) == Ok(e)
  {
    hide TreeOf, RootTreeOf, Unshadowed, Find, Resolve, Components, Parts, Join, Descend;
    ChildPath(cs, name);
    UnshadowedHas(map[], entries, name, e);
    var root := RootTreeOf(s, p).value;
    LookupComposes(s.world, s.resident, root, Join(cs), name);
    if e.OnTree? {
      OneStep(s.world, s.resident, dir.oid, name, entries, e.entry);
    }
  }

  /** Inside a directory of the overlay. */
  lemma SyntheticAgrees(
      s: Snapshot, overlay: RootOverlay, p: Projection, cs: seq<string>, dirName: string, children: map<string, SyntheticEntry>,
      name: string, e: ResolvedEntry)
    requires cs != [] && (forall c | c in cs :: ValidName(c)) && ValidName(name)
    requires LookupOf(s, overlay, p, Join(cs)) == Ok(OnOverlay(dirName, Directory(children)))
    ensures (name, e) in OverlayPairs(children) <==> LookupOf(s, overlay, p, Join(cs + [name])) == Ok(e)
  {
    hide RootTreeOf, Resolve, Parts, Join, OverlayPairs, Descend;
    ChildPath(cs, name);
    OverlayPairsHas(children, name, e);
    var top := overlay[cs[0]];
    assert (cs + [name])[1..] == cs[1..] + [name];
    DescendIsAt(cs[0], top, cs[1..], cs[0]);
    DescendIsAt(cs[0], top, cs[1..] + [name], cs[0]);
    AtAppend(top, cs[1..], [name]);
    assert At(Directory(children), [name]) == if name in children then Some(children[name]) else None by {
      assert [name][1..] == [];
    }
  }

  // ------------------------------------------- directories that are not local yet

  /** The database once `readdir` has fetched a directory's own tree. Only directories of
      the tree are fetched; the root and synthetic directories are listed as they are. */
  function Fetched(s: Snapshot, snap: Snap): Snapshot {
    if snap.TreeDir? then s.(resident := s.resident + {snap.tree}) else s
  }

  /** Whether listing the directory needs no fetch. */
  predicate Local(s: Snapshot, snap: Snap) {
    snap.TreeDir? ==> snap.tree in s.resident
  }

  /** A lookup agrees with a listing on a name: it finds the entry listed, or reports that
      there is none and none is listed. */
  ghost predicate AgreesWith(found: Found, pairs: Pairs, name: string) {
    match found
    case Ok(e) => (name, e) in pairs
    case Err(x) => x.NotFound? && forall i | 0 <= i < |pairs| :: pairs[i].0 != name
  }

  /** While a directory's tree is absent every lookup in it fails in the store, whatever
      the directory holds. */
  lemma UnfetchedHidesAll(s: Snapshot, overlay: RootOverlay, p: Projection, cs: seq<string>, dir: TreeEntry, name: string)
    requires cs != [] && (forall c | c in cs :: ValidName(c)) && ValidName(name)
    requires LookupOf(s, overlay, p, Join(cs)) == Ok(OnTree(dir)) && dir.mode.DirectoryMode?
    ensures var tree := TreeOf(s.world, s.resident, dir.oid);
      tree.Err? ==> LookupOf(s, overlay, p, Join(cs + [name])) == Err(ProjectionStore(tree.error))
  {
    hide TreeOf, RootTreeOf, Find, Components, Parts, Join, Descend;
    ChildPath(cs, name);
    LookupComposes(s.world, s.resident, RootTreeOf(s, p).value, Join(cs), name);
  }

  /** The same directory before and after its fetch. */
  lemma FetchedTree(s: Snapshot, tree: Oid)
    ensures tree in s.resident ==> TreeOf(s.world, s.resident + {tree}, tree) == TreeOf(s.world, s.resident, tree)
    ensures tree !in s.resident ==> TreeOf(s.world, s.resident, tree) == Err(MissingObject(tree))
  {
  }

  /** A lookup in a directory of the tree agrees with the listing the directory has once
      fetched, on any name, if and only if the directory's tree is there already. */
  lemma TreeAgreesIffLocal(
      s: Snapshot, overlay: RootOverlay, p: Projection, cs: seq<string>, dir: TreeEntry, entries: seq<RawTreeEntry>, name: string)
    requires cs != [] && (forall c | c in cs :: ValidName(c)) && ValidName(name)
    requires LookupOf(s, overlay, p, Join(cs)) == Ok(OnTree(dir)) && dir.mode.DirectoryMode?
    requires TreeOf(s.world, s.resident + {dir.oid}, dir.oid) == Ok(entries) && DistinctNames(entries)
    ensures AgreesWith(LookupOf(s, overlay, p, Join(cs + [name])), Unshadowed(map[], entries), name) <==> dir.oid in s.resident
  {
    hide TreeOf, LookupOf, Unshadowed, Join;
    FetchedTree(s, dir.oid);
    var found := LookupOf(s, overlay, p, Join(cs + [name]));
    if dir.oid !in s.resident {
      UnfetchedHidesAll(s, overlay, p, cs, dir, name);
    } else if found.Ok? {
      TreeAgrees(s, overlay, p, cs, dir, entries, name, found.value);
    } else {
      MissesAreNotFound(s, overlay, p, cs, dir, entries, name);
    }
  }

  /** In a readable directory a name that is not found is reported so, and is not listed. */
  lemma MissesAreNotFound(
      s: Snapshot, overlay: RootOverlay, p: Projection, cs: seq<string>, dir: TreeEntry, entries: seq<RawTreeEntry>, name: string)
    requires cs != [] && (forall c | c in cs :: ValidName(c)) && ValidName(name)
    requires LookupOf(s, overlay, p, Join(cs)) == Ok(OnTree(dir)) && dir.mode.DirectoryMode?
    requires TreeOf(s.world, s.resident, dir.oid) == Ok(entries) && DistinctNames(entries)
    requires LookupOf(s, overlay, p, Join(cs + [name])).Err?
    ensures AgreesWith(LookupOf(s, overlay, p, Join(cs + [name])), Unshadowed(map[], entries), name)
  {
    var pairs := Unshadowed(map[], entries);
    forall i | 0 <= i < |pairs| ensures pairs[i].0 != name {
      hide LookupOf, Unshadowed, TreeOf, Join;
      assert (pairs[i].0, pairs[i].1) in pairs;
      if pairs[i].0 == name {
        TreeAgrees(s, overlay, p, cs, dir, entries, name, pairs[i].1);
      }
    }
    hide TreeOf, RootTreeOf, Find, Components, Parts, Join, Descend, Unshadowed;
    ChildPath(cs, name);
    var root := RootTreeOf(s, p).value;
    LookupComposes(s.world, s.resident, root, Join(cs), name);
    assert Resolve(s.world, s.resident, dir.oid, name).error.NotFound?;
  }

  /** A listing that fails even after the fetch: no lookup finds anything either, except
      overlay entries at a root whose tree cannot be read. */
  lemma RootUnlisted(s: Snapshot, overlay: RootOverlay, p: Projection, name: string)
    requires ValidName(name) && RootListing(s, overlay, p).Err?
    ensures LookupOf(s, overlay, p, name).Ok? <==> name in overlay
  {
    hide TreeOf, RootTreeOf, Find;
    PartsOfName(name);
    assert Components(name) == Ok([name]) && [name][1..] == [];
  }

  const SRC := RawTreeEntry("src", MODE_DIRECTORY, Oid(seq(40, _ => 1)))

  /** A commit whose root holds the directory `src`, which holds the file `file`. */
  function OneDirectory(commit: Oid, root: Oid, dir: RawTreeEntry, file: RawTreeEntry): World {
    map[commit := Commit(Some(root), 0), root := Tree(Some([dir]), 0), dir.oid := Tree(Some([file]), 0)]
  }

  lemma ExamplePaths()
    ensures Parts("src") == ["src"] && Components("src") == Ok(["src"])
    ensures Parts("src/a") == ["src", "a"] && Components("src/a") == Ok(["src", "a"])
  {
    hide Parts;
    PartsOfName("src");
    PartsOfName("a");
    assert "src/a" == "src" + "/" + "a";
    PartsOfPair("src", "a");
  }

  /** The situation is real: a commit and its root tree are there, the tree of `src` is not.
      `src` is found, `src/a` fails in the store; once the directory is listed, `a` is in
      the listing and `src/a` is found. */
  lemma {:induction false} LookupBeforeAndAfterListing(commit: Oid, root: Oid, blob: Oid)
    requires commit != root && commit != SRC.oid && root != SRC.oid
    ensures var file := RawTreeEntry("a", MODE_FILE, blob);
      var before := Snapshot(OneDirectory(commit, root, SRC, file), {commit, root}, map[]);
      var after := Fetched(before, TreeDir(SRC.oid, "src"));
      && LookupOf(before, map[], OfCommit(commit), "src") == Ok(OnTree(FromRaw(SRC)))
      && LookupOf(before, map[], OfCommit(commit), "src/a") == Err(ProjectionStore(MissingObject(SRC.oid)))
      && ListingOf(after, map[], OfCommit(commit), TreeDir(SRC.oid, "src")) == Ok([("a", OnTree(FromRaw(file)))])
      && LookupOf(after, map[], OfCommit(commit), "src/a") == Ok(OnTree(FromRaw(file)))
  {
    hide Parts, Components, Unshadowed;
    ExamplePaths();
    var file := RawTreeEntry("a", MODE_FILE, blob);
    var world := OneDirectory(commit, root, SRC, file);
    var before := Snapshot(world, {commit, root}, map[]);
    var after := Fetched(before, TreeDir(SRC.oid, "src"));
    OneEntryListing(file);
    assert ["src", "a"][1..] == ["a"] && ["src"][1..] == [];
    assert TreeOf(world, before.resident, root) == Ok([SRC]) == TreeOf(world, after.resident, root);
    assert Find([SRC], "src") == Some(SRC) && Find([file], "a") == Some(file);
    WalkOfTwo(before, root, SRC, "a");
    WalkOfTwo(after, root, SRC, "a");
  }

  /** Two components: the directory, then the name inside it. */
  lemma WalkOfTwo(s: Snapshot, root: Oid, dir: RawTreeEntry, name: string)
    requires TreeOf(s.world, s.resident, root) == Ok([dir]) && ModeOf(dir.modeRaw).DirectoryMode?
    ensures Walk(s.world, s.resident, root, [dir.name], "") == Ok(FromRaw(dir))
    ensures Walk(s.world, s.resident, root, [dir.name, name], "") == Step(s.world, s.resident, dir.oid, name, Extend("", dir.name))
  {
    hide TreeOf;
    assert [dir.name, name][1..] == [name];
    assert Find([dir], dir.name) == Some(dir);
  }

  lemma OneEntryListing(e: RawTreeEntry)
    ensures Unshadowed(map[], [e]) == [(e.name, OnTree(FromRaw(e)))]
  {
    assert [e][1..] == [];
  }

  // ------------------------------------------------------------------ stability

  /** A path that resolved resolves to the same entry however the database grows. */
  lemma LookupIsStable(s: Snapshot, t: Snapshot, overlay: RootOverlay, p: Projection, path: string)
    requires s.world == t.world && s.refs == t.refs && s.resident <= t.resident
    requires LookupOf(s, overlay, p, path).Ok?
    ensures LookupOf(t, overlay, p, path) == LookupOf(s, overlay, p, path)
  {
    hide Walk, Parts, Descend;
    if Parts(path) == [] || Parts(path)[0] !in overlay {
      RootIsStable(s, t, p);
      ResolveIsStable(s, t, RootTreeOf(s, p).value, path);
    }
  }

  /** So does a listing that could be made. */
  lemma ListingIsStable(s: Snapshot, t: Snapshot, overlay: RootOverlay, p: Projection, snap: Snap)
    requires s.world == t.world && s.refs == t.refs && s.resident <= t.resident
    requires ListingOf(s, overlay, p, snap).Ok?
    ensures ListingOf(t, overlay, p, snap) == ListingOf(s, overlay, p, snap)
  {
    hide RootTreeOf, TreeOf, Unshadowed, OverlayPairs;
    match snap
    case RootSnap =>
      RootIsStable(s, t, p);
      AnswersAreStable(s.world, s.resident, t.resident, RootTreeOf(s, p).value);
    case TreeDir(tree, _) => AnswersAreStable(s.world, s.resident, t.resident, tree);
    case _ =>
  }

  lemma ResolveIsStable(s: Snapshot, t: Snapshot, tree: Oid, path: string)
    requires s.world == t.world && s.resident <= t.resident
    requires Resolve(s.world, s.resident, tree, path).Ok?
    ensures Resolve(t.world, t.resident, tree, path) == Resolve(s.world, s.resident, tree, path)
  {
    hide Walk, Components;
    WalkIsStable(s.world, s.resident, t.resident, tree, Components(path).value, "");
  }

  lemma RootIsStable(s: Snapshot, t: Snapshot, p: Projection)
    requires s.world == t.world && s.refs == t.refs && s.resident <= t.resident
    requires RootTreeOf(s, p).Ok?
    ensures RootTreeOf(t, p) == RootTreeOf(s, p)
  {
    hide Resolve;
    var commit := match p
      case Ref(name) => s.refs[name]
      case OfCommit(oid) => oid
      case Subtree(c, _) => c;
    AnswersAreStable(s.world, s.resident, t.resident, commit);
    if p.Subtree? {
      ResolveIsStable(s, t, CommitRoot(s, commit).value, p.path);
    }
  }
}
