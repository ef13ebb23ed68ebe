/** The tree navigator: resolving a path by reading one tree per component. */
module TreeWalk {
  import opened Git
  import opened Paths
  import opened ObjectStore

  datatype TreeEntry = TreeEntry(name: string, mode: EntryMode, modeRaw: nat, oid: Oid)

  type Resolution = Result<TreeEntry, ProjectionError>

  function FromRaw(e: RawTreeEntry): TreeEntry {
    TreeEntry(e.name, ModeOf(e.modeRaw), e.modeRaw, e.oid)
  }

  /** The entry the navigator invents for the root of a walk. */
  function RootEntry(tree: Oid): TreeEntry {
    TreeEntry("", DirectoryMode, MODE_DIRECTORY, tree)
  }

  /** The first entry of that name. */
  function Find(entries: seq<RawTreeEntry>, name: string): (r: Option<RawTreeEntry>)
    ensures r.Some? ==> r.value in entries && r.value.name == name
    ensures r.None? <==> forall e | e in entries :: e.name != name
  {
    if entries == [] then None
    else if entries[0].name == name then Some(entries[0])
    else Find(entries[1..], name)
  }

  /** One step down: `component` inside the directory `tree`, reached along `walked`. */
  function Step(world: World, resident: set<Oid>, tree: Oid, component: string, walked: string): Resolution {
    match TreeOf(world, resident, tree)
    case Err(e) => Err(ProjectionStore(e))
    case Ok(entries) =>
      match Find(entries, component)
      case None => Err(NotFound(component, walked))
      case Some(e) => Ok(FromRaw(e))
  }

  /** What resolving components means, one component at a time. */
  function Walk(world: World, resident: set<Oid>, tree: Oid, cs: seq<string>, walked: string): Resolution
    decreases |cs|
  {
    if cs == [] then Ok(RootEntry(tree)) else
    var first := Step(world, resident, tree, cs[0], walked);
    if first.Err? || |cs| == 1 then first
    else if !first.value.mode.DirectoryMode? then Err(NotADirectory(cs[0], walked))
    else Walk(world, resident, first.value.oid, cs[1..], Extend(walked, cs[0]))
  }

  function Resolve(world: World, resident: set<Oid>, tree: Oid, path: string): Resolution {
    match Components(path)
    case Err(e) => Err(e)
    case Ok(cs) => Walk(world, resident, tree, cs, "")
  }

  /** `TreeNavigator::lookup`: the loop reads through the store's tree cache and returns
      exactly what the component-wise walk over the database gives. */
  method Lookup(store: ObjectStore, tree: Oid, path: string) returns (r: Resolution)
    requires store.Valid()
    modifies store.treeCache
    ensures store.Valid()
    ensures r == Resolve(store.world, store.resident, tree, path)
  {
    hide Parts, NonEmpty, SplitSlash, ObjectStore.Valid, TreeOf;
    var components := SplitPath(path);
    if components.Err? {
      return Err(components.error);
    }
    var cs := components.value;
    if cs == [] {
      return Ok(RootEntry(tree));
    }
    var currentTree, walked := tree, "";
    var i := 0;
    while i < |cs|
      invariant 0 <= i < |cs| && store.Valid()
      invariant Walk(store.world, store.resident, tree, cs, "")
             == Walk(store.world, store.resident, currentTree, cs[i..], walked)
    {
      var entries := store.ReadTree(currentTree);
      assert cs[i..][1..] == cs[i + 1..];
      if entries.Err? {
        return Err(ProjectionStore(entries.error));
      }
      var found := Find(entries.value, cs[i]);
      if found.None? {
        return Err(NotFound(cs[i], walked));
      }
      var entry := FromRaw(found.value);
      if i + 1 == |cs| {
        return Ok(entry);
      }
      if !entry.mode.DirectoryMode? {
        return Err(NotADirectory(cs[i], walked));
      }
      currentTree := entry.oid;
      walked := Extend(walked, cs[i]);
      i := i + 1;
    }
    assert false;
    r := Ok(RootEntry(tree));
  }

  // ------------------------------------------------------- a walk entry by entry

  /** The database lists `e` in the tree `tree`, and no earlier entry has its name. */
  ghost predicate FirstListed(world: World, resident: set<Oid>, tree: Oid, e: RawTreeEntry) {
    && tree in resident && tree in world && world[tree].Tree? && world[tree].entries.Some?
    && var entries := world[tree].entries.value;
       exists j :: 0 <= j < |entries| && entries[j] == e && forall i | 0 <= i < j :: entries[i].name != e.name
  }

  /** Where a walk stands after some steps: in the root, or in what the last entry names. */
  function Reached(tree: Oid, chain: seq<RawTreeEntry>): Oid {
    if chain == [] then tree else chain[|chain| - 1].oid
  }

  /** Entries of these names, each listed in what the one before names; all but the last
      are directories by their mode number. */
  ghost predicate Chain(world: World, resident: set<Oid>, tree: Oid, names: seq<string>, chain: seq<RawTreeEntry>) {
    && |chain| == |names|
    && forall i | 0 <= i < |chain| ::
         && chain[i].name == names[i]
         && (i + 1 < |chain| ==> chain[i].modeRaw == 16384)
         && FirstListed(world, resident, Reached(tree, chain[..i]), chain[i])
  }

  /** How a walk ends after the steps of a chain: at the entry asked for; at an entry that
      is not a directory although more is to come, as a submodule is not; in a tree that
      cannot be read; or in one that does not list the next name. */
  ghost predicate Ends(
      world: World, resident: set<Oid>, tree: Oid, cs: seq<string>, walked: string, chain: seq<RawTreeEntry>, r: Resolution)
  {
    var k := |chain|;
    && k <= |cs|
    && if k > 0 && (k == |cs| || chain[k - 1].modeRaw != 16384) then
         var last := chain[k - 1];
         if k == |cs| then
           && r.Ok? && r.value.name == last.name && r.value.oid == last.oid
           && r.value.modeRaw == last.modeRaw && r.value.mode == ModeOf(last.modeRaw)
         else r == Err(NotADirectory(last.name, ExtendAll(walked, cs[..k - 1])))
       else if cs == [] then r == Ok(RootEntry(tree))
       else StopsAt(world, resident, Reached(tree, chain), cs[k], ExtendAll(walked, cs[..k]), r)
  }

  /** The next name cannot be looked up in `at`: it is no tree to be read, or has no such name. */
  ghost predicate StopsAt(world: World, resident: set<Oid>, at: Oid, name: string, parent: string, r: Resolution) {
    if at in resident && at in world && world[at].Tree? && world[at].entries.Some? then
      (forall e | e in world[at].entries.value :: e.name != name) && r == Err(NotFound(name, parent))
    else
      r.Err? && r.error.ProjectionStore? && TreeOf(world, resident, at) == Err(r.error.store)
  }

  /** The steps a walk takes. */
  ghost function Steps(world: World, resident: set<Oid>, tree: Oid, cs: seq<string>): seq<RawTreeEntry>
    decreases |cs|
  {
    if cs == [] || TreeOf(world, resident, tree).Err? || Find(TreeOf(world, resident, tree).value, cs[0]).None? then [] else
    var e := Find(TreeOf(world, resident, tree).value, cs[0]).value;
    [e] + if |cs| > 1 && e.modeRaw == 16384 then Steps(world, resident, e.oid, cs[1..]) else []
  }

  lemma {:induction false} FindIsFirst(entries: seq<RawTreeEntry>, name: string)
    ensures var r := Find(entries, name);
      r.Some? ==> exists j :: 0 <= j < |entries| && entries[j] == r.value && forall i | 0 <= i < j :: entries[i].name != r.value.name
  {
    if entries != [] && entries[0].name != name {
      FindIsFirst(entries[1..], name);
      var r := Find(entries, name);
      if r.Some? {
        var j :| 0 <= j < |entries[1..]| && entries[1..][j] == r.value && forall i | 0 <= i < j :: entries[1..][i].name != r.value.name;
        forall i | 0 <= i < j + 1 ensures entries[i].name != r.value.name {
          assert i > 0 ==> entries[i] == entries[1..][i - 1];
        }
        assert entries[j + 1] == r.value;
      }
    }
  }

  /** The first step is into what the database lists first under that name. */
  lemma StepIsListed(world: World, resident: set<Oid>, tree: Oid, name: string)
    ensures var found := TreeOf(world, resident, tree);
      if found.Err? || Find(found.value, name).None? then
        forall walked :: var r := Step(world, resident, tree, name, walked); r.Err? && StopsAt(world, resident, tree, name, walked, r)
      else
        var e := Find(found.value, name).value;
        e.name == name && FirstListed(world, resident, tree, e) && forall walked :: Step(world, resident, tree, name, walked) == Ok(FromRaw(e))
  {
    if TreeOf(world, resident, tree).Ok? {
      FindIsFirst(TreeOf(world, resident, tree).value, name);
    }
  }

  lemma LongerChain(world: World, resident: set<Oid>, tree: Oid, names: seq<string>, e: RawTreeEntry, rest: seq<RawTreeEntry>)
    requires names != [] && e.name == names[0] && FirstListed(world, resident, tree, e)
    requires Chain(world, resident, e.oid, names[1..], rest) && (rest != [] ==> e.modeRaw == 16384)
    ensures Chain(world, resident, tree, names, [e] + rest)
  {
    hide FirstListed;
    var chain := [e] + rest;
    forall i | 0 <= i < |chain|
      ensures chain[i].name == names[i] && (i + 1 < |chain| ==> chain[i].modeRaw == 16384)
      ensures FirstListed(world, resident, Reached(tree, chain[..i]), chain[i])
    {
      if i > 0 {
        assert names[1..][i - 1] == names[i] && rest[i - 1] == chain[i];
        assert chain[..i] == [e] + rest[..i - 1];
        assert Reached(tree, chain[..i]) == Reached(e.oid, rest[..i - 1]);
      }
    }
  }

  lemma LongerEnd(
      world: World, resident: set<Oid>, tree: Oid, cs: seq<string>, walked: string, e: RawTreeEntry, rest: seq<RawTreeEntry>, r: Resolution)
    requires |cs| > 1 && e.name == cs[0] && e.modeRaw == 16384
    requires Ends(world, resident, e.oid, cs[1..], Extend(walked, cs[0]), rest, r)
    ensures Ends(world, resident, tree, cs, walked, [e] + rest, r)
  {
    hide StopsAt;
    var k := |rest|;
    assert cs[..k + 1] == [cs[0]] + cs[1..][..k];
    assert cs[..k + 1][1..] == cs[1..][..k];
    if k > 0 {
      assert cs[..k][1..] == cs[1..][..k - 1];
    }
  }

  /** The walk, for any components and any database, is the end of such a chain: it goes on
      below an entry exactly when that entry's mode is 16384. */
  lemma {:induction false} WalkIsAChain(world: World, resident: set<Oid>, tree: Oid, cs: seq<string>, walked: string)
    ensures var chain := Steps(world, resident, tree, cs);
      && |chain| <= |cs| && Chain(world, resident, tree, cs[..|chain|], chain)
      && Ends(world, resident, tree, cs, walked, chain, Walk(world, resident, tree, cs, walked))
    decreases |cs|
  {
    hide TreeOf, Find, Step, StopsAt, FirstListed;
    if cs != [] {
      StepIsListed(world, resident, tree, cs[0]);
      assert cs[..0] == [] && ExtendAll(walked, cs[..0]) == walked;
      var found := TreeOf(world, resident, tree);
      if found.Ok? && Find(found.value, cs[0]).Some? {
        var e := Find(found.value, cs[0]).value;
        ModesByNumber(e.modeRaw);
        var rest := if |cs| > 1 && e.modeRaw == 16384 then Steps(world, resident, e.oid, cs[1..]) else [];
        if |cs| > 1 && e.modeRaw == 16384 {
          WalkIsAChain(world, resident, e.oid, cs[1..], Extend(walked, cs[0]));
          LongerEnd(world, resident, tree, cs, walked, e, rest, Walk(world, resident, tree, cs, walked));
        }
        assert cs[..1 + |rest|][1..] == cs[1..][..|rest|];
        LongerChain(world, resident, tree, cs[..1 + |rest|], e, rest);
      }
    }
  }

  // ---------------------------------------------------------------- path algebra

  /** What continuing past an already resolved prefix `p` means. */
  function Continue(world: World, resident: set<Oid>, at: Resolution, p: seq<string>, q: seq<string>, walked: string): Resolution
    requires p != []
  {
    match at
    case Err(e) => Err(e)
    case Ok(entry) =>
      if !entry.mode.DirectoryMode? then
        Err(NotADirectory(p[|p| - 1], ExtendAll(walked, p[..|p| - 1])))
      else Walk(world, resident, entry.oid, q, ExtendAll(walked, p))
  }

  /** Resolving `p` and then `q` in the directory it names is resolving `p/q`: same entry
      on success, same error otherwise, with the parent the whole walk reports. */
  lemma {:induction false} WalkComposes(world: World, resident: set<Oid>, tree: Oid, p: seq<string>, q: seq<string>, walked: string)
    requires p != [] && q != []
    ensures Walk(world, resident, tree, p + q, walked)
         == Continue(world, resident, Walk(world, resident, tree, p, walked), p, q, walked)
    decreases |p|
  {
    var first := Step(world, resident, tree, p[0], walked);
    assert (p + q)[0] == p[0] && (p + q)[1..] == p[1..] + q;
    if |p| == 1 {
      assert p + q == p + q && p[1..] + q == q;
      assert p[..0] == [] && p[1..] == [];
      assert ExtendAll(walked, p) == Extend(walked, p[0]);
    } else if first.Ok? && first.value.mode.DirectoryMode? {
      WalkComposes(world, resident, first.value.oid, p[1..], q, Extend(walked, p[0]));
      assert p[..|p| - 1] == [p[0]] + p[1..][..|p| - 2];
    }
  }

  /** A parent reported below `walked`. */
  function Under(walked: string, parent: string): string {
    if parent == "" then walked else if walked == "" then parent else walked + "/" + parent
  }

  function Relocated(walked: string, r: Resolution): Resolution {
    match r
    case Err(NotFound(c, parent)) => Err(NotFound(c, Under(walked, parent)))
    case Err(NotADirectory(c, parent)) => Err(NotADirectory(c, Under(walked, parent)))
    case _ => r
  }

  /** The walked prefix only shows in reported parents. */
  lemma {:induction false} WalkRelocates(world: World, resident: set<Oid>, tree: Oid, cs: seq<string>, walked: string, more: string)
    requires forall c | c in cs :: c != ""
    ensures Walk(world, resident, tree, cs, Under(walked, more))
         == Relocated(walked, Walk(world, resident, tree, cs, more))
    decreases |cs|
  {
    if |cs| > 1 {
      var first := Step(world, resident, tree, cs[0], more);
      if first.Ok? && first.value.mode.DirectoryMode? {
        assert forall c | c in cs[1..] :: c in cs;
        assert cs[0] in cs;
        assert Extend(Under(walked, more), cs[0]) == Under(walked, Extend(more, cs[0])) by {
          if walked != "" && more != "" {
            assert walked + "/" + more + "/" + cs[0] == walked + "/" + (more + "/" + cs[0]);
          }
        }
        WalkRelocates(world, resident, first.value.oid, cs[1..], walked, Extend(more, cs[0]));
      }
    }
  }

  /** Composition from the root of a tree, parents spelled canonically. */
  function Below(world: World, resident: set<Oid>, at: Resolution, p: seq<string>, q: seq<string>): Resolution {
    match at
    case Err(e) => Err(e)
    case Ok(dir) =>
      if dir.mode.DirectoryMode? then Relocated(Join(p), Walk(world, resident, dir.oid, q, ""))
      else Err(NotADirectory(if p == [] then "" else p[|p| - 1], if p == [] then "" else Join(p[..|p| - 1])))
  }

  lemma WalkComposesFromRoot(world: World, resident: set<Oid>, tree: Oid, p: seq<string>, q: seq<string>)
    requires q != []
    requires (forall c | c in p :: c != "") && (forall c | c in q :: c != "")
    ensures Walk(world, resident, tree, p + q, "") == Below(world, resident, Walk(world, resident, tree, p, ""), p, q)
  {
    if p == [] {
      assert p + q == q;
      WalkRelocates(world, resident, tree, q, "", "");
    } else {
      WalkComposes(world, resident, tree, p, q, "");
      var init := p[..|p| - 1];
      forall c | c in init ensures c != "" {
        assert c in p;
      }
      ExtendFromEmptyIsJoin(p);
      ExtendFromEmptyIsJoin(init);
      var at := Walk(world, resident, tree, p, "");
      if at.Ok? && at.value.mode.DirectoryMode? {
        WalkRelocates(world, resident, at.value.oid, q, Join(p), "");
      }
    }
  }

  /** The same on path strings: looking up `p/q` is looking up `q` in the directory
      `p` names, reported parents being prefixed with the canonical spelling of `p`. */
  lemma LookupComposes(world: World, resident: set<Oid>, tree: Oid, p: string, q: string)
    requires Components(p).Ok? && Components(q).Ok?
    requires Components(q).value != []
    ensures Resolve(world, resident, tree, p + "/" + q) ==
      match Resolve(world, resident, tree, p)
      case Err(e) => Err(e)
      case Ok(dir) =>
        if dir.mode.DirectoryMode? then
          Relocated(Join(Components(p).value), Resolve(world, resident, dir.oid, q))
        else
          var cs := Components(p).value;
          Err(NotADirectory(if cs == [] then "" else cs[|cs| - 1], if cs == [] then "" else Join(cs[..|cs| - 1])))
  {
    hide Walk, Join, Parts, Relocated;
    ComponentsOfPair(p, q);
    ComponentsRoundTrip(p);
    ComponentsRoundTrip(q);
    WalkComposesFromRoot(world, resident, tree, Components(p).value, Components(q).value);
  }

  /** Trees never change, so a path that resolved keeps resolving to the same entry. */
  lemma {:induction false} WalkIsStable(world: World, before: set<Oid>, after: set<Oid>, tree: Oid, cs: seq<string>, walked: string)
    requires before <= after
    requires Walk(world, before, tree, cs, walked).Ok?
    ensures Walk(world, after, tree, cs, walked) == Walk(world, before, tree, cs, walked)
    decreases |cs|
  {
    if cs != [] {
      AnswersAreStable(world, before, after, tree);
      var first := Step(world, before, tree, cs[0], walked);
      if |cs| > 1 {
        WalkIsStable(world, before, after, first.value.oid, cs[1..], Extend(walked, cs[0]));
      }
    }
  }
}
