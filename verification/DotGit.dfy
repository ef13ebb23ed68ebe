/** The synthetic `.git/` directory and the splice that gives it a branch. */
module DotGit {
  import opened Git
  import opened Paths
  import opened Overlay

  const A1_CONFIG := "[core]\n" + "\trepositoryformatversion = 0\n\tfilemode = true\n\tbare = false\n\tlogallrefupdates = false\n"

  const HEADS := "refs/heads/"

  function Dir(children: map<string, SyntheticEntry>): SyntheticEntry {
    Directory(children)
  }

  /** A detached `.git/`: HEAD holds the commit, `refs/heads` and `refs/tags` are empty. */
  function A1Overlay(commitHex: string, objectsDir: string): RootOverlay {
    map[".git" := Dir(map[
      "HEAD" := TextFile(commitHex + "\n"),
      "config" := TextFile(A1_CONFIG),
      "packed-refs" := TextFile(""),
      "refs" := Dir(map["heads" := Dir(map[]), "tags" := Dir(map[])]),
      "objects" := Dir(map["info" := Dir(map["alternates" := TextFile(objectsDir + "\n")])])])]
  }

  /** Insert a file at `path`, creating missing directories; `None` where the source
      panics because an intermediate component is not a directory. */
  function SpliceNested(children: map<string, SyntheticEntry>, path: seq<string>, content: string): Option<map<string, SyntheticEntry>>
    requires path != []
    decreases |path|
  {
    if |path| == 1 then Some(children[path[0] := TextFile(content)]) else
    match if path[0] in children then children[path[0]] else Dir(map[])
    case Directory(below) =>
      (match SpliceNested(below, path[1..], content)
       case None => None
       case Some(updated) => Some(children[path[0] := Directory(updated)]))
    case _ => None
  }

  function SpliceChild(overlay: RootOverlay, name: string, content: string): Option<RootOverlay> {
    if ".git" in overlay && overlay[".git"].Directory? then
      Some(overlay[".git" := Directory(overlay[".git"].children[name := TextFile(content)])])
    else None
  }

  /** `apply_a2_ref_visibility`; `None` where the source panics. */
  function ApplyA2(overlay: RootOverlay, branch: string, commitHex: string): Option<RootOverlay> {
    if !(HEADS <= branch) then None else
    match SpliceChild(overlay, "HEAD", "ref: " + branch + "\n")
    case None => None
    case Some(headed) =>
      match SpliceNested(headed[".git"].children, SplitSlash(branch), commitHex + "\n")
      case None => None
      case Some(children) => Some(headed[".git" := Directory(children)])
  }

  // ------------------------------------------------------------- the operations

  /** A directory on the way down and the component taken from it: what the source's
      cursor borrows, so that a change at the bottom shows at the top. */
  datatype Crumb = Crumb(children: map<string, SyntheticEntry>, component: string)

  function Rebuild(crumbs: seq<Crumb>, below: map<string, SyntheticEntry>): map<string, SyntheticEntry> {
    if crumbs == [] then below else
    var c := crumbs[|crumbs| - 1];
    Rebuild(crumbs[..|crumbs| - 1], c.children[c.component := Directory(below)])
  }

  function Lifted(crumbs: seq<Crumb>, below: Option<map<string, SyntheticEntry>>): Option<map<string, SyntheticEntry>> {
    if below.Some? then Some(Rebuild(crumbs, below.value)) else None
  }

  class OverlayEntries {
    var entries: RootOverlay

    constructor (entries: RootOverlay)
      ensures this.entries == entries
    {
      this.entries := entries;
    }

    /** `splice_dotgit_child`; `ok` is false where the source panics. */
    method SpliceDotgitChild(name: string, content: string) returns (ok: bool)
      modifies this
      ensures ok <==> SpliceChild(old(entries), name, content).Some?
      ensures entries == if ok then SpliceChild(old(entries), name, content).value else old(entries)
    {
      if ".git" !in entries || !entries[".git"].Directory? {
        return false;
      }
      entries := entries[".git" := Directory(entries[".git"].children[name := TextFile(content)])];
      ok := true;
    }

    /** `splice_nested_dotgit_file`: walk down creating what is missing, then write. */
    method SpliceNestedDotgitFile(path: seq<string>, content: string) returns (ok: bool)
      requires path != []
      modifies this
      ensures ok <==> ".git" in old(entries) && old(entries)[".git"].Directory?
                      && SpliceNested(old(entries)[".git"].children, path, content).Some?
      ensures entries == if ok then old(entries)[".git" := Directory(SpliceNested(old(entries)[".git"].children, path, content).value)]
                         else old(entries)
    {
      if ".git" !in entries || !entries[".git"].Directory? {
        return false;
      }
      var top := entries[".git"].children;
      var current, crumbs: seq<Crumb> := top, [];
      var i := 0;
      assert path[0..] == path;
      while i < |path| - 1
        invariant 0 <= i <= |path| - 1
        invariant SpliceNested(top, path, content) == Lifted(crumbs, SpliceNested(current, path[i..], content))
      {
        assert path[i..][1..] == path[i + 1..];
        var entry := if path[i] in current then current[path[i]] else Dir(map[]);
        match entry {
          case Directory(children) =>
            var more := crumbs + [Crumb(current, path[i])];
            assert more[..|crumbs|] == crumbs;
            current, crumbs := children, more;
          case _ => return false;
        }
        i := i + 1;
      }
      var below := current[path[i] := TextFile(content)];
      assert SpliceNested(current, path[i..], content) == Some(below);
      ghost var whole := Rebuild(crumbs, below);
      while crumbs != []
        invariant Rebuild(crumbs, below) == whole
        decreases |crumbs|
      {
        var c := crumbs[|crumbs| - 1];
        below := c.children[c.component := Directory(below)];
        crumbs := crumbs[..|crumbs| - 1];
      }
      entries := entries[".git" := Directory(below)];
      ok := true;
    }

    /** `apply_a2_ref_visibility`. */
    method ApplyA2RefVisibility(branch: string, commitHex: string) returns (ok: bool)
      modifies this
      ensures ok <==> ApplyA2(old(entries), branch, commitHex).Some?
      ensures ok ==> entries == ApplyA2(old(entries), branch, commitHex).value
    {
      if !(HEADS <= branch) {
        return false;
      }
      ok := SpliceDotgitChild("HEAD", "ref: " + branch + "\n");
      if ok {
        ok := SpliceNestedDotgitFile(SplitSlash(branch), commitHex + "\n");
      }
    }
  }

  // ------------------------------------------------------- a lawful tree update

  predicate ProperPrefix(p: seq<string>, q: seq<string>) {
    |p| < |q| && p == q[..|p|]
  }

  /** A splice succeeds exactly when nothing but directories lies on the way. */
  lemma {:induction false} SpliceSucceedsIff(children: map<string, SyntheticEntry>, path: seq<string>, content: string)
    requires path != []
    ensures SpliceNested(children, path, content).Some? <==>
      forall n | 0 < n < |path| :: At(Dir(children), path[..n]).Some? ==> At(Dir(children), path[..n]).value.Directory?
    decreases |path|
  {
    if |path| > 1 {
      var next := if path[0] in children then children[path[0]] else Dir(map[]);
      assert path[..1][1..] == [];
      if path[0] in children {
        assert At(Dir(children), path[..1]) == At(next, []);
        assert At(Dir(children), path[..1]) == Some(next);
      }
      if next.Directory? {
        SpliceSucceedsIff(next.children, path[1..], content);
        forall n | 1 < n < |path|
          ensures path[0] in children ==> At(Dir(children), path[..n]) == At(next, path[1..][..n - 1])
          ensures path[0] !in children ==> At(Dir(children), path[..n]).None? && At(next, path[1..][..n - 1]).None?
        {
          assert path[..n][1..] == path[1..][..n - 1];
        }
        forall m | 0 < m < |path| - 1
          ensures At(next, path[1..][..m]).Some? ==>
            path[0] in children && At(Dir(children), path[..m + 1]) == At(next, path[1..][..m])
        {
        }
      }
    }
  }

  /** What every path resolves to after a successful splice: the file itself, the
      directories leading to it, nothing below it, and all else as before. */
  lemma {:induction false} SpliceLaw(children: map<string, SyntheticEntry>, path: seq<string>, content: string, q: seq<string>)
    requires path != [] && SpliceNested(children, path, content).Some?
    ensures var before, after := At(Dir(children), q), At(Dir(SpliceNested(children, path, content).value), q);
      if q == path then after == Some(TextFile(content))
      else if ProperPrefix(q, path) then after.Some? && after.value.Directory? && (before.Some? ==> before.value.Directory?)
      else if ProperPrefix(path, q) then after == None
      else after == before
    decreases |path|
  {
    if q == [] {
    } else if |path| == 1 {
      assert path == [path[0]];
      if q[0] == path[0] {
        assert q[..1] == path;
        assert q == path <==> q[1..] == [];
      }
    } else if q[0] == path[0] {
      var below := if path[0] in children then children[path[0]].children else map[];
      SpliceLaw(below, path[1..], content, q[1..]);
      assert q == path <==> q[1..] == path[1..];
      assert q == [q[0]] + q[1..] && path == [path[0]] + path[1..];
      assert |q| < |path| ==> (q == path[..|q|] <==> q[1..] == path[1..][..|q| - 1]);
      assert |path| < |q| ==> (path == q[..|path|] <==> path[1..] == q[1..][..|path| - 1]);
    }
  }

  // ------------------------------------------------------------- branch visible

  /** `.git/refs/heads` exists and has nothing in it, as in a fresh A1 or A1+ overlay. */
  predicate FreshHeads(overlay: RootOverlay) {
    && ".git" in overlay
    && At(overlay[".git"], ["refs", "heads"]) == Some(Dir(map[]))
  }

  lemma A1IsFresh(commitHex: string, objectsDir: string)
    ensures FreshHeads(A1Overlay(commitHex, objectsDir))
    ensures var git := A1Overlay(commitHex, objectsDir)[".git"];
      At(git, ["HEAD"]) == Some(TextFile(commitHex + "\n"))
  {
    var git := A1Overlay(commitHex, objectsDir)[".git"];
    assert ["refs", "heads"][1..] == ["heads"] && ["heads"][1..] == [] && ["HEAD"][1..] == [];
    assert At(git.children["refs"], ["heads"]) == At(Dir(map[]), []);
  }

  /** The whole detached overlay: `.git` alone, with these files and directories and no
      others. */
  lemma A1Layout(commitHex: string, objectsDir: string, q: seq<string>)
    ensures A1Overlay(commitHex, objectsDir).Keys == {".git"}
    ensures var e := At(A1Overlay(commitHex, objectsDir)[".git"], q);
      if q == ["HEAD"] then e == Some(File(commitHex + "\n", 33188))
      else if q == ["config"] then e == Some(File(A1_CONFIG, 33188))
      else if q == ["packed-refs"] then e == Some(File("", 33188))
      else if q == ["objects", "info", "alternates"] then e == Some(File(objectsDir + "\n", 33188))
      else if q in {[], ["refs"], ["refs", "heads"], ["refs", "tags"], ["objects"], ["objects", "info"]} then
        e.Some? && e.value.Directory?
      else e == None
  {
    var git := A1Overlay(commitHex, objectsDir)[".git"];
    if q != [] && q[0] in git.children {
      var below, r := git.children[q[0]], q[1..];
      assert q == [q[0]] + r && At(git, q) == At(below, r);
      assert r == [] ==> q == [q[0]] && At(below, r) == Some(below);
      if r != [] && below.Directory? && r[0] in below.children {
        var deeper, u := below.children[r[0]], r[1..];
        assert q == [q[0], r[0]] + u && At(below, r) == At(deeper, u);
        assert u == [] ==> q == [q[0], r[0]] && At(deeper, u) == Some(deeper);
        if u != [] && deeper.Directory? && u[0] in deeper.children {
          var last, v := deeper.children[u[0]], u[1..];
          assert q == [q[0], r[0], u[0]] + v && At(deeper, u) == At(last, v);
          assert last.File? && (v != [] ==> |q| > 3);
          assert v == [] ==> q == ["objects", "info", "alternates"];
        }
      }
    }
  }

  /** Where a path walk under `.git` that is at `at` gets to: `.` stays, `..` goes up but
      not out of `.git`, and only a directory can be walked from. */
  function PathWalk(git: SyntheticEntry, at: seq<string>, cs: seq<string>): Option<seq<string>>
    decreases |cs|
  {
    if cs == [] then Some(at)
    else if At(git, at).None? || !At(git, at).value.Directory? then None
    else if cs[0] == "." then PathWalk(git, at, cs[1..])
    else if cs[0] == ".." then (if at == [] then None else PathWalk(git, at[..|at| - 1], cs[1..]))
    else PathWalk(git, at + [cs[0]], cs[1..])
  }

  /** Where `.git/` + name leads. No path has a NUL, and empty components do not count. */
  function GitPath(overlay: RootOverlay, name: string): Option<seq<string>> {
    if ".git" !in overlay || '\0' in name then None else PathWalk(overlay[".git"], [], Parts(name))
  }

  /** The text of the file at a place under `.git`. */
  function TextAt(overlay: RootOverlay, at: seq<string>): Option<string> {
    if ".git" !in overlay then None else
    match At(overlay[".git"], at)
    case Some(File(content, _)) => Some(content)
    case _ => None
  }

  /** Where following HEAD ends: at HEAD itself, or where the target between `ref: ` and
      the closing newline leads. */
  function HeadTarget(overlay: RootOverlay): Option<seq<string>> {
    match TextAt(overlay, ["HEAD"])
    case None => None
    case Some(text) =>
      if "ref: " <= text && |text| > 5 && text[|text| - 1] == '\n' then GitPath(overlay, text[5..|text| - 1])
      else Some(["HEAD"])
  }

  /** What the file HEAD leads to holds. */
  function ResolveHead(overlay: RootOverlay): Option<string> {
    match HeadTarget(overlay)
    case None => None
    case Some(at) => TextAt(overlay, at)
  }

  lemma {:induction false} NonEmptyLength(s: seq<string>)
    ensures |NonEmpty(s)| <= |s|
    ensures NonEmpty(s) == s <==> "" !in s
    ensures "" in s <==> |NonEmpty(s)| < |s|
  {
    if s != [] {
      NonEmptyLength(s[1..]);
      assert s == [s[0]] + s[1..];
    }
  }

  lemma BranchPieces(branch: string)
    requires HEADS <= branch
    ensures SplitSlash(branch) == ["refs"] + (["heads"] + SplitSlash(branch[11..]))
  {
    var name := branch[11..];
    assert branch == "refs" + "/" + ("heads" + "/" + name);
    SplitAtSlash("refs", "heads" + "/" + name);
    SplitAtSlash("heads", name);
    SplitWhole("refs");
    SplitWhole("heads");
  }

  lemma BranchPath(branch: string)
    requires HEADS <= branch
    ensures var path := SplitSlash(branch);
      && |path| >= 3 && path[..2] == ["refs", "heads"]
      && Parts(branch) == ["refs", "heads"] + NonEmpty(path[2..])
  {
    hide SplitSlash;
    BranchPieces(branch);
    var rest := SplitSlash(branch[11..]);
    var path := SplitSlash(branch);
    assert path[2..] == rest;
    assert path[1..] == ["heads"] + rest && (["heads"] + rest)[1..] == rest;
    assert NonEmpty(path) == ["refs"] + (["heads"] + NonEmpty(rest));
  }

  lemma NothingUnderFreshHeads(git: SyntheticEntry, q: seq<string>)
    requires At(git, ["refs", "heads"]) == Some(Dir(map[]))
    requires |q| > 2 && q[..2] == ["refs", "heads"]
    ensures At(git, q) == None
  {
    assert q == ["refs", "heads"] + q[2..];
    AtAppend(git, ["refs", "heads"], q[2..]);
  }

  /** On a fresh overlay the splice never panics, and HEAD becomes symbolic. */
  lemma {:induction false} A2Succeeds(overlay: RootOverlay, branch: string, commitHex: string)
    requires FreshHeads(overlay) && HEADS <= branch
    ensures ApplyA2(overlay, branch, commitHex).Some?
  {
    BranchPath(branch);
    var path := SplitSlash(branch);
    var headed := SpliceChild(overlay, "HEAD", "ref: " + branch + "\n").value;
    HeadedKeepsRefs(overlay, "ref: " + branch + "\n", ["refs", "heads"]);
    forall n | 0 < n < |path| && At(headed[".git"], path[..n]).Some?
      ensures At(headed[".git"], path[..n]).value.Directory?
    {
      if n == 1 {
        assert path[..2] == path[..1] + [path[1]];
        AtAppend(headed[".git"], path[..1], [path[1]]);
      } else if n > 2 {
        assert path[..n][..2] == path[..2];
        NothingUnderFreshHeads(headed[".git"], path[..n]);
      }
    }
    SpliceSucceedsIff(headed[".git"].children, path, commitHex + "\n");
  }

  /** Replacing HEAD touches no path that starts elsewhere. */
  lemma HeadedKeepsRefs(overlay: RootOverlay, content: string, q: seq<string>)
    requires ".git" in overlay && overlay[".git"].Directory?
    requires q != [] && q[0] != "HEAD"
    ensures At(SpliceChild(overlay, "HEAD", content).value[".git"], q) == At(overlay[".git"], q)
  {
  }

  lemma DifferentFirst(q: seq<string>, path: seq<string>)
    requires q != [] && path != [] && q[0] != path[0]
    ensures q != path && !ProperPrefix(q, path) && !ProperPrefix(path, q)
  {
    if |q| <= |path| {
      assert path[..|q|][0] == path[0];
    } else {
      assert q[..|path|][0] == q[0];
    }
  }

  /** On a fresh detached overlay exactly the branches under `refs/heads/` can be given. */
  lemma A2SucceedsIff(overlay: RootOverlay, branch: string, commitHex: string)
    requires FreshHeads(overlay)
    ensures ApplyA2(overlay, branch, commitHex).Some? <==> "refs/heads/" <= branch
  {
    if HEADS <= branch {
      A2Succeeds(overlay, branch, commitHex);
    }
  }

  /** After the splice every path under `.git/` is accounted for: HEAD is the symbolic
      reference, the branch file holds the commit, its parents are directories, and any
      other path resolves as before. */
  lemma {:induction false} A2Law(overlay: RootOverlay, branch: string, commitHex: string, q: seq<string>)
    requires FreshHeads(overlay) && HEADS <= branch && q != []
    ensures ApplyA2(overlay, branch, commitHex).Some?
    ensures var after := ApplyA2(overlay, branch, commitHex).value;
      var path := SplitSlash(branch);
      && ".git" in after && after.Keys == overlay.Keys
      && (forall name | name in overlay && name != ".git" :: after[name] == overlay[name])
      && if q == ["HEAD"] then At(after[".git"], q) == Some(TextFile("ref: " + branch + "\n"))
         else if q[0] == "HEAD" then At(after[".git"], q) == None
         else if q == path then At(after[".git"], q) == Some(TextFile(commitHex + "\n"))
         else if ProperPrefix(q, path) then At(after[".git"], q).Some? && At(after[".git"], q).value.Directory?
         else At(after[".git"], q) == At(overlay[".git"], q)
  {
    A2Succeeds(overlay, branch, commitHex);
    BranchPath(branch);
    var path := SplitSlash(branch);
    var headed := SpliceChild(overlay, "HEAD", "ref: " + branch + "\n").value;
    SpliceLaw(headed[".git"].children, path, commitHex + "\n", q);
    assert path[0] == path[..2][0] == "refs";
    if q[0] == "HEAD" {
      DifferentFirst(q, path);
      assert q == ["HEAD"] <==> q[1..] == [];
    } else {
      HeadedKeepsRefs(overlay, "ref: " + branch + "\n", q);
      if ProperPrefix(path, q) {
        assert q[..2] == path[..2];
        NothingUnderFreshHeads(overlay[".git"], q);
      }
    }
  }

  /** A walk over plain components through directories takes them as they are. */
  lemma {:induction false} PlainWalk(git: SyntheticEntry, at: seq<string>, cs: seq<string>)
    requires forall c | c in cs :: !Dots(c)
    requires forall n | 0 <= n < |cs| :: At(git, at + cs[..n]).Some? && At(git, at + cs[..n]).value.Directory?
    ensures PathWalk(git, at, cs) == Some(at + cs)
    decreases |cs|
  {
    if cs == [] {
      assert at + cs == at;
    } else {
      assert cs[..0] == [] && at + [] == at;
      assert At(git, at + cs[..0]).Some?;
      assert cs[0] in cs;
      var next := at + [cs[0]];
      forall n | 0 <= n < |cs| - 1
        ensures At(git, next + cs[1..][..n]).Some? && At(git, next + cs[1..][..n]).value.Directory?
      {
        assert next + cs[1..][..n] == at + cs[..n + 1];
      }
      PlainWalk(git, next, cs[1..]);
      assert next + cs[1..] == at + cs;
    }
  }

  predicate Plain(c: string) {
    c != "" && !Dots(c)
  }

  /** No walk ends at a place spelled with dots or an empty name. */
  lemma {:induction false} WalkEndsPlain(git: SyntheticEntry, at: seq<string>, cs: seq<string>)
    requires (forall c | c in at :: Plain(c)) && "" !in cs
    requires PathWalk(git, at, cs).Some?
    ensures forall c | c in PathWalk(git, at, cs).value :: Plain(c)
    decreases |cs|
  {
    if cs != [] {
      var up := if at == [] then [] else at[..|at| - 1];
      forall c | c in up ensures Plain(c) {
        assert c in at;
      }
      assert cs == [cs[0]] + cs[1..];
      assert "" !in cs[1..] && cs[0] != "";
      if cs[0] == ".." {
        WalkEndsPlain(git, up, cs[1..]);
      } else if cs[0] == "." {
        WalkEndsPlain(git, at, cs[1..]);
      } else {
        WalkEndsPlain(git, at + [cs[0]], cs[1..]);
      }
    }
  }

  /** A NUL is in some piece of the path it is in. */
  lemma {:induction false} NulIsInAPiece(p: string)
    ensures (exists c :: c in SplitSlash(p) && '\0' in c) <==> '\0' in p
  {
    PiecesAreSlashless(p);
    if p != "" {
      NulIsInAPiece(p[1..]);
      var rest := SplitSlash(p[1..]);
      assert p == [p[0]] + p[1..];
      if p[0] != '/' {
        assert SplitSlash(p)[0] == [p[0]] + rest[0] && SplitSlash(p)[1..] == rest[1..];
        assert rest == [rest[0]] + rest[1..];
        assert SplitSlash(p)[0] in SplitSlash(p);
        if c :| c in rest && '\0' in c {
          assert c == rest[0] || c in SplitSlash(p)[1..];
        }
      }
    }
  }

  /** Every component can be walked to by its own name. */
  predicate Walkable(branch: string) {
    forall c | c in SplitSlash(branch) :: ValidName(c)
  }

  lemma {:induction false} WalkableIff(branch: string)
    ensures Walkable(branch) <==>
      '\0' !in branch && "" !in SplitSlash(branch) && "." !in SplitSlash(branch) && ".." !in SplitSlash(branch)
  {
    PiecesAreSlashless(branch);
    NulIsInAPiece(branch);
  }

  lemma {:induction false} SymbolicHead(overlay: RootOverlay, branch: string, commitHex: string)
    requires FreshHeads(overlay) && HEADS <= branch
    ensures ApplyA2(overlay, branch, commitHex).Some?
    ensures var after := ApplyA2(overlay, branch, commitHex).value;
      && TextAt(after, ["HEAD"]) == Some("ref: " + branch + "\n")
      && HeadTarget(after) == GitPath(after, branch)
  {
    A2Law(overlay, branch, commitHex, ["HEAD"]);
    var text := "ref: " + branch + "\n";
    assert text[5..|text| - 1] == branch;
  }

  /** Following HEAD leads to the very file the splice wrote exactly when every component
      of the branch is a name a path walk can use: none is empty, `.` or `..`, and none
      has a NUL. */
  lemma {:induction false} HeadLeadsToTheBranchIff(overlay: RootOverlay, branch: string, commitHex: string)
    requires FreshHeads(overlay) && HEADS <= branch
    ensures ApplyA2(overlay, branch, commitHex).Some?
    ensures HeadTarget(ApplyA2(overlay, branch, commitHex).value) == Some(SplitSlash(branch)) <==> Walkable(branch)
  {
    hide SplitSlash, ApplyA2;
    SymbolicHead(overlay, branch, commitHex);
    var after := ApplyA2(overlay, branch, commitHex).value;
    var path, parts := SplitSlash(branch), Parts(branch);
    BranchPath(branch);
    NonEmptyLength(path);
    NonEmptyIn(path);
    WalkableIff(branch);
    A2Law(overlay, branch, commitHex, path);
    if Walkable(branch) {
      forall n | 0 <= n < |path|
        ensures At(after[".git"], [] + path[..n]).Some? && At(after[".git"], [] + path[..n]).value.Directory?
      {
        assert [] + path[..n] == path[..n];
        if n > 0 {
          A2Law(overlay, branch, commitHex, path[..n]);
          assert path[..n][0] == path[..2][0];
        } else {
          GitIsDirectory(overlay, branch, commitHex);
        }
      }
      PlainWalk(after[".git"], [], path);
      assert [] + path == path;
    } else if GitPath(after, branch).Some? {
      WalkEndsPlain(after[".git"], [], parts);
    }
  }

  lemma GitIsDirectory(overlay: RootOverlay, branch: string, commitHex: string)
    requires ApplyA2(overlay, branch, commitHex).Some?
    ensures var after := ApplyA2(overlay, branch, commitHex).value;
      ".git" in after && At(after[".git"], []).Some? && At(after[".git"], []).value.Directory?
  {
  }

  /** No file under `.git` but HEAD holds the commit's line. */
  ghost predicate OnlyHeadHolds(overlay: RootOverlay, commitHex: string) {
    forall q | q != ["HEAD"] :: TextAt(overlay, q) != Some(commitHex + "\n")
  }

  /** So following HEAD yields the commit exactly when the branch is walkable, unless some
      other file already held the same line for a stray walk to end at. */
  lemma {:induction false} HeadResolvesIff(overlay: RootOverlay, branch: string, commitHex: string)
    requires FreshHeads(overlay) && HEADS <= branch
    requires OnlyHeadHolds(overlay, commitHex) && ' ' !in commitHex
    ensures ApplyA2(overlay, branch, commitHex).Some?
    ensures ResolveHead(ApplyA2(overlay, branch, commitHex).value) == Some(commitHex + "\n") <==> Walkable(branch)
  {
    hide SplitSlash, ApplyA2;
    SymbolicHead(overlay, branch, commitHex);
    HeadLeadsToTheBranchIff(overlay, branch, commitHex);
    var after := ApplyA2(overlay, branch, commitHex).value;
    var path := SplitSlash(branch);
    BranchPath(branch);
    var target := HeadTarget(after);
    if target.Some? {
      if target.value == [] {
        GitIsDirectory(overlay, branch, commitHex);
      } else {
        var q := target.value;
        A2Law(overlay, branch, commitHex, q);
        HeadIsNoCommitLine(branch, commitHex);
        assert q != path ==> TextAt(after, q) != Some(commitHex + "\n") by {
          assert q != ["HEAD"] ==> TextAt(overlay, q) != Some(commitHex + "\n");
        }
        assert TextAt(after, path) == Some(commitHex + "\n") by {
          A2Law(overlay, branch, commitHex, path);
          assert path[0] == path[..2][0];
        }
      }
    }
  }

  lemma HeadIsNoCommitLine(branch: string, commitHex: string)
    requires ' ' !in commitHex
    ensures "ref: " + branch + "\n" != commitHex + "\n"
  {
    var text, line := "ref: " + branch + "\n", commitHex + "\n";
    assert text[4] == ' ';
    if |commitHex| > 4 {
      assert line[4] == commitHex[4] && commitHex[4] in commitHex;
    } else if |commitHex| == 4 {
      assert line[4] == '\n';
    }
  }

  /** The detached overlay qualifies for any real commit name and object directory. */
  lemma {:induction false} A1HoldsOnce(commitHex: string, objectsDir: string)
    requires commitHex != "" && '[' !in commitHex && objectsDir != commitHex
    ensures OnlyHeadHolds(A1Overlay(commitHex, objectsDir), commitHex)
  {
    var overlay := A1Overlay(commitHex, objectsDir);
    var line := commitHex + "\n";
    assert line[0] == commitHex[0] && commitHex[0] in commitHex;
    assert "[core]\n"[0] == '[' && A1_CONFIG[0] == "[core]\n"[0];
    SameLine(objectsDir, commitHex);
    forall q | q != ["HEAD"] ensures TextAt(overlay, q) != Some(line) {
      A1TextAt(commitHex, objectsDir, q);
    }
  }

  lemma SameLine(a: string, b: string)
    ensures a + "\n" == b + "\n" ==> a == b
  {
    var x, y := a + "\n", b + "\n";
    assert x[..|x| - 1] == a && y[..|y| - 1] == b;
  }

  lemma {:induction false} A1TextAt(commitHex: string, objectsDir: string, q: seq<string>)
    requires q != ["HEAD"]
    ensures var t := TextAt(A1Overlay(commitHex, objectsDir), q);
      t.Some? ==> t.value == A1_CONFIG || t.value == "" || t.value == objectsDir + "\n"
  {
    var git := A1Overlay(commitHex, objectsDir)[".git"];
    if q != [] && q[0] in git.children {
      var below, r := git.children[q[0]], q[1..];
      assert q == [q[0]] + r && At(git, q) == At(below, r);
      if r != [] && below.Directory? && r[0] in below.children {
        var deeper, u := below.children[r[0]], r[1..];
        assert At(below, r) == At(deeper, u);
        if u != [] && deeper.Directory? && u[0] in deeper.children {
          assert At(deeper, u) == At(deeper.children[u[0]], u[1..]);
        }
      }
    }
  }
}
