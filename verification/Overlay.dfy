/** Synthetic entries spliced onto the projection root, and walking them. */
module Overlay {
  import opened Git
  import opened Paths

  /** Contents of synthetic files are text, one character a byte. */
  datatype SyntheticEntry =
    | File(content: string, modeRaw: nat)
    | Directory(children: map<string, SyntheticEntry>)
    | Symlink(target: string)

  /** Top-level synthetic entries by name. */
  type RootOverlay = map<string, SyntheticEntry>

  type Named = Result<(string, SyntheticEntry), ProjectionError>

  function TextFile(content: string): SyntheticEntry {
    File(content, MODE_FILE)
  }

  /** The entry `cs` leads to, if every step is there. */
  function At(entry: SyntheticEntry, cs: seq<string>): Option<SyntheticEntry>
    decreases |cs|
  {
    if cs == [] then Some(entry)
    else if entry.Directory? && cs[0] in entry.children then At(entry.children[cs[0]], cs[1..])
    else None
  }

  /** The same walk with the errors it reports. */
  function Descend(name: string, entry: SyntheticEntry, cs: seq<string>, walked: string): Named
    decreases |cs|
  {
    if cs == [] then Ok((name, entry))
    else if !entry.Directory? then Err(NotADirectory(cs[0], walked))
    else if cs[0] !in entry.children then Err(NotFound(cs[0], walked))
    else Descend(cs[0], entry.children[cs[0]], cs[1..], walked + "/" + cs[0])
  }

  lemma {:induction false} DescendIsAt(name: string, entry: SyntheticEntry, cs: seq<string>, walked: string)
    ensures Descend(name, entry, cs, walked).Ok? <==> At(entry, cs).Some?
    ensures Descend(name, entry, cs, walked).Ok? ==>
      && Descend(name, entry, cs, walked).value.1 == At(entry, cs).value
      && Descend(name, entry, cs, walked).value.0 == (if cs == [] then name else cs[|cs| - 1])
    decreases |cs|
  {
    if cs != [] && entry.Directory? && cs[0] in entry.children {
      DescendIsAt(cs[0], entry.children[cs[0]], cs[1..], walked + "/" + cs[0]);
    }
  }

  /** When the walk fails, where and how: at the first component that is not there, as not
      found in a directory, as not a directory below anything else. */
  lemma {:induction false} DescendFailsAt(name: string, entry: SyntheticEntry, cs: seq<string>, walked: string, k: nat)
    requires k < |cs| && At(entry, cs[..k]).Some? && At(entry, cs[..k + 1]).None?
    ensures Descend(name, entry, cs, walked) ==
      Err(if At(entry, cs[..k]).value.Directory? then NotFound(cs[k], SlashAll(walked, cs[..k]))
          else NotADirectory(cs[k], SlashAll(walked, cs[..k])))
    decreases k
  {
    assert cs[..k + 1][..k] == cs[..k];
    if k == 0 {
      assert cs[..1] == [cs[0]] && cs[..0] == [] && cs[..1][1..] == [];
    } else {
      assert cs[..k][1..] == cs[1..][..k - 1] && cs[..k + 1][1..] == cs[1..][..k];
      DescendFailsAt(cs[0], entry.children[cs[0]], cs[1..], walked + "/" + cs[0], k - 1);
    }
  }

  /** The parent an error reports: what was walked so far. */
  function SlashAll(walked: string, cs: seq<string>): string
    decreases |cs|
  {
    if cs == [] then walked else SlashAll(walked + "/" + cs[0], cs[1..])
  }

  lemma {:induction false} AtAppend(entry: SyntheticEntry, p: seq<string>, q: seq<string>)
    ensures At(entry, p + q) == match At(entry, p) case None => None case Some(e) => At(e, q)
    decreases |p|
  {
    if p == [] {
      assert p + q == q;
    } else if entry.Directory? && p[0] in entry.children {
      assert (p + q)[1..] == p[1..] + q;
      AtAppend(entry.children[p[0]], p[1..], q);
    }
  }

  // -------------------------------------------------------------- path strings

  function TrimStart(p: string): string {
    if p != "" && p[0] == '/' then TrimStart(p[1..]) else p
  }

  function TrimEnd(p: string): string {
    if p != "" && p[|p| - 1] == '/' then TrimEnd(p[..|p| - 1]) else p
  }

  /** `trim_matches('/')`. */
  function Trim(p: string): string {
    TrimEnd(TrimStart(p))
  }

  lemma {:induction false} TrimStartParts(p: string)
    ensures Parts(TrimStart(p)) == Parts(p)
  {
    if p != "" && p[0] == '/' {
      TrimStartParts(p[1..]);
      assert SplitSlash(p)[1..] == SplitSlash(p[1..]);
    }
  }

  lemma {:induction false} TrimEndParts(p: string)
    ensures Parts(TrimEnd(p)) == Parts(p)
  {
    if p != "" && p[|p| - 1] == '/' {
      var init := p[..|p| - 1];
      TrimEndParts(init);
      assert p == init + "/" + "";
      PartsOfPair(init, "");
      assert Parts("") == [];
    }
  }

  lemma TrimParts(p: string)
    ensures Parts(Trim(p)) == Parts(p)
  {
    TrimStartParts(p);
    TrimEndParts(TrimStart(p));
  }

  lemma {:induction false} TrimEndKeepsFirst(p: string)
    requires p != "" && p[0] != '/'
    ensures TrimEnd(p) != "" && TrimEnd(p)[0] == p[0]
  {
    if p[|p| - 1] == '/' {
      TrimEndKeepsFirst(p[..|p| - 1]);
    }
  }

  lemma {:induction false} TrimStartFirst(p: string)
    ensures TrimStart(p) != "" ==> TrimStart(p)[0] != '/'
  {
    if p != "" && p[0] == '/' {
      TrimStartFirst(p[1..]);
    }
  }

  /** In a trimmed path the text before the first slash is the first component and the
      rest holds the others. */
  lemma {:induction false} FirstPart(t: string)
    requires t != "" && t[0] != '/'
    ensures var first := SplitSlash(t)[0];
      && first != "" && |first| <= |t|
      && Parts(t) == [first] + Parts(t[|first|..])
  {
    var rest := SplitSlash(t[1..]);
    if t[1..] != "" && t[1] != '/' {
      FirstPart(t[1..]);
      var f := rest[0];
      assert SplitSlash(t)[0] == [t[0]] + f;
      assert t[|f| + 1..] == t[1..][|f|..];
      assert Parts(t[1..]) == NonEmpty([f] + rest[1..]) by {
        assert [f] + rest[1..] == rest;
      }
      assert NonEmpty([f] + rest[1..]) == [f] + NonEmpty(rest[1..]);
      assert NonEmpty(rest[1..]) == Parts(t[|f| + 1..]) by {
        var a, b := NonEmpty(rest[1..]), Parts(t[|f| + 1..]);
        assert ([f] + a)[1..] == ([f] + b)[1..];
      }
    } else {
      assert rest[0] == "";
      assert SplitSlash(t)[0] == [t[0]];
      assert NonEmpty(rest) == NonEmpty(rest[1..]);
    }
  }

  /** Either the path has no component at all, or trimming exposes its first one. */
  lemma TrimmedFirst(p: string)
    ensures Trim(p) == "" <==> Parts(p) == []
    ensures Trim(p) != "" ==>
      && SplitSlash(Trim(p))[0] == Parts(p)[0]
      && |SplitSlash(Trim(p))[0]| <= |Trim(p)|
      && Parts(Trim(p)[|SplitSlash(Trim(p))[0]|..]) == Parts(p)[1..]
  {
    TrimParts(p);
    TrimStartFirst(p);
    if TrimStart(p) != "" {
      TrimEndKeepsFirst(TrimStart(p));
      FirstPart(Trim(p));
    }
  }

  /** `resolve_in_synthetic`: the loop walks the non-empty components of `rest`. */
  method ResolveInSynthetic(head: string, entry: SyntheticEntry, rest: string) returns (r: Named)
    ensures r == Descend(head, entry, Parts(rest), head)
  {
    TrimParts(rest);
    TrimmedFirst(rest);
    var trimmed := Trim(rest);
    if trimmed == "" {
      return Ok((head, entry));
    }
    var current, walked := entry, head;
    var cs := NonEmpty(SplitSlash(trimmed));
    ghost var name := head;
    var i := 0;
    while i < |cs|
      invariant 0 <= i < |cs|
      invariant Descend(head, entry, cs, head) == Descend(name, current, cs[i..], walked)
    {
      assert cs[i..][1..] == cs[i + 1..];
      match current {
        case Directory(children) =>
          if cs[i] !in children {
            return Err(NotFound(cs[i], walked));
          }
          if i + 1 == |cs| {
            return Ok((cs[i], children[cs[i]]));
          }
          current := children[cs[i]];
          name := cs[i];
          walked := walked + "/" + cs[i];
        case _ =>
          return Err(NotADirectory(cs[i], walked));
      }
      i := i + 1;
    }
    assert false;
    r := Ok((head, entry));
  }
}
