/** Slash-separated virtual paths. */
module Paths {
  import opened Git

  datatype ProjectionError =
    | NotFound(component: string, parent: string)
    | NotADirectory(component: string, parent: string)
    | InvalidPath(path: string)
    | ProjectionStore(store: StoreError)

  /** `str::split('/')`: the pieces between slashes, empty ones included. */
  function SplitSlash(p: string): (r: seq<string>)
    ensures |r| >= 1
  {
    if p == "" then [""]
    else if p[0] == '/' then [""] + SplitSlash(p[1..])
    else var rest := SplitSlash(p[1..]); [[p[0]] + rest[0]] + rest[1..]
  }

  function NonEmpty(s: seq<string>): seq<string> {
    if s == [] then [] else (if s[0] == "" then [] else [s[0]]) + NonEmpty(s[1..])
  }

  /** The components of a path: leading, trailing and doubled slashes do not matter. */
  function Parts(p: string): seq<string> {
    NonEmpty(SplitSlash(p))
  }

  predicate Dots(c: string) {
    c == "." || c == ".."
  }

  /** What `split_path` accepts, and the components it yields. */
  function Components(p: string): Result<seq<string>, ProjectionError> {
    if '\0' in p || (exists c | c in Parts(p) :: Dots(c)) then Err(InvalidPath(p)) else Ok(Parts(p))
  }

  method SplitPath(p: string) returns (r: Result<seq<string>, ProjectionError>)
    ensures r == Components(p)
  {
    hide SplitSlash, NonEmpty;
    if '\0' in p {
      return Err(InvalidPath(p));
    }
    var pieces := SplitSlash(p);
    var out: seq<string> := [];
    var i := 0;
    assert pieces[0..] == pieces && [] + Parts(p) == Parts(p);
    while i < |pieces|
      invariant 0 <= i <= |pieces|
      invariant out + NonEmpty(pieces[i..]) == Parts(p)
      invariant forall c | c in out :: !Dots(c)
    {
      var component := pieces[i];
      ghost var rest := NonEmpty(pieces[i + 1..]);
      OnePiece(pieces, i);
      i := i + 1;
      if component == "" {
        continue;
      }
      assert out + ([component] + rest) == (out + [component]) + rest;
      if Dots(component) {
        assert component in Parts(p);
        return Err(InvalidPath(p));
      }
      out := out + [component];
    }
    NoPieces(pieces);
    assert out + [] == out;
    r := Ok(out);
  }

  lemma OnePiece(pieces: seq<string>, i: nat)
    requires i < |pieces|
    ensures NonEmpty(pieces[i..]) == (if pieces[i] == "" then [] else [pieces[i]]) + NonEmpty(pieces[i + 1..])
  {
    assert pieces[i..][1..] == pieces[i + 1..];
  }

  lemma NoPieces(pieces: seq<string>)
    ensures NonEmpty(pieces[|pieces|..]) == []
  {
  }

  predicate Slashless(c: string) {
    c != "" && '/' !in c
  }

  /** A name a directory entry can have and a path can spell. */
  predicate ValidName(c: string) {
    Slashless(c) && '\0' !in c && !Dots(c)
  }

  function Join(cs: seq<string>): string {
    if cs == [] then "" else if |cs| == 1 then cs[0] else cs[0] + "/" + Join(cs[1..])
  }

  /** The `walked` prefix an error message carries, one component longer. */
  function Extend(walked: string, c: string): string {
    if walked == "" then c else walked + "/" + c
  }

  function ExtendAll(walked: string, cs: seq<string>): string
    decreases |cs|
  {
    if cs == [] then walked else ExtendAll(Extend(walked, cs[0]), cs[1..])
  }

  // ----------------------------------------------------------------- splitting

  lemma {:induction false} NonEmptyAppend(a: seq<string>, b: seq<string>)
    ensures NonEmpty(a + b) == NonEmpty(a) + NonEmpty(b)
  {
    if a == [] {
      assert a + b == b;
    } else {
      assert (a + b)[1..] == a[1..] + b;
      NonEmptyAppend(a[1..], b);
    }
  }

  lemma {:induction false} SplitAtSlash(p: string, q: string)
    ensures SplitSlash(p + "/" + q) == SplitSlash(p) + SplitSlash(q)
  {
    var whole := p + "/" + q;
    if p == "" {
      assert whole[1..] == q;
    } else {
      assert whole[0] == p[0] && whole[1..] == p[1..] + "/" + q;
      SplitAtSlash(p[1..], q);
      SplitSteps(p, whole, SplitSlash(p[1..]), SplitSlash(q));
    }
  }

  /** One character of a split: a slash starts a new piece, anything else joins the first. */
  lemma SplitUnfolds(p: string)
    requires p != ""
    ensures |SplitSlash(p[1..])| >= 1
    ensures var rest := SplitSlash(p[1..]);
      SplitSlash(p) == if p[0] == '/' then [""] + rest else [[p[0]] + rest[0]] + rest[1..]
  {
  }

  lemma SplitSteps(p: string, whole: string, rest: seq<string>, more: seq<string>)
    requires p != "" && whole != "" && whole[0] == p[0]
    requires SplitSlash(p[1..]) == rest && SplitSlash(whole[1..]) == rest + more
    ensures SplitSlash(whole) == SplitSlash(p) + more
  {
    hide SplitSlash;
    SplitUnfolds(p);
    SplitUnfolds(whole);
    PushedFirst("", rest, more);
    JoinedFirst([p[0]], rest, more);
  }

  lemma PushedFirst(first: string, rest: seq<string>, more: seq<string>)
    ensures [first] + (rest + more) == [first] + rest + more
  {
  }

  lemma JoinedFirst(c: string, rest: seq<string>, more: seq<string>)
    requires |rest| >= 1
    ensures [c + (rest + more)[0]] + (rest + more)[1..] == [c + rest[0]] + rest[1..] + more
  {
    assert (rest + more)[1..] == rest[1..] + more;
    PushedFirst(c + rest[0], rest[1..], more);
  }

  /** Splitting a path at a slash splits its components. */
  lemma PartsOfPair(p: string, q: string)
    ensures Parts(p + "/" + q) == Parts(p) + Parts(q)
  {
    SplitAtSlash(p, q);
    NonEmptyAppend(SplitSlash(p), SplitSlash(q));
  }

  lemma {:induction false} SplitWhole(c: string)
    requires '/' !in c
    ensures SplitSlash(c) == [c]
  {
    if c != "" {
      SplitWhole(c[1..]);
      assert [c[0]] + c[1..] == c;
    }
  }

  lemma PartsOfName(c: string)
    requires Slashless(c)
    ensures Parts(c) == [c]
  {
    SplitWhole(c);
    assert NonEmpty([c]) == [c] + NonEmpty([]);
  }

  /** Joining components and splitting again gives them back. */
  lemma {:induction false} PartsOfJoin(cs: seq<string>)
    requires forall c | c in cs :: Slashless(c)
    ensures Parts(Join(cs)) == cs
  {
    if |cs| == 1 {
      PartsOfName(cs[0]);
    } else if |cs| > 1 {
      PartsOfPair(cs[0], Join(cs[1..]));
      PartsOfName(cs[0]);
      PartsOfJoin(cs[1..]);
    }
  }

  lemma {:induction false} PiecesAreSlashless(p: string)
    ensures forall c | c in SplitSlash(p) :: '/' !in c
    ensures '\0' !in p ==> forall c | c in SplitSlash(p) :: '\0' !in c
  {
    if p != "" {
      PiecesAreSlashless(p[1..]);
      var rest := SplitSlash(p[1..]);
      assert forall c | c in rest[1..] :: c in rest;
      assert rest[0] in rest;
    }
  }

  lemma {:induction false} NonEmptyIn(s: seq<string>)
    ensures forall c :: c in NonEmpty(s) <==> c in s && c != ""
  {
    if s != [] {
      NonEmptyIn(s[1..]);
      assert s == [s[0]] + s[1..];
    }
  }

  /** Exactly the paths without NUL, `.` and `..` are accepted, every component is then
      a valid name, and the canonical spelling of the components is accepted again
      with the same components. */
  lemma {:induction false} ComponentsRoundTrip(p: string)
    ensures Components(p).Ok? <==> '\0' !in p && "." !in Parts(p) && ".." !in Parts(p)
    ensures Components(p).Ok? ==>
      && (forall c | c in Components(p).value :: ValidName(c))
      && Components(Join(Components(p).value)) == Components(p)
  {
    PiecesAreSlashless(p);
    NonEmptyIn(SplitSlash(p));
    if Components(p).Ok? {
      ComponentsOfJoin(Parts(p));
    }
  }

  lemma {:induction false} JoinHasNoNul(cs: seq<string>)
    requires forall c | c in cs :: '\0' !in c
    ensures '\0' !in Join(cs)
  {
    if |cs| > 1 {
      JoinHasNoNul(cs[1..]);
    }
  }

  lemma {:induction false} ComponentsOfJoin(cs: seq<string>)
    requires forall c | c in cs :: ValidName(c)
    ensures Components(Join(cs)) == Ok(cs)
  {
    PartsOfJoin(cs);
    JoinHasNoNul(cs);
  }

  lemma ComponentsOfPair(p: string, q: string)
    ensures Components(p + "/" + q).Ok? <==> Components(p).Ok? && Components(q).Ok?
    ensures Components(p + "/" + q).Ok? ==>
      Components(p + "/" + q).value == Components(p).value + Components(q).value
  {
    PartsOfPair(p, q);
    assert '\0' in p + "/" + q <==> '\0' in p || '\0' in q;
    forall c ensures c in Parts(p + "/" + q) <==> c in Parts(p) || c in Parts(q) {
    }
  }

  // ------------------------------------------------------------------ prefixes

  lemma {:induction false} ExtendAllAppend(walked: string, a: seq<string>, b: seq<string>)
    ensures ExtendAll(walked, a + b) == ExtendAll(ExtendAll(walked, a), b)
    decreases |a|
  {
    if a == [] {
      assert a + b == b;
    } else {
      assert (a + b)[1..] == a[1..] + b;
      ExtendAllAppend(Extend(walked, a[0]), a[1..], b);
    }
  }

  lemma {:induction false} ExtendAllIsJoin(walked: string, cs: seq<string>)
    requires walked != "" && cs != [] && forall c | c in cs :: c != ""
    ensures ExtendAll(walked, cs) == walked + "/" + Join(cs)
    decreases |cs|
  {
    if |cs| > 1 {
      assert forall c | c in cs[1..] :: c in cs;
      ExtendAllIsJoin(Extend(walked, cs[0]), cs[1..]);
      assert walked + "/" + cs[0] + "/" + Join(cs[1..]) == walked + "/" + (cs[0] + "/" + Join(cs[1..]));
    } else {
      assert cs[1..] == [];
    }
  }

  lemma {:induction false} ExtendFromEmptyIsJoin(cs: seq<string>)
    requires forall c | c in cs :: c != ""
    ensures ExtendAll("", cs) == Join(cs)
  {
    if |cs| == 1 {
      assert cs[1..] == [];
    } else if |cs| > 1 {
      assert forall c | c in cs[1..] :: c in cs;
      assert cs[0] in cs;
      ExtendAllIsJoin(cs[0], cs[1..]);
    }
  }

  /** Walking further below a canonical path spells the joined path. */
  lemma ExtendJoin(cs: seq<string>, c: string)
    requires forall x | x in cs :: x != ""
    requires c != ""
    ensures Extend(Join(cs), c) == Join(cs + [c])
  {
    ExtendFromEmptyIsJoin(cs);
    ExtendFromEmptyIsJoin(cs + [c]);
    ExtendAllAppend("", cs, [c]);
    assert [c][1..] == [];
  }
}
