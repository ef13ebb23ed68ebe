/** One line of `git cat-file --batch-check`: what git prints and what is read back. */
module StatusLine {
  import opened Git
  import opened Wire

  datatype Parsed = HeaderLine(kind: ObjectKind, size: nat) | MissingLine

  const U64_LIMIT: nat := 0x1_0000_0000_0000_0000

  const WRONG_SHA := "git cat-file --batch-check echoed unexpected sha"
  const BAD_SIZE := "git cat-file --batch-check: unparseable size"
  const UNKNOWN_KIND := "git cat-file --batch-check: unknown response kind"

  /** A line up to its first space, and what follows that space if there is one. */
  function Cut(s: string): (string, Option<string>) {
    if s == "" then ("", None)
    else if s[0] == ' ' then ("", Some(s[1..]))
    else var (head, rest) := Cut(s[1..]); ([s[0]] + head, rest)
  }

  function Lower(c: char): char {
    if 'A' <= c <= 'Z' then (c as int - 'A' as int + 'a' as int) as char else c
  }

  predicate EqIgnoreCase(s: string, t: string) {
    |s| == |t| && forall i | 0 <= i < |s| :: Lower(s[i]) == Lower(t[i])
  }

  predicate IsSpace(c: char) {
    '\t' <= c <= '\r' || c == ' ' || c == '\U{85}' || c == '\U{A0}' || c == '\U{1680}' || '\U{2000}' <= c <= '\U{200A}'
    || c == '\U{2028}' || c == '\U{2029}' || c == '\U{202F}' || c == '\U{205F}' || c == '\U{3000}'
  }

  function TrimStart(s: string): string {
    if s != "" && IsSpace(s[0]) then TrimStart(s[1..]) else s
  }

  function TrimEnd(s: string): string {
    if s != "" && IsSpace(s[|s| - 1]) then TrimEnd(s[..|s| - 1]) else s
  }

  function Digits(s: string): Option<nat> {
    if s == "" then Some(0) else
    match (Digits(s[..|s| - 1]), s[|s| - 1])
    case (Some(n), c) => if '0' <= c <= '9' then Some(10 * n + (c as int - '0' as int)) else None
    case (None, _) => None
  }

  /** Unsigned 64-bit decimal: one leading plus is allowed, no minus, no overflow. */
  function ParseU64(s: string): Option<nat> {
    var body := if |s| > 1 && s[0] == '+' then s[1..] else s;
    if body == "" then None else
    match Digits(body)
    case Some(n) => if n < U64_LIMIT then Some(n) else None
    case None => None
  }

  function ParseLine(oid: Oid, line: string): Result<Parsed, FetcherError> {
    var (sha, tail) := Cut(line);
    var (kind, rest) := if tail.Some? then Cut(tail.value) else ("", None);
    if !EqIgnoreCase(sha, ToHex(oid)) then Err(FetchBackend(oid, WRONG_SHA))
    else if ParseKind(kind).Some? then
      var size := if rest.Some? then ParseU64(TrimEnd(TrimStart(rest.value))) else None;
      if size.Some? then Ok(HeaderLine(ParseKind(kind).value, size.value)) else Err(FetchBackend(oid, BAD_SIZE))
    else if kind == "missing" then Ok(MissingLine)
    else Err(FetchBackend(oid, UNKNOWN_KIND))
  }

  const MISSING_REPORT := "git cat-file --batch-check reported missing"
  const SPAWN := "spawn git cat-file: "
  const BROKEN_QUERY := "git cat-file --batch-check: "

  /** `classify`: what a fetch makes of its response line, the object being there or not. */
  function Verdict(oid: Oid, line: string, present: bool): Result<(), FetcherError> {
    match ParseLine(oid, line)
    case Err(e) => Err(e)
    case Ok(MissingLine) => Err(Refused(oid, MISSING_REPORT))
    case Ok(HeaderLine(_, _)) => if present then Ok(()) else Err(NotPresentAfterFetch(oid))
  }

  /** How the coalescer carries a result: errors as their text. */
  function AsText(r: Result<(), FetcherError>): Result<(), string> {
    if r.Ok? then Ok(()) else Err(Display(r.error))
  }

  // ----------------------------------------------------------- what git prints

  function Decimal(n: nat): (s: string)
    ensures s != "" && forall c | c in s :: '0' <= c <= '9'
  {
    var last := ('0' as int + n % 10) as char;
    if n < 10 then [last] else Decimal(n / 10) + [last]
  }

  function PrintHeader(oid: Oid, kind: ObjectKind, size: nat): string {
    ToHex(oid) + " " + KindText(kind) + " " + Decimal(size)
  }

  function PrintMissing(oid: Oid): string {
    ToHex(oid) + " missing"
  }

  lemma {:induction false} CutAtSpace(head: string, tail: string)
    requires ' ' !in head
    ensures Cut(head + " " + tail) == (head, Some(tail))
    ensures Cut(head) == (head, None)
  {
    if head == "" {
      assert ("" + " " + tail)[1..] == tail;
    } else {
      assert head[0] in head && head[0] != ' ';
      CutAtSpace(head[1..], tail);
      assert (head + " " + tail)[0] == head[0] && (head + " " + tail)[1..] == head[1..] + " " + tail;
      assert [head[0]] + head[1..] == head;
    }
  }

  lemma {:induction false} DigitsOfDecimal(n: nat)
    ensures Digits(Decimal(n)) == Some(n)
  {
    var s := Decimal(n);
    if n < 10 {
      assert s[..0] == "";
    } else {
      assert s[..|s| - 1] == Decimal(n / 10);
      DigitsOfDecimal(n / 10);
    }
  }

  lemma HexHasNoSpace(oid: Oid)
    ensures ' ' !in ToHex(oid)
  {
    forall i | 0 <= i < 40 ensures ToHex(oid)[i] != ' ' {
    }
  }

  /** What git prints is read back exactly, for every object and every 64-bit size. */
  lemma {:induction false} ParseInvertsPrint(oid: Oid, kind: ObjectKind, size: nat)
    requires size < U64_LIMIT
    ensures ParseLine(oid, PrintHeader(oid, kind, size)) == Ok(HeaderLine(kind, size))
    ensures ParseLine(oid, PrintMissing(oid)) == Ok(MissingLine)
  {
    hide ToHex, FromHex, Digits, IsSpace, Cut, KindText, ParseKind, Decimal, TrimStart, TrimEnd, ParseU64, EqIgnoreCase;
    HexHasNoSpace(oid);
    NamesRoundTrip(oid, kind);
    var d := Decimal(size);
    assert PrintHeader(oid, kind, size) == ToHex(oid) + " " + (KindText(kind) + " " + d);
    CutAtSpace(ToHex(oid), KindText(kind) + " " + d);
    KindHasNoSpace(kind);
    CutAtSpace(KindText(kind), d);
    SizeReadsBack(size);
    SameNameIgnoringCase(ToHex(oid));
    assert PrintMissing(oid) == ToHex(oid) + " " + "missing";
    CutAtSpace(ToHex(oid), "missing");
    CutAtSpace("missing", "");
    MissingIsNoKind();
  }

  /** A line as git writes it. */
  lemma {:induction false} LineOfABlob(oid: Oid)
    ensures PrintHeader(oid, BlobKind, 13) == ToHex(oid) + " " + "blob" + " " + "13"
    ensures ParseLine(oid, ToHex(oid) + " " + "blob" + " " + "13") == Ok(HeaderLine(BlobKind, 13))
  {
    hide ParseLine, ToHex;
    Thirteen();
    ParseInvertsPrint(oid, BlobKind, 13);
  }

  lemma Thirteen()
    ensures Decimal(13) == "13"
  {
    assert Decimal(1) == "1";
  }

  lemma MissingIsNoKind()
    ensures ParseKind("missing") == None
  {
  }

  lemma KindHasNoSpace(kind: ObjectKind)
    ensures ' ' !in KindText(kind)
  {
  }

  lemma SameNameIgnoringCase(s: string)
    ensures EqIgnoreCase(s, s)
  {
  }

  lemma SizeReadsBack(size: nat)
    requires size < U64_LIMIT
    ensures ParseU64(TrimEnd(TrimStart(Decimal(size)))) == Some(size)
  {
    hide Digits, IsSpace, Decimal;
    var d := Decimal(size);
    assert d[0] in d && d[|d| - 1] in d;
    NoDigitIsSpace(d[0]);
    NoDigitIsSpace(d[|d| - 1]);
    DigitsOfDecimal(size);
  }

  lemma NoDigitIsSpace(c: char)
    requires '0' <= c <= '9'
    ensures !IsSpace(c)
  {
  }

  // ------------------------------------------------------------ the echo check

  /** Comparing against the printed name ignoring case is reading the name back. */
  lemma {:induction false} EchoNamesTheObject(sha: string, oid: Oid)
    ensures EqIgnoreCase(sha, ToHex(oid)) <==> FromHex(sha) == Some(oid)
  {
    if |sha| == 40 {
      forall i | 0 <= i < 40 ensures Lower(sha[i]) == Lower(ToHex(oid)[i]) <==> DigitOf(sha[i]) == Some(oid.digits[i]) {
        SameDigit(sha[i], oid.digits[i]);
      }
      if forall i | 0 <= i < 40 :: DigitOf(sha[i]) == Some(oid.digits[i]) {
        assert FromHex(sha).value.digits == oid.digits;
      } else if FromHex(sha).Some? {
        var i :| 0 <= i < 40 && DigitOf(sha[i]) != Some(oid.digits[i]);
        assert FromHex(sha).value.digits[i] != oid.digits[i];
      }
    }
  }

  lemma SameDigit(c: char, d: HexDigit)
    ensures Lower(c) == Lower(DigitChar(d)) <==> DigitOf(c) == Some(d)
  {
  }

  /** A line is accepted only if it names the object that was asked for, so a response
      to some other request can never be taken for this one. */
  lemma {:induction false} OtherAnswersAreRejected(oid: Oid, line: string)
    ensures ParseLine(oid, line).Ok? ==> FromHex(Cut(line).0) == Some(oid)
    ensures FromHex(Cut(line).0) != Some(oid) ==> ParseLine(oid, line) == Err(FetchBackend(oid, WRONG_SHA))
  {
    EchoNamesTheObject(Cut(line).0, oid);
  }
}
