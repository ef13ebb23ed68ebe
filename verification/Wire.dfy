/** Header probes on the daemon's wire, and the sidecar's reading of any reply. */
module Wire {
  import opened Git
  import opened Probes

  datatype WireProbe =
    | WirePresent(oid: string)
    | WirePresentWithHeader(oid: string, objectKind: string, size: nat)
    | WireHeaderOnly(oid: string, objectKind: string, size: nat)
    | WireError(oid: string, code: string, message: string)

  /** What reading one response off the socket can give; `Other` is any response of
      another kind, carrying its debug text. */
  datatype Reply =
    | ProbesReply(probes: seq<WireProbe>)
    | ErrReply(code: string, message: string)
    | Other(debug: string)

  const BAD_OID := "bad_oid"
  const NOT_ATTACHED := "not_attached"
  const FETCH_FAILED := "fetch_failed"
  const SOURCE_MISMATCH := "source_mismatch"
  const INTERNAL := "internal"

  // ------------------------------------------------------------ names and kinds

  function DigitChar(d: HexDigit): char {
    if d < 10 then ('0' as int + d as int) as char else ('a' as int + (d as int - 10)) as char
  }

  /** Either case is read; only lower case is written. */
  function DigitOf(c: char): Option<HexDigit> {
    if '0' <= c <= '9' then Some((c as int - '0' as int) as HexDigit)
    else if 'a' <= c <= 'f' then Some((c as int - 'a' as int + 10) as HexDigit)
    else if 'A' <= c <= 'F' then Some((c as int - 'A' as int + 10) as HexDigit)
    else None
  }

  function ToHex(oid: Oid): string {
    seq(40, i requires 0 <= i < 40 => DigitChar(oid.digits[i]))
  }

  /** The text forms: forty lower-case digits, and git's names of the four kinds. */
  lemma NamesAreGits(oid: Oid, i: nat)
    requires i < 40
    ensures |ToHex(oid)| == 40 && ToHex(oid)[i] == "0123456789abcdef"[oid.digits[i] as int]
    ensures KindText(BlobKind) == "blob" && KindText(TreeKind) == "tree"
    ensures KindText(CommitKind) == "commit" && KindText(TagKind) == "tag"
  {
  }

  function FromHex(s: string): Option<Oid> {
    if |s| == 40 && forall i | 0 <= i < 40 :: DigitOf(s[i]).Some? then
      Some(Oid(seq(40, i requires 0 <= i < 40 => DigitOf(s[i]).value)))
    else None
  }

  function KindText(kind: ObjectKind): string {
    match kind
    case BlobKind => "blob"
    case TreeKind => "tree"
    case CommitKind => "commit"
    case TagKind => "tag"
  }

  function ParseKind(s: string): Option<ObjectKind> {
    if s == "blob" then Some(BlobKind)
    else if s == "tree" then Some(TreeKind)
    else if s == "commit" then Some(CommitKind)
    else if s == "tag" then Some(TagKind)
    else None
  }

  lemma NamesRoundTrip(oid: Oid, kind: ObjectKind)
    ensures FromHex(ToHex(oid)) == Some(oid)
    ensures ParseKind(KindText(kind)) == Some(kind)
  {
    forall i | 0 <= i < 40 ensures DigitOf(ToHex(oid)[i]) == Some(oid.digits[i]) {
    }
    assert FromHex(ToHex(oid)).value.digits == oid.digits;
  }

  // ------------------------------------------------------------ both directions

  /** An error's own text. */
  function Display(e: FetcherError): string {
    match e
    case Refused(oid, msg) => "remote refused object " + ToHex(oid) + ": " + msg
    case Transport(oid, msg) => "transport error fetching " + ToHex(oid) + ": " + msg
    case NotPresentAfterFetch(oid) => "post-fetch verification failed for " + ToHex(oid) + ": object still absent"
    case NotHydratable(oid) => "fetcher cannot hydrate " + ToHex(oid)
    case FetchBackend(oid, msg) => "fetch backend error for " + ToHex(oid) + ": " + msg
  }

  function ProbeToWire(p: Probe): WireProbe {
    match p
    case Present(oid) => WirePresent(ToHex(oid))
    case PresentWithHeader(oid, kind, size) => WirePresentWithHeader(ToHex(oid), KindText(kind), size)
    case HeaderOnly(oid, kind, size) => WireHeaderOnly(ToHex(oid), KindText(kind), size)
    case ProbeError(oid, e) => WireError(ToHex(oid), FETCH_FAILED, Display(e))
  }

  function DaemonError(oid: Oid, code: string, message: string): FetcherError {
    FetchBackend(oid,
      if code == BAD_OID then "bad_oid: " + message
      else if code == NOT_ATTACHED then "not_attached: " + message
      else if code == FETCH_FAILED then "daemon fetch_failed: " + message
      else if code == SOURCE_MISMATCH then "source_mismatch: " + message
      else if code == INTERNAL then "daemon internal: " + message
      else "daemon " + code + ": " + message)
  }

  /** A wire probe whose name or kind does not parse is ignored. */
  function Decode(w: WireProbe): Option<Probe> {
    match (FromHex(w.oid), w)
    case (None, _) => None
    case (Some(oid), WirePresent(_)) => Some(Present(oid))
    case (Some(oid), WirePresentWithHeader(_, k, size)) =>
      if ParseKind(k).Some? then Some(PresentWithHeader(oid, ParseKind(k).value, size)) else None
    case (Some(oid), WireHeaderOnly(_, k, size)) =>
      if ParseKind(k).Some? then Some(HeaderOnly(oid, ParseKind(k).value, size)) else None
    case (Some(oid), WireError(_, code, message)) => Some(ProbeError(oid, DaemonError(oid, code, message)))
  }

  /** What a probe becomes on its way to the sidecar. */
  function AsSeenBySidecar(p: Probe): Probe {
    if p.ProbeError? then ProbeError(p.oid, FetchBackend(p.oid, "daemon fetch_failed: " + Display(p.error))) else p
  }

  lemma AsSeenKeepsOid(p: Probe)
    ensures AsSeenBySidecar(p).oid == p.oid
  {
  }

  lemma DecodeInvertsEncode(p: Probe)
    ensures Decode(ProbeToWire(p)) == Some(AsSeenBySidecar(p))
  {
    NamesRoundTrip(p.oid, if p.PresentWithHeader? || p.HeaderOnly? then p.kind else BlobKind);
  }

  // ------------------------------------------------------------ merging a reply

  /** Readable probes filed by OID, the first one winning. */
  function FirstWins(wire: seq<WireProbe>): map<Oid, Probe> {
    if wire == [] then map[] else
    var filed := FirstWins(wire[..|wire| - 1]);
    match Decode(wire[|wire| - 1])
    case None => filed
    case Some(p) => if p.oid in filed then filed else filed[p.oid := p]
  }

  function Omitted(oid: Oid): Probe {
    ProbeError(oid, FetchBackend(oid, "daemon omitted probe for this OID"))
  }

  method MergeProbes(oids: seq<Oid>, wire: seq<WireProbe>) returns (out: seq<Probe>)
    ensures out == Drain(oids, FirstWins(wire), Omitted)
  {
    var byOid: map<Oid, Probe> := map[];
    for i := 0 to |wire|
      invariant byOid == FirstWins(wire[..i])
    {
      assert wire[..i + 1][..i] == wire[..i];
      var p := Decode(wire[i]);
      if p.Some? && p.value.oid !in byOid {
        byOid := byOid[p.value.oid := p.value];
      }
    }
    assert wire[..|wire|] == wire;
    out := Reassemble(oids, byOid, Omitted);
  }

  function ErrorForEach(oids: seq<Oid>, e: Oid -> FetcherError): seq<Probe> {
    seq(|oids|, i requires 0 <= i < |oids| => ProbeError(oids[i], e(oids[i])))
  }

  /** `DaemonFetcher::fetch_objects` and `prefetch_headers`, for any reply at all or none. */
  function FromReply(oids: seq<Oid>, op: string, reply: Result<Reply, string>): seq<Probe> {
    match reply
    case Ok(ProbesReply(probes)) => Drain(oids, FirstWins(probes), Omitted)
    case Ok(ErrReply(code, message)) => ErrorForEach(oids, o => DaemonError(o, code, message))
    case Ok(Other(debug)) =>
      ErrorForEach(oids, o => FetchBackend(o, "unexpected response to " + op + ": " + debug))
    case Err(transport) => ErrorForEach(oids, o => Transport(o, transport))
  }

  lemma {:induction false} FirstWinsIsOwn(wire: seq<WireProbe>)
    ensures OwnOid(FirstWins(wire))
  {
    if wire != [] {
      FirstWinsIsOwn(wire[..|wire| - 1]);
    }
  }

  /** However malformed the reply, the sidecar gets one probe per OID it asked for, in
      order, each naming that OID; without a batch reply each of them is an error, of the
      transport if nothing came back and of the backend otherwise. */
  lemma AnyReplyIsOneProbePerInput(oids: seq<Oid>, op: string, reply: Result<Reply, string>)
    ensures |FromReply(oids, op, reply)| == |oids|
    ensures forall i | 0 <= i < |oids| :: FromReply(oids, op, reply)[i].oid == oids[i]
    ensures forall i | 0 <= i < |oids| && (reply.Ok? ==> !reply.value.ProbesReply?) ::
      var probe := FromReply(oids, op, reply)[i];
      && probe.ProbeError? && probe.error.oid == oids[i]
      && (if reply.Ok? then probe.error.FetchBackend? else probe.error == Transport(oids[i], reply.error))
  {
    if reply.Ok? && reply.value.ProbesReply? {
      FirstWinsIsOwn(reply.value.probes);
      BatchNamesItsInputs(oids, FirstWins(reply.value.probes), Omitted);
    }
  }

  /** An OID the daemon's reply says nothing readable about is an error too. */
  lemma {:induction false} OmittedIsAnError(oids: seq<Oid>, op: string, wire: seq<WireProbe>, i: nat)
    requires i < |oids| && forall j | 0 <= j < |wire| :: Decode(wire[j]).Some? ==> Decode(wire[j]).value.oid != oids[i]
    ensures i < |FromReply(oids, op, Ok(ProbesReply(wire)))| && FromReply(oids, op, Ok(ProbesReply(wire)))[i].ProbeError?
  {
    hide Decode;
    FirstWinsReads(wire, oids[i]);
    DrainAt(oids, FirstWins(wire), Omitted, i);
  }

  lemma {:induction false} FirstWinsReads(wire: seq<WireProbe>, o: Oid)
    ensures o in FirstWins(wire) ==> exists j :: 0 <= j < |wire| && Decode(wire[j]).Some? && Decode(wire[j]).value.oid == o
  {
    hide Decode;
    if wire != [] {
      var n := |wire| - 1;
      FirstWinsReads(wire[..n], o);
      if o in FirstWins(wire[..n]) {
        var j :| 0 <= j < n && Decode(wire[..n][j]).Some? && Decode(wire[..n][j]).value.oid == o;
        assert wire[j] == wire[..n][j];
      }
    }
  }

  function Encoded(probes: seq<Probe>): seq<WireProbe> {
    seq(|probes|, i requires 0 <= i < |probes| => ProbeToWire(probes[i]))
  }

  lemma {:induction false} FirstWinsNames(probes: seq<Probe>, o: Oid)
    ensures o in FirstWins(Encoded(probes)) ==> exists j :: 0 <= j < |probes| && probes[j].oid == o
  {
    hide Decode, ProbeToWire, AsSeenBySidecar;
    if probes != [] {
      var n := |probes| - 1;
      assert Encoded(probes)[..n] == Encoded(probes[..n]);
      DecodeInvertsEncode(probes[n]);
      AsSeenKeepsOid(probes[n]);
      FirstWinsNames(probes[..n], o);
      if o in FirstWins(Encoded(probes[..n])) {
        var j :| 0 <= j < n && probes[..n][j].oid == o;
        assert probes[j].oid == o;
      }
    }
  }

  /** Position `i` of the daemon's own answer, filed under its OID. */
  lemma {:induction false} FirstWinsAt(probes: seq<Probe>, i: nat)
    requires i < |probes|
    requires forall x, y | 0 <= x < y < |probes| :: probes[x].oid != probes[y].oid
    ensures probes[i].oid in FirstWins(Encoded(probes))
    ensures FirstWins(Encoded(probes))[probes[i].oid] == AsSeenBySidecar(probes[i])
  {
    hide Decode, ProbeToWire, AsSeenBySidecar;
    var n := |probes| - 1;
    assert Encoded(probes)[..n] == Encoded(probes[..n]);
    DecodeInvertsEncode(probes[n]);
    AsSeenKeepsOid(probes[n]);
    if i < n {
      FirstWinsAt(probes[..n], i);
    } else {
      FirstWinsNames(probes[..n], probes[n].oid);
    }
  }

  /** For pairwise distinct OIDs the sidecar sees the daemon's own probes: same kinds and
      sizes, errors collapsed to a backend error carrying the original text. */
  lemma {:induction false} ProbesSurviveTheWire(oids: seq<Oid>, op: string, probes: seq<Probe>)
    requires |probes| == |oids| && forall i | 0 <= i < |oids| :: probes[i].oid == oids[i]
    requires forall x, y | 0 <= x < y < |oids| :: oids[x] != oids[y]
    ensures FromReply(oids, op, Ok(ProbesReply(Encoded(probes))))
         == seq(|oids|, i requires 0 <= i < |oids| => AsSeenBySidecar(probes[i]))
  {
    var filed := FirstWins(Encoded(probes));
    DrainLength(oids, filed, Omitted);
    forall i | 0 <= i < |oids| ensures Drain(oids, filed, Omitted)[i] == AsSeenBySidecar(probes[i]) {
      FirstWinsAt(probes, i);
      DrainAt(oids, filed, Omitted, i);
    }
  }
}
