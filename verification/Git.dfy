/** Identifiers, objects and errors shared by every component. */
module Git {
  datatype Option<+T> = None | Some(value: T)

  datatype Result<+T, +E> = Ok(value: T) | Err(error: E)

  newtype HexDigit = d: int | 0 <= d < 16

  type HexDigits = s: seq<HexDigit> | |s| == 40 witness seq(40, _ => 0)

  /** A SHA-1 object name, kept as its forty hexadecimal digits. */
  datatype Oid = Oid(digits: HexDigits)

  newtype Byte = b: int | 0 <= b < 256

  datatype ObjectKind = BlobKind | TreeKind | CommitKind | TagKind

  /** One record of a git tree object; names are valid UTF-8. */
  datatype RawTreeEntry = RawTreeEntry(name: string, modeRaw: nat, oid: Oid)

  /** A decoded object. A tree or commit whose bytes do not parse carries `None`. */
  datatype Object =
    | Blob(bytes: seq<Byte>)
    | Tree(entries: Option<seq<RawTreeEntry>>, rawSize: nat)
    | Commit(tree: Option<Oid>, rawSize: nat)
    | Tag(rawSize: nat)
  {
    function Kind(): ObjectKind {
      match this
      case Blob(_) => BlobKind
      case Tree(_, _) => TreeKind
      case Commit(_, _) => CommitKind
      case Tag(_) => TagKind
    }

    function Size(): nat {
      if Blob? then |bytes| else rawSize
    }
  }

  datatype Header = Header(kind: ObjectKind, size: nat)

  /** Every object that can ever exist. Content addressing makes it immutable;
      a store holds a growing subset of its keys. */
  type World = map<Oid, Object>

  datatype StoreError =
    | MissingObject(oid: Oid)
    | UnexpectedKind(oid: Oid, expected: ObjectKind, actual: ObjectKind)
    | StoreBackend

  datatype FetcherError =
    | Refused(oid: Oid, msg: string)
    | Transport(oid: Oid, msg: string)
    | NotPresentAfterFetch(oid: Oid)
    | NotHydratable(oid: Oid)
    | FetchBackend(oid: Oid, msg: string)

  datatype HydrateError = InStore(store: StoreError) | InFetcher(fetcher: FetcherError)

  datatype EntryMode = RegularFile | ExecutableFile | SymlinkMode | DirectoryMode | Gitlink

  /** The five modes git writes, in decimal; anything else reads as a regular file. */
  const MODE_FILE: nat := 33188        // 0o100644
  const MODE_EXECUTABLE: nat := 33261  // 0o100755
  const MODE_SYMLINK: nat := 40960     // 0o120000
  const MODE_DIRECTORY: nat := 16384   // 0o040000
  const MODE_GITLINK: nat := 57344     // 0o160000

  function ModeOf(modeRaw: nat): EntryMode {
    if modeRaw == MODE_FILE then RegularFile
    else if modeRaw == MODE_EXECUTABLE then ExecutableFile
    else if modeRaw == MODE_SYMLINK then SymlinkMode
    else if modeRaw == MODE_DIRECTORY then DirectoryMode
    else if modeRaw == MODE_GITLINK then Gitlink
    else RegularFile
  }

  /** The kinds by number, and nothing else is a directory, a symlink or a submodule. */
  lemma ModesByNumber(modeRaw: nat)
    ensures ModeOf(modeRaw).DirectoryMode? <==> modeRaw == 16384
    ensures ModeOf(modeRaw).Gitlink? <==> modeRaw == 57344
    ensures ModeOf(modeRaw).SymlinkMode? <==> modeRaw == 40960
    ensures ModeOf(modeRaw).ExecutableFile? <==> modeRaw == 33261
    ensures ModeOf(modeRaw).RegularFile? <==> modeRaw !in {16384, 57344, 40960, 33261}
  {
  }
}
