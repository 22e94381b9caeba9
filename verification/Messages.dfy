/**
  The Remote Execution and Remote Asset messages, their wire form and their digests.

  A digest is the free constructor `Of` applied to the content it names, so digests of different
  contents differ and a Directory cannot contain its own digest. `Opaque` is a digest of content that
  no modelled message has; `NilDigest` is an absent one.
 */
module Messages {
  import opened Common
  import opened Qualifiers

  datatype Algorithm = SHA256 | SHA1 | MD5 | SHA384 | SHA512 | SHA256TREE

  /** A digest function: the instance name and the algorithm. */
  datatype Function = Function(instance: string, algorithm: Algorithm)

  datatype Digest =
    | NilDigest
    | Opaque(hash: string, size: int)
    | Of(algorithm: Algorithm, wire: Wire)

  /** The content of a blob: uninterpreted bytes, or the encoding of a non-empty message. */
  datatype Wire =
    | Blob(content: string)
    | DirectoryWire(directory: Directory)
    | TreeWire(tree: Tree)
    | CommandWire(command: Command)
    | ActionWire(action: Action)
    | ReferenceWire(reference: AssetReference)

  datatype FileNode = FileNode(name: string, digest: Digest, isExecutable: bool)
  datatype SymlinkNode = SymlinkNode(name: string, target: string)
  datatype DirectoryNode = DirectoryNode(name: string, digest: Digest)
  datatype Directory = Directory(files: seq<FileNode>, directories: seq<DirectoryNode>, symlinks: seq<SymlinkNode>)
  datatype Tree = Tree(root: Directory, children: seq<Directory>)

  datatype Platform = Platform(properties: seq<(string, string)>)
  datatype OutputDirectoryFormat = TREE_ONLY | DIRECTORY_ONLY | TREE_AND_DIRECTORY
  datatype Command = Command(
    arguments: seq<string>,
    outputPaths: seq<string>,
    outputDirectoryFormat: OutputDirectoryFormat,
    platform: Option<Platform>)
  datatype Action = Action(commandDigest: Digest, inputRootDigest: Digest, platform: Option<Platform>)

  datatype OutputFile = OutputFile(path: string, digest: Digest)
  datatype OutputDirectory = OutputDirectory(path: string, rootDirectoryDigest: Digest, treeDigest: Digest)
  datatype ActionResult = ActionResult(
    outputFiles: seq<OutputFile>,
    outputDirectories: seq<OutputDirectory>,
    exitCode: int,
    queuedTimestamp: Option<int>)

  datatype AssetReference = AssetReference(uris: seq<string>, qualifiers: seq<Qualifier>)

  /** Times are nanoseconds since the epoch; an absent one is None. */
  datatype AssetType = BLOB | DIRECTORY | UnknownType(number: int)
  datatype Asset = Asset(digest: Digest, expireAt: Option<int>, lastUpdated: Option<int>, assetType: AssetType)

  /** The answer to a fetch of a blob or of a directory. */
  datatype FetchResponse = FetchResponse(status: Code, uri: string, qualifiers: seq<Qualifier>, digest: Digest)

  const EMPTY_DIRECTORY := Directory([], [], [])
  const EMPTY_BLOB := Blob("")
  const EPOCH: Option<int> := Some(0)

  // ---- Wire form and digests ----

  /** Protobuf encodes a message with no field set, of any type, as the empty blob. */
  function Encode(message: Wire): Wire {
    match message
    case DirectoryWire(d) => if d == EMPTY_DIRECTORY then EMPTY_BLOB else message
    case CommandWire(c) => if c == Command([], [], TREE_ONLY, None) then EMPTY_BLOB else message
    case ActionWire(a) => if a == Action(NilDigest, NilDigest, None) then EMPTY_BLOB else message
    case ReferenceWire(r) => if r == AssetReference([], []) then EMPTY_BLOB else message
    case _ => message
  }

  /** The messages that say nothing are encoded alike, and no two others are. */
  lemma EncodedAlikeIff(m: Wire, n: Wire)
    ensures Encode(m) == Encode(n) <==> m == n || (SaysNothing(m) && SaysNothing(n))
    ensures SaysNothing(m) <==> Encode(m) == Blob("")
  {
  }

  /** An empty blob, or a message with no field set. */
  predicate SaysNothing(m: Wire) {
    || m == Blob("") || m == DirectoryWire(Directory([], [], [])) || m == CommandWire(Command([], [], TREE_ONLY, None))
    || m == ActionWire(Action(NilDigest, NilDigest, None)) || m == ReferenceWire(AssetReference([], []))
  }

  function DigestOf(algorithm: Algorithm, message: Wire): Digest {
    Of(algorithm, Encode(message))
  }

  function EmptyDigest(algorithm: Algorithm): Digest {
    Of(algorithm, EMPTY_BLOB)
  }

  /** Reading a blob as a Directory; fails when its bytes are not a Directory. */
  function AsDirectory(wire: Wire): Option<Directory> {
    if wire == EMPTY_BLOB then Some(EMPTY_DIRECTORY)
    else if wire.DirectoryWire? then Some(wire.directory)
    else None
  }

  function AsTree(wire: Wire): Option<Tree> {
    if wire.TreeWire? then Some(wire.tree) else None
  }

  /** The Directory that a digest names, if it names one. */
  function NamedDirectory(d: Digest): Option<Directory> {
    if d.Of? then AsDirectory(d.wire) else None
  }

  predicate HashEmpty(d: Digest) {
    d == NilDigest || (d.Opaque? && d.hash == "")
  }

  predicate ZeroSize(d: Digest) {
    match d
    case NilDigest => true
    case Opaque(_, size) => size == 0
    case Of(_, wire) => wire == EMPTY_BLOB
  }

  function HashLength(algorithm: Algorithm): nat {
    match algorithm
    case SHA256 => 64
    case SHA1 => 40
    case MD5 => 32
    case SHA384 => 96
    case SHA512 => 128
    case SHA256TREE => 64
  }

  predicate IsLowerHex(c: char) {
    '0' <= c <= '9' || 'a' <= c <= 'f'
  }

  /** The digests that NewDigestFromProto accepts under a digest function. */
  predicate WellFormed(fn: Function, d: Digest) {
    match d
    case NilDigest => false
    case Opaque(hash, size) =>
      |hash| == HashLength(fn.algorithm) && size >= 0 && forall i :: 0 <= i < |hash| ==> IsLowerHex(hash[i])
    case Of(algorithm, _) => HashLength(algorithm) == HashLength(fn.algorithm)
  }

  lemma ReferenceDigestInjective(a: Algorithm, b: Algorithm, r: AssetReference, s: AssetReference)
    ensures DigestOf(a, ReferenceWire(r)) == DigestOf(b, ReferenceWire(s)) <==> a == b && r == s
  {
  }

  lemma DirectoryDigestInjective(a: Algorithm, b: Algorithm, d: Directory, e: Directory)
    ensures DigestOf(a, DirectoryWire(d)) == DigestOf(b, DirectoryWire(e)) <==> a == b && d == e
    ensures NamedDirectory(DigestOf(a, DirectoryWire(d))) == Some(d)
  {
  }
}
