/** Asset references as Actions, assets as ActionResults, and the referential integrity of an Action Cache. */
module Actions {
  import opened Common
  import opened Qualifiers
  import opened Messages
  import opened BlobStores
  import opened DirectoryTrees
  import opened AssetReferences
  import opened Translator

  // ---- References as Actions ----

  /** The branch that cannot, or may not, generate a Command and passes the URIs as arguments. */
  predicate UrisAsArguments(ref: AssetReference) {
    QualifiersToCommand(SortQualifiers(ref.qualifiers)).Failure? || |ref.uris| > 1
  }

  /** The generating branch takes the one URI of the reference and parses its checksum. */
  predicate Convertible(ref: AssetReference) {
    UrisAsArguments(ref)
        || (|ref.uris| == 1 && ChecksumParses(QualifiersToCommand(SortQualifiers(ref.qualifiers)).value))
  }

  /** The reference without URIs, whose construction also sorts the qualifiers of `ref` in place. */
  function QualifierReference(ref: AssetReference): AssetReference {
    CanonicalReference([], ref.qualifiers)
  }

  function InputRoot(ref: AssetReference, fn: Function): Directory {
    var digest := DigestOf(fn.algorithm, ReferenceWire(QualifierReference(ref)));
    Directory([FileNode("AssetReference", digest, false)], [], [])
  }

  function CommandFor(platform: Option<Platform>, ref: AssetReference): Command
    requires Convertible(ref)
  {
    if UrisAsArguments(ref) then
      Command(ref.uris, ["out"], TREE_AND_DIRECTORY, platform)
    else
      var command := Generate(QualifiersToCommand(SortQualifiers(ref.qualifiers)).value, ref.uris[0]);
      if command.platform.None? then command.(platform := platform) else command
  }

  /** The Action for a reference and the objects it needs in the CAS, in upload order. */
  function AssetReferenceToAction(platform: Option<Platform>, ref: AssetReference, fn: Function): (Action, seq<Wire>)
    requires Convertible(ref)
  {
    var command := CommandFor(platform, ref);
    var directory := InputRoot(ref, fn);
    var action :=
      if UrisAsArguments(ref) then
        Action(DigestOf(fn.algorithm, CommandWire(command)), DigestOf(fn.algorithm, DirectoryWire(directory)), platform)
      else
        Action(DigestOf(fn.algorithm, CommandWire(command)), EmptyDigest(fn.algorithm), command.platform);
    (action, [ReferenceWire(QualifierReference(ref)), DirectoryWire(directory), CommandWire(command)])
  }

  function ActionKey(platform: Option<Platform>, ref: AssetReference, fn: Function): Key
    requires Convertible(ref)
  {
    KeyOf(fn, ActionWire(AssetReferenceToAction(platform, ref, fn).0))
  }

  /** Everything that a Put uploads before it looks at the asset: the Action first, then its objects. */
  function Uploads(platform: Option<Platform>, ref: AssetReference, fn: Function): seq<Wire>
    requires Convertible(ref)
  {
    var (action, objects) := AssetReferenceToAction(platform, ref, fn);
    [ActionWire(action)] + objects
  }

  /** Keys are faithful: with the URIs as arguments they differ exactly when URIs or qualifiers differ as multisets. */
  lemma ActionKeyIffPermutation(platform: Option<Platform>,
                                fn: Function, us: seq<string>, qs: seq<Qualifier>,
                                gn: Function, vs: seq<string>, rs: seq<Qualifier>)
    requires UrisAsArguments(CanonicalReference(us, qs)) && UrisAsArguments(CanonicalReference(vs, rs))
    ensures var r, s := CanonicalReference(us, qs), CanonicalReference(vs, rs);
            ActionKey(platform, r, fn) == ActionKey(platform, s, gn) <==>
              fn == gn && multiset(us) == multiset(vs) && multiset(qs) == multiset(rs)
  {
    var r, s := CanonicalReference(us, qs), CanonicalReference(vs, rs);
    CanonicalIsCanonical(us, qs);
    CanonicalIsCanonical(vs, rs);
    SameActionKeyIff(platform, r, fn, s, gn);
    CanonicalIffPermutation(us, qs, vs, rs);
  }

  lemma SameActionKeyIff(platform: Option<Platform>, r: AssetReference, fn: Function, s: AssetReference, gn: Function)
    requires Canonical(r) && Canonical(s)
    requires UrisAsArguments(r) && UrisAsArguments(s)
    ensures ActionKey(platform, r, fn) == ActionKey(platform, s, gn) <==> fn == gn && r == s
  {
  }

  /** An Action that passes URIs as arguments is never one with a generated Command. */
  lemma BranchesDisjoint(platform: Option<Platform>, r: AssetReference, fn: Function, s: AssetReference, gn: Function)
    requires UrisAsArguments(r)
    requires Convertible(s) && !UrisAsArguments(s)
    ensures ActionKey(platform, r, fn) != ActionKey(platform, s, gn)
  {
  }

  /** With generated Commands the key shows the script only. */
  lemma GeneratedKeyIffScript(platform: Option<Platform>, r: AssetReference, fn: Function, s: AssetReference,
                              gn: Function)
    requires Convertible(r) && !UrisAsArguments(r)
    requires Convertible(s) && !UrisAsArguments(s)
    ensures ActionKey(platform, r, fn) == ActionKey(platform, s, gn) <==>
              fn == gn &&
              Script(QualifiersToCommand(SortQualifiers(r.qualifiers)).value, r.uris[0]) ==
              Script(QualifiersToCommand(SortQualifiers(s.qualifiers)).value, s.uris[0])
  {
  }

  /** Equal keys have equal platforms, whatever branch their Actions take. */
  lemma KeysShowPlatform(p: Option<Platform>, r: AssetReference, fn: Function,
                         q: Option<Platform>, s: AssetReference, gn: Function)
    requires Convertible(r) && Convertible(s)
    requires ActionKey(p, r, fn) == ActionKey(q, s, gn)
    ensures p == q
  {
  }

  // ---- Assets as ActionResults ----

  /** The ActionResult for an asset, read off its digest; None when a directory asset does not name a Directory. */
  function ResultFor(fn: Function, data: Asset): Option<ActionResult> {
    match data.assetType
    case BLOB => Some(ActionResult([OutputFile("out", data.digest)], [], 0, data.lastUpdated))
    case DIRECTORY =>
      (match NamedDirectory(data.digest)
       case None => None
       case Some(root) =>
         var tree := Tree(root, Preorder(root.directories));
         var output := OutputDirectory("out", data.digest, DigestOf(fn.algorithm, TreeWire(tree)));
         Some(ActionResult([], [output], 0, data.lastUpdated)))
    case UnknownType(_) => None
  }

  /** A CAS from which the ActionResult for an asset can be built. */
  predicate Storable(cas: Cas, fn: Function, data: Asset)
    requires ContentAddressed(cas)
  {
    match data.assetType
    case BLOB => true
    case DIRECTORY =>
      CasResolverFaithful(cas, fn);
      var root := CasResolver(cas, fn)(data.digest);
      root.Some? && ExpandNodes(CasResolver(cas, fn), root.value.directories).Some?
    case UnknownType(_) => false
  }

  /** The CAS once the Tree of a directory asset was uploaded. */
  function WithTree(cas: Cas, fn: Function, data: Asset): Cas {
    if data.assetType.DIRECTORY? && NamedDirectory(data.digest).Some? then
      var root := NamedDirectory(data.digest).value;
      Store(cas, fn, TreeWire(Tree(root, Preorder(root.directories))))
    else cas
  }

  /** The digest of the last of some outputs that has the path. */
  function LastNamed<T>(outputs: seq<T>, pathOf: T -> string, digestOf: T -> Digest, path: string): Option<Digest> {
    if outputs == [] then None
    else
      var n := |outputs| - 1;
      if pathOf(outputs[n]) == path then Some(digestOf(outputs[n]))
      else LastNamed(outputs[..n], pathOf, digestOf, path)
  }

  function FilePath(file: OutputFile): string { file.path }

  function FileDigest(file: OutputFile): Digest { file.digest }

  function DirectoryPath(directory: OutputDirectory): string { directory.path }

  function RootDigest(directory: OutputDirectory): Digest { directory.rootDirectoryDigest }

  function TreeDigest(directory: OutputDirectory): Digest { directory.treeDigest }

  function LastRootNamed(directories: seq<OutputDirectory>, path: string): Option<Digest> {
    LastNamed(directories, DirectoryPath, RootDigest, path)
  }

  function LastTreeNamed(directories: seq<OutputDirectory>, path: string): Option<Digest> {
    LastNamed(directories, DirectoryPath, TreeDigest, path)
  }

  function LastFileNamed(files: seq<OutputFile>, path: string): Option<Digest> {
    LastNamed(files, FilePath, FileDigest, path)
  }

  function OrElse(found: Option<Digest>, fallback: Digest): Digest {
    match found case Some(digest) => digest case None => fallback
  }

  /** The loop over outputs in which each match replaces the digest. */
  method FindDigest<T>(outputs: seq<T>, pathOf: T -> string, digestOf: T -> Digest, path: string, fallback: Digest)
    returns (digest: Digest)
    ensures digest == OrElse(LastNamed(outputs, pathOf, digestOf, path), fallback)
  {
    digest := fallback;
    for i := 0 to |outputs|
      invariant digest == OrElse(LastNamed(outputs[..i], pathOf, digestOf, path), fallback)
    {
      assert outputs[..i + 1][..i] == outputs[..i];
      if pathOf(outputs[i]) == path {
        digest := digestOf(outputs[i]);
      }
    }
    assert outputs[..|outputs|] == outputs;
  }

  ghost predicate IsLast<T>(outputs: seq<T>, pathOf: T -> string, path: string, i: int) {
    0 <= i < |outputs| && pathOf(outputs[i]) == path && forall j :: i < j < |outputs| ==> pathOf(outputs[j]) != path
  }

  /** Nothing is found exactly when no output has the path, and otherwise the last one that has it. */
  lemma {:induction false} LastNamedFinds<T>(outputs: seq<T>, pathOf: T -> string, digestOf: T -> Digest, path: string)
    ensures LastNamed(outputs, pathOf, digestOf, path).None? <==> forall o :: o in outputs ==> pathOf(o) != path
    ensures forall i :: IsLast(outputs, pathOf, path, i) ==>
              LastNamed(outputs, pathOf, digestOf, path) == Some(digestOf(outputs[i]))
  {
    if outputs != [] {
      var n := |outputs| - 1;
      var rest := outputs[..n];
      LastNamedFinds(rest, pathOf, digestOf, path);
      assert outputs == rest + [outputs[n]];
      forall i | IsLast(outputs, pathOf, path, i) && i < n ensures IsLast(rest, pathOf, path, i) {
        assert forall j :: i < j < n ==> rest[j] == outputs[j];
      }
    }
  }

  /** The asset that an ActionResult stands for: its last directory "out", or else its last file "out". */
  function AssetOf(a: ActionResult): Result<Asset> {
    var root := LastRootNamed(a.outputDirectories, "out");
    var file := LastFileNamed(a.outputFiles, "out");
    if root.Some? && !HashEmpty(root.value) then Success(Asset(root.value, EPOCH, a.queuedTimestamp, DIRECTORY))
    else if file.Some? && !HashEmpty(file.value) then Success(Asset(file.value, EPOCH, a.queuedTimestamp, BLOB))
    else Failure(InvalidArgument)
  }

  /** A digest with a hash: one made by a digest function, or another with a hash that is not empty. */
  predicate Hashed(d: Digest) {
    d.Of? || (d.Opaque? && d.hash != "")
  }

  /**
    Any ActionResult, also one that a worker wrote: the last directory `out` decides if it has a hash; otherwise the
    last file `out` does; and without either there is no asset.
   */
  lemma AssetOfReads(a: ActionResult)
    ensures forall i :: IsLast(a.outputDirectories, DirectoryPath, "out", i) ==>
              var root := a.outputDirectories[i].rootDirectoryDigest;
              Hashed(root) ==>
                AssetOf(a) == Success(Asset(root, Some(0), a.queuedTimestamp, DIRECTORY))
    ensures (forall i :: IsLast(a.outputDirectories, DirectoryPath, "out", i) ==>
               !Hashed(a.outputDirectories[i].rootDirectoryDigest)) ==>
              && (forall j :: IsLast(a.outputFiles, FilePath, "out", j) ==>
                    var file := a.outputFiles[j].digest;
                    AssetOf(a) == if Hashed(file)
                                  then Success(Asset(file, Some(0), a.queuedTimestamp, BLOB))
                                  else Failure(InvalidArgument))
              && ((forall f :: f in a.outputFiles ==> f.path != "out") ==> AssetOf(a) == Failure(InvalidArgument))
  {
    LastNamedFinds(a.outputDirectories, DirectoryPath, RootDigest, "out");
    LastNamedFinds(a.outputFiles, FilePath, FileDigest, "out");
    if LastRootNamed(a.outputDirectories, "out").Some? {
      var i := LastExists(a.outputDirectories, DirectoryPath, "out");
    }
  }

  lemma {:induction false} LastExists<T>(outputs: seq<T>, pathOf: T -> string, path: string) returns (i: int)
    requires exists o :: o in outputs && pathOf(o) == path
    ensures IsLast(outputs, pathOf, path, i)
  {
    var n := |outputs| - 1;
    if pathOf(outputs[n]) == path {
      i := n;
    } else {
      assert outputs == outputs[..n] + [outputs[n]];
      i := LastExists(outputs[..n], pathOf, path);
      assert forall j :: i < j < n ==> outputs[..n][j] == outputs[j];
    }
  }

  /** Converting an asset to an ActionResult and back loses its expiry, and nothing else if its hash is not empty. */
  lemma ResultRoundTrip(fn: Function, data: Asset)
    requires ResultFor(fn, data).Some?
    ensures AssetOf(ResultFor(fn, data).value) ==
              if HashEmpty(data.digest) then Failure(InvalidArgument) else Success(data.(expireAt := EPOCH))
  {
  }

  // ---- Referential integrity ----

  /** A Command in the CAS that produces the one output `out`, as Directory and as Tree, on the platform. */
  ghost predicate CommandComplete(platform: Option<Platform>, cas: Cas, fn: Function, d: Digest) {
    match Lookup(cas, fn, d)
    case Some(CommandWire(command)) =>
      && command.outputPaths == ["out"] && command.outputDirectoryFormat == TREE_AND_DIRECTORY
      && command.platform == platform
    case _ => false
  }

  /** An input root that is empty, or is in the CAS and holds just the file AssetReference, a reference without URIs. */
  ghost predicate InputRootComplete(cas: Cas, fn: Function, d: Digest) {
    || d == EmptyDigest(fn.algorithm)
    || match CasResolver(cas, fn)(d)
       case None => false
       case Some(root) =>
         && |root.files| == 1 && root.directories == [] && root.symlinks == []
         && root.files[0].name == "AssetReference" && !root.files[0].isExecutable
         && match Lookup(cas, fn, root.files[0].digest)
            case Some(ReferenceWire(reference)) => reference.uris == []
            case Some(wire) => wire == EMPTY_BLOB
            case None => false
  }

  /**
    The Action under a key is in the CAS with its Command and its input root; Action and Command carry the platform.
   */
  ghost predicate ActionComplete(platform: Option<Platform>, cas: Cas, k: Key) {
    match Lookup(cas, k.fn, k.digest)
    case Some(ActionWire(action)) =>
      && action.platform == platform
      && CommandComplete(platform, cas, k.fn, action.commandDigest)
      && InputRootComplete(cas, k.fn, action.inputRootDigest)
    case _ => false
  }

  /** An output directory has in the CAS its Tree, its root and every Directory that a path from the root meets. */
  ghost predicate OutputDirectoryComplete(cas: Cas, fn: Function, output: OutputDirectory) {
    match Lookup(cas, fn, output.treeDigest)
    case Some(TreeWire(tree)) =>
      && CasResolver(cas, fn)(output.rootDirectoryDigest) == Some(tree.root)
      && Closed(CasResolver(cas, fn), tree.root.directories)
      && tree.children == Preorder(tree.root.directories)
    case _ => false
  }

  /** A successful result with the one output `out`. */
  ghost predicate OneOutput(result: ActionResult) {
    && result.exitCode == 0 && |result.outputFiles| + |result.outputDirectories| == 1
    && (forall o :: o in result.outputFiles ==> o.path == "out")
    && (forall o :: o in result.outputDirectories ==> o.path == "out")
  }

  ghost predicate EntryComplete(platform: Option<Platform>, cas: Cas, k: Key, result: ActionResult) {
    && ActionComplete(platform, cas, k) && OneOutput(result)
    && forall i :: 0 <= i < |result.outputDirectories| ==>
        OutputDirectoryComplete(cas, k.fn, result.outputDirectories[i])
  }

  /** Every entry of the Action Cache has everything it refers to in the CAS, content of output files excepted. */
  ghost predicate Integrity(platform: Option<Platform>, cas: Cas, ac: map<Key, ActionResult>) {
    forall k :: k in ac ==> EntryComplete(platform, cas, k, ac[k])
  }

  lemma GrownResolves(before: Cas, after: Cas, fn: Function)
    requires ContentAddressed(before) && ContentAddressed(after) && Grown(before, after)
    ensures forall d :: CasResolver(before, fn)(d).Some? ==> CasResolver(after, fn)(d) == CasResolver(before, fn)(d)
    ensures forall d :: Lookup(before, fn, d).Some? ==> Lookup(after, fn, d) == Lookup(before, fn, d)
  {
  }

  lemma ClosedGrows(before: Cas, after: Cas, fn: Function, nodes: seq<DirectoryNode>)
    requires ContentAddressed(before) && ContentAddressed(after) && Grown(before, after)
    requires Closed(CasResolver(before, fn), nodes)
    ensures Closed(CasResolver(after, fn), nodes)
  {
    CasResolverFaithful(before, fn);
    CasResolverFaithful(after, fn);
    GrownResolves(before, after, fn);
    ExpandSucceedsIffClosed(CasResolver(before, fn), nodes);
    MoreResolves(CasResolver(before, fn), CasResolver(after, fn), nodes);
    ExpandSucceedsIffClosed(CasResolver(after, fn), nodes);
  }

  /** Integrity survives every growth of the CAS. */
  lemma IntegrityGrows(platform: Option<Platform>, before: Cas, after: Cas, ac: map<Key, ActionResult>)
    requires ContentAddressed(before) && ContentAddressed(after) && Grown(before, after)
    requires Integrity(platform, before, ac)
    ensures Integrity(platform, after, ac)
  {
    forall k | k in ac ensures EntryComplete(platform, after, k, ac[k]) {
      GrownResolves(before, after, k.fn);
      forall i | 0 <= i < |ac[k].outputDirectories|
        ensures OutputDirectoryComplete(after, k.fn, ac[k].outputDirectories[i])
      {
        var output := ac[k].outputDirectories[i];
        assert OutputDirectoryComplete(before, k.fn, output);
        ClosedGrows(before, after, k.fn, Lookup(before, k.fn, output.treeDigest).value.tree.root.directories);
      }
    }
  }

  lemma IntegrityExtends(platform: Option<Platform>, cas: Cas, ac: map<Key, ActionResult>, k: Key, result: ActionResult)
    requires Integrity(platform, cas, ac) && EntryComplete(platform, cas, k, result)
    ensures Integrity(platform, cas, ac[k := result])
  {
  }

  /** All messages of a list are in the CAS. */
  ghost predicate Stored(cas: Cas, fn: Function, messages: seq<Wire>) {
    forall i :: 0 <= i < |messages| ==> KeyOf(fn, messages[i]) in cas
  }

  /** With the uploads of a Put in the CAS, the Action under its key is complete. */
  lemma UploadsCompleteAction(cas: Cas, platform: Option<Platform>, ref: AssetReference, fn: Function)
    requires ContentAddressed(cas) && Convertible(ref)
    requires Stored(cas, fn, Uploads(platform, ref, fn))
    ensures ActionComplete(platform, cas, ActionKey(platform, ref, fn))
  {
    var uploads := Uploads(platform, ref, fn);
    assert KeyOf(fn, uploads[0]) in cas && KeyOf(fn, uploads[1]) in cas && KeyOf(fn, uploads[2]) in cas
        && KeyOf(fn, uploads[3]) in cas;
    forall i | 0 <= i < |uploads|
      ensures Lookup(cas, fn, DigestOf(fn.algorithm, uploads[i])) == Some(Encode(uploads[i]))
    {
      LookupStored(cas, fn, uploads[i]);
    }
    assert Lookup(cas, fn, DigestOf(fn.algorithm, uploads[1])).Some?;
    assert Lookup(cas, fn, DigestOf(fn.algorithm, uploads[2])) == Some(DirectoryWire(InputRoot(ref, fn)));
    assert Lookup(cas, fn, DigestOf(fn.algorithm, uploads[3])) == Some(CommandWire(CommandFor(platform, ref)));
    assert Lookup(cas, fn, DigestOf(fn.algorithm, uploads[0])) == Some(uploads[0]);
  }

  /** A resource type for which a Command can be generated. */
  predicate KnownType(qualifiers: map<string, string>) {
    && "resource_type" in qualifiers
    && (qualifiers["resource_type"] == "application/x-git" || qualifiers["resource_type"] == "application/octet-stream")
  }

  /**
    A reference has an Action exactly if it lists several URIs, or generates no Command, or has one URI and no
    checksum to take apart that lacks a dash.
   */
  lemma ConvertibleIff(ref: AssetReference)
    ensures var m := AsMap(SortQualifiers(ref.qualifiers));
            Convertible(ref) <==>
              || |ref.uris| > 1 || !KnownType(m)
              || (|ref.uris| == 1
                  && (m["resource_type"] == "application/octet-stream" && "checksum.sri" in m ==>
                        '-' in m["checksum.sri"]))
  {
  }

  /**
    What the uploads of a Put say when they are read back from the CAS, starting at its key. Several URIs, or a
    resource type that is missing or unknown, make the URIs the arguments and the qualifiers a file of the input root;
    otherwise a shell runs one script in an empty root. The uploads come in the order Action, reference, input root,
    Command.
   */
  lemma UploadsDescribe(cas: Cas, platform: Option<Platform>, ref: AssetReference, fn: Function)
    requires ContentAddressed(cas) && Convertible(ref)
    requires Stored(cas, fn, Uploads(platform, ref, fn))
    ensures var uploads := Uploads(platform, ref, fn);
            && |uploads| == 4 && uploads[0].ActionWire? && uploads[1].ReferenceWire?
            && uploads[2].DirectoryWire? && uploads[3].CommandWire?
            && Lookup(cas, fn, ActionKey(platform, ref, fn).digest) == Some(uploads[0])
            && Lookup(cas, fn, uploads[0].action.commandDigest) == Some(uploads[3])
    ensures var uploads := Uploads(platform, ref, fn);
            var action, command := uploads[0].action, uploads[3].command;
            && action.platform == platform && command.platform == platform
            && if |ref.uris| > 1 || !KnownType(AsMap(SortQualifiers(ref.qualifiers))) then
                 && command.arguments == ref.uris
                 && Lookup(cas, fn, action.inputRootDigest) == Some(uploads[2])
                 && |uploads[2].directory.files| == 1
                 && Lookup(cas, fn, uploads[2].directory.files[0].digest) ==
                    Some(Encode(ReferenceWire(AssetReference([], SortQualifiers(ref.qualifiers)))))
               else
                 && |command.arguments| == 3 && command.arguments[0] == "sh" && command.arguments[1] == "-c"
                 && action.inputRootDigest == EmptyDigest(fn.algorithm)
  {
  }

  /** Once its Tree is uploaded, the ActionResult of a storable asset has complete output directories. */
  lemma StorableCompletesResult(before: Cas, after: Cas, fn: Function, data: Asset)
    requires ContentAddressed(before) && ContentAddressed(after) && Grown(before, after)
    requires Storable(before, fn, data) && Grown(WithTree(before, fn, data), after)
    ensures ResultFor(fn, data).Some? && OneOutput(ResultFor(fn, data).value)
    ensures forall i :: 0 <= i < |ResultFor(fn, data).value.outputDirectories| ==>
              OutputDirectoryComplete(after, fn, ResultFor(fn, data).value.outputDirectories[i])
  {
    if data.assetType.DIRECTORY? {
      CasResolverFaithful(before, fn);
      var root := CasResolver(before, fn)(data.digest).value;
      var tree := Tree(root, Preorder(root.directories));
      assert KeyOf(fn, TreeWire(tree)) in WithTree(before, fn, data);
      LookupStored(after, fn, TreeWire(tree));
      ExpandSucceedsIffClosed(CasResolver(before, fn), root.directories);
      ClosedGrows(before, after, fn, root.directories);
      GrownResolves(before, after, fn);
    }
  }

  /** The entry of a finished Put is complete. */
  lemma PutCompletesEntry(uploaded: Cas, platform: Option<Platform>, ref: AssetReference, fn: Function, data: Asset)
    requires ContentAddressed(uploaded) && Convertible(ref)
    requires Stored(uploaded, fn, Uploads(platform, ref, fn)) && Storable(uploaded, fn, data)
    ensures ContentAddressed(WithTree(uploaded, fn, data)) && Grown(uploaded, WithTree(uploaded, fn, data))
    ensures ResultFor(fn, data).Some?
    ensures EntryComplete(platform, WithTree(uploaded, fn, data), ActionKey(platform, ref, fn),
                          ResultFor(fn, data).value)
  {
    var after := WithTree(uploaded, fn, data);
    WithTreeKeeps(uploaded, fn, data);
    StorableCompletesResult(uploaded, after, fn, data);
    forall i | 0 <= i < |Uploads(platform, ref, fn)| ensures KeyOf(fn, Uploads(platform, ref, fn)[i]) in after {
      assert KeyOf(fn, Uploads(platform, ref, fn)[i]) in uploaded;
    }
    UploadsCompleteAction(after, platform, ref, fn);
  }

  lemma WithTreeKeeps(cas: Cas, fn: Function, data: Asset)
    requires ContentAddressed(cas)
    ensures ContentAddressed(WithTree(cas, fn, data)) && Grown(cas, WithTree(cas, fn, data))
  {
  }

  lemma StorableGrows(before: Cas, after: Cas, fn: Function, data: Asset)
    requires ContentAddressed(before) && ContentAddressed(after) && Grown(before, after)
    requires Storable(before, fn, data)
    ensures Storable(after, fn, data)
  {
    if data.assetType.DIRECTORY? {
      CasResolverFaithful(before, fn);
      CasResolverFaithful(after, fn);
      GrownResolves(before, after, fn);
      MoreResolves(CasResolver(before, fn), CasResolver(after, fn),
                   CasResolver(before, fn)(data.digest).value.directories);
    }
  }
}
