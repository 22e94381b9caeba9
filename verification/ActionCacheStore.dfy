/** The asset store that keeps references in an Action Cache and their objects in the CAS. */
module ActionCacheStore {
  import opened Common
  import opened Messages
  import opened BlobStores
  import opened DirectoryTrees
  import opened Actions

  /** What an Action Cache with this content answers to a Get that meets no fault. */
  function GetFrom(ac: map<Key, ActionResult>, platform: Option<Platform>, ref: AssetReference,
                   fn: Function): Result<Asset>
    requires Convertible(ref)
  {
    var k := ActionKey(platform, ref, fn);
    if k in ac then AssetOf(ac[k]) else Failure(NotFound)
  }

  /** The outcome of building an ActionResult when no store call fails. */
  function ConversionCode(cas: Cas, fn: Function, data: Asset): Code
    requires ContentAddressed(cas)
  {
    if Storable(cas, fn, data) then OK
    else if data.assetType.DIRECTORY? && WellFormed(fn, data.digest) && !Present(cas, fn, data.digest) then NotFound
    else InvalidArgument
  }

  /** An algorithm whose digests look like those of another one. */
  predicate SameLength(a: Algorithm, b: Algorithm) {
    a == b || {a, b} == {SHA256, SHA256TREE}
  }

  /**
    Which code refuses an asset: NotFound for a directory whose digest is well formed and absent, InvalidArgument for
    other directories that break somewhere and for unknown types; blobs are never refused.
   */
  lemma RefusalCodes(cas: Cas, fn: Function, data: Asset)
    requires ContentAddressed(cas)
    ensures data.assetType.BLOB? ==> ConversionCode(cas, fn, data) == OK
    ensures data.assetType.UnknownType? ==> ConversionCode(cas, fn, data) == InvalidArgument
    ensures data.assetType.DIRECTORY? && data.digest.NilDigest? ==> ConversionCode(cas, fn, data) == InvalidArgument
    ensures data.assetType.DIRECTORY? && data.digest.Opaque? ==>
              var hash := data.digest.hash;
              ConversionCode(cas, fn, data) ==
                if |hash| == HashLength(fn.algorithm) && data.digest.size >= 0
                   && (forall i :: 0 <= i < |hash| ==> '0' <= hash[i] <= '9' || 'a' <= hash[i] <= 'f') then NotFound
                else InvalidArgument
    ensures data.assetType.DIRECTORY? && data.digest.Of? && !SameLength(data.digest.algorithm, fn.algorithm) ==>
              ConversionCode(cas, fn, data) == InvalidArgument
    ensures data.assetType.DIRECTORY? && data.digest.Of? && SameLength(data.digest.algorithm, fn.algorithm) ==>
              ConversionCode(cas, fn, data) ==
                if Key(fn, data.digest) !in cas && data.digest != Of(fn.algorithm, Blob("")) then NotFound
                else match data.digest.wire
                     case Blob(content) => if content == "" then OK else InvalidArgument
                     case DirectoryWire(directory) =>
                       if Closed(CasResolver(cas, fn), directory.directories) then OK else InvalidArgument
                     case _ => InvalidArgument
  {
    CasResolverFaithful(cas, fn);
    var root := CasResolver(cas, fn)(data.digest);
    if data.assetType.DIRECTORY? && root.Some? {
      ExpandSucceedsIffClosed(CasResolver(cas, fn), root.value.directories);
    }
  }

  /** The CAS content after a Put gave up: the first uploads only, or all of them and perhaps the Tree. */
  ghost predicate PartlyUploaded(before: Cas, after: Cas, fn: Function, uploads: seq<Wire>, data: Asset) {
    || (exists n :: 0 <= n <= |uploads| && after == StoreAll(before, fn, uploads[..n]))
    || after == WithTree(StoreAll(before, fn, uploads), fn, data)
  }

  class ActionCacheAssetStore {
    const actionCache: BlobAccess<ActionResult>
    const cas: ContentAddressableStorage
    const platform: Option<Platform>

    constructor (actionCache: BlobAccess<ActionResult>, cas: ContentAddressableStorage, platform: Option<Platform>)
      ensures this.actionCache == actionCache && this.cas == cas && this.platform == platform
    {
      this.actionCache := actionCache;
      this.cas := cas;
      this.platform := platform;
    }

    method GetDirectory(fn: Function, d: Digest) returns (r: Result<Directory>)
      requires cas.Valid()
      ensures r.Success? ==> CasResolver(cas.blobs, fn)(d) == Some(r.value)
      ensures r.Failure? ==> r.code != OK
      ensures cas.healthy && r.Failure? ==>
                CasResolver(cas.blobs, fn)(d).None? &&
                r.code == if WellFormed(fn, d) && !Present(cas.blobs, fn, d) then NotFound else InvalidArgument
    {
      if !WellFormed(fn, d) {
        return Failure(InvalidArgument);
      }
      var blob := cas.Get(fn, d);
      if blob.Failure? {
        return Failure(blob.code);
      }
      var directory := AsDirectory(blob.value);
      r := if directory.Some? then Success(directory.value) else Failure(InvalidArgument);
    }

    /** Lists a node's Directory and all its descendants by recursion over the CAS. */
    method DirectoryNodeToDirectories(fn: Function, node: DirectoryNode) returns (r: Result<seq<Directory>>)
      requires cas.Valid() && Named(CasResolver(cas.blobs, fn))
      ensures r.Success? ==> ExpandNode(CasResolver(cas.blobs, fn), node) == Some(r.value)
      ensures cas.healthy ==> (r.Success? <==> ExpandNode(CasResolver(cas.blobs, fn), node).Some?)
      decreases NodeWeight(node), 0
    {
      ghost var resolver := CasResolver(cas.blobs, fn);
      var found := GetDirectory(fn, node.digest);
      if found.Failure? {
        return Failure(found.code);
      }
      var directory := found.value;
      WeightOfNamed(node);
      var directories := [directory];
      assert directory.directories[0..] == directory.directories;
      for i := 0 to |directory.directories|
        invariant ExpandNode(resolver, node) == Prepend(directories, ExpandNodes(resolver, directory.directories[i..]))
        invariant Weight(directory.directories[i..]) <= Weight(directory.directories)
      {
        assert directory.directories[i..][1..] == directory.directories[i + 1..];
        PrependAssociates(directories, ExpandNode(resolver, directory.directories[i]),
                          ExpandNodes(resolver, directory.directories[i + 1..]));
        var children := DirectoryNodeToDirectories(fn, directory.directories[i]);
        if children.Failure? {
          return Failure(children.code);
        }
        directories := directories + children.value;
      }
      assert directory.directories[|directory.directories|..] == [] && directories + [] == directories;
      r := Success(directories);
    }

    method DirectoryToTree(fn: Function, directory: Directory) returns (r: Result<Tree>)
      requires cas.Valid() && Named(CasResolver(cas.blobs, fn))
      ensures r.Success? ==>
                r.value.root == directory &&
                ExpandNodes(CasResolver(cas.blobs, fn), directory.directories) == Some(r.value.children)
      ensures cas.healthy ==> (r.Success? <==> ExpandNodes(CasResolver(cas.blobs, fn), directory.directories).Some?)
    {
      ghost var resolver := CasResolver(cas.blobs, fn);
      var children := [];
      assert directory.directories[0..] == directory.directories;
      assert ExpandNodes(resolver, directory.directories).Some? ==>
          [] + ExpandNodes(resolver, directory.directories).value == ExpandNodes(resolver, directory.directories).value;
      for i := 0 to |directory.directories|
        invariant ExpandNodes(resolver, directory.directories) ==
            Prepend(children, ExpandNodes(resolver, directory.directories[i..]))
      {
        assert directory.directories[i..][1..] == directory.directories[i + 1..];
        PrependAssociates(children, ExpandNode(resolver, directory.directories[i]),
                          ExpandNodes(resolver, directory.directories[i + 1..]));
        var nodeChildren := DirectoryNodeToDirectories(fn, directory.directories[i]);
        if nodeChildren.Failure? {
          return Failure(nodeChildren.code);
        }
        children := children + nodeChildren.value;
      }
      assert directory.directories[|directory.directories|..] == [] && children + [] == children;
      r := Success(Tree(directory, children));
    }

    /** Builds the ActionResult of an asset, uploading the Tree of a directory asset. */
    method AssetToActionResult(data: Asset, fn: Function) returns (r: Result<ActionResult>)
      requires cas.Valid()
      modifies cas`blobs
      ensures cas.Valid()
      ensures r.Success? ==>
                Storable(old(cas.blobs), fn, data) && ResultFor(fn, data) == Some(r.value) &&
                cas.blobs == WithTree(old(cas.blobs), fn, data)
      ensures r.Failure? ==> r.code != OK && cas.blobs == old(cas.blobs)
      ensures cas.healthy && r.Failure? ==> r.code == ConversionCode(old(cas.blobs), fn, data)
    {
      CasResolverFaithful(cas.blobs, fn);
      match data.assetType
      case DIRECTORY =>
        var found := GetDirectory(fn, data.digest);
        if found.Failure? {
          return Failure(found.code);
        }
        var directory := found.value;
        var tree := DirectoryToTree(fn, directory);
        if tree.Failure? {
          return Failure(InvalidArgument);
        }
        ExpandIsPreorder(CasResolver(cas.blobs, fn), directory.directories);
        var code := cas.Put(fn, TreeWire(tree.value));
        if code != OK {
          return Failure(code);
        }
        var output := OutputDirectory("out", data.digest, DigestOf(fn.algorithm, TreeWire(tree.value)));
        r := Success(ActionResult([], [output], 0, data.lastUpdated));
      case BLOB =>
        r := Success(ActionResult([OutputFile("out", data.digest)], [], 0, data.lastUpdated));
      case UnknownType(_) =>
        r := Failure(InvalidArgument);
    }

    /** The last directory "out" with a non-empty digest, or else the last file "out". */
    method ActionResultToAsset(a: ActionResult) returns (r: Result<Asset>)
      ensures r == AssetOf(a)
    {
      var digest := FindDigest(a.outputDirectories, DirectoryPath, RootDigest, "out", Opaque("", 0));
      var assetType := DIRECTORY;
      if HashEmpty(digest) {
        assetType := BLOB;
        digest := FindDigest(a.outputFiles, FilePath, FileDigest, "out", digest);
      }
      if HashEmpty(digest) {
        return Failure(InvalidArgument);
      }
      r := Success(Asset(digest, EPOCH, a.queuedTimestamp, assetType));
    }

    method Get(ref: AssetReference, fn: Function) returns (r: Result<Asset>)
      requires Convertible(ref)
      ensures r.Success? ==> r == GetFrom(actionCache.data, platform, ref, fn)
      ensures actionCache.healthy ==> r == GetFrom(actionCache.data, platform, ref, fn)
    {
      var action := AssetReferenceToAction(platform, ref, fn).0;
      var data := actionCache.Get(KeyOf(fn, ActionWire(action)));
      if data.Failure? {
        return Failure(data.code);
      }
      r := ActionResultToAsset(data.value);
    }

    /** Uploads the Action of a reference and then the objects it needs, giving up at the first failure. */
    method UploadAction(ref: AssetReference, fn: Function) returns (code: Code)
      requires cas.Valid() && Convertible(ref)
      modifies cas`blobs
      ensures cas.Valid() && Grown(old(cas.blobs), cas.blobs)
      ensures code == OK ==> cas.blobs == StoreAll(old(cas.blobs), fn, Uploads(platform, ref, fn))
      ensures code != OK ==>
                exists n ::
                  0 <= n <= |Uploads(platform, ref, fn)|
                  && cas.blobs == StoreAll(old(cas.blobs), fn, Uploads(platform, ref, fn)[..n])
      ensures cas.healthy ==> code == OK
    {
      var (action, extraObjs) := AssetReferenceToAction(platform, ref, fn);
      ghost var uploads := Uploads(platform, ref, fn);
      ghost var before := cas.blobs;
      assert uploads[..0] == [];
      code := cas.Put(fn, ActionWire(action));
      if code != OK {
        assert cas.blobs == StoreAll(before, fn, uploads[..0]);
        return;
      }
      StoreKeeps(before, fn, ActionWire(action));
      assert uploads[..1] == [ActionWire(action)] && uploads[..1][1..] == [];
      for i := 0 to |extraObjs|
        invariant cas.Valid() && Grown(before, cas.blobs)
        invariant cas.blobs == StoreAll(before, fn, uploads[..i + 1])
        invariant code == OK
      {
        code := cas.Put(fn, extraObjs[i]);
        if code != OK {
          return;
        }
        assert uploads[..i + 2] == uploads[..i + 1] + [extraObjs[i]];
        StoreAllAppend(before, fn, uploads[..i + 1], [extraObjs[i]]);
        assert [extraObjs[i]][1..] == [];
        StoreKeeps(StoreAll(before, fn, uploads[..i + 1]), fn, extraObjs[i]);
      }
      assert uploads[..|extraObjs| + 1] == uploads;
    }

    /**
      Uploads the Action, its objects and the Tree, and writes the Action Cache last. The Action Cache gains exactly the
      entry of this reference, and only when all else is in the CAS; with healthy stores that happens exactly for
      storable assets. Integrity is kept whatever fails.
     */
    method Put(ref: AssetReference, data: Asset, fn: Function) returns (code: Code)
      requires cas.Valid() && Convertible(ref)
      modifies cas`blobs, actionCache`data
      ensures cas.Valid() && Grown(old(cas.blobs), cas.blobs)
      ensures ContentAddressed(StoreAll(old(cas.blobs), fn, Uploads(platform, ref, fn)))
      ensures code == OK ==>
                && Storable(StoreAll(old(cas.blobs), fn, Uploads(platform, ref, fn)), fn, data)
                && cas.blobs == WithTree(StoreAll(old(cas.blobs), fn, Uploads(platform, ref, fn)), fn, data)
                && ResultFor(fn, data).Some?
                && actionCache.data == old(actionCache.data)[ActionKey(platform, ref, fn) := ResultFor(fn, data).value]
      ensures code != OK ==>
                && actionCache.data == old(actionCache.data)
                && PartlyUploaded(old(cas.blobs), cas.blobs, fn, Uploads(platform, ref, fn), data)
      ensures cas.healthy && actionCache.healthy && code != OK ==>
                cas.blobs == StoreAll(old(cas.blobs), fn, Uploads(platform, ref, fn))
      ensures cas.healthy && actionCache.healthy ==>
                code == ConversionCode(StoreAll(old(cas.blobs), fn, Uploads(platform, ref, fn)), fn, data)
      ensures old(Integrity(platform, cas.blobs, actionCache.data)) ==>
                Integrity(platform, cas.blobs, actionCache.data)
    {
      ghost var before, entries := cas.blobs, actionCache.data;
      ghost var uploads := Uploads(platform, ref, fn);
      StoreAllKeeps(before, fn, uploads);
      assert uploads[..|uploads|] == uploads;
      code := UploadAction(ref, fn);
      if code == OK {
        ghost var uploaded := cas.blobs;
        var result := AssetToActionResult(data, fn);
        if result.Success? {
          PutCompletesEntry(uploaded, platform, ref, fn, data);
          var actionKey := KeyOf(fn, ActionWire(AssetReferenceToAction(platform, ref, fn).0));
          code := actionCache.Put(actionKey, result.value);
        } else {
          code := result.code;
        }
      }
      if Integrity(platform, before, entries) {
        IntegrityGrows(platform, before, cas.blobs, entries);
        if code == OK {
          IntegrityExtends(platform, cas.blobs, entries, ActionKey(platform, ref, fn), ResultFor(fn, data).value);
        }
      }
    }
  }
}
