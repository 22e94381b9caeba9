/** A directory fetched by remote execution and filed in the Action Cache, from the worker's Tree to the stored one. */
module DirectoryPipeline {
  import opened Common
  import opened Qualifiers
  import opened Messages
  import opened BlobStores
  import opened DirectoryTrees
  import opened AssetReferences
  import opened Translator
  import opened Actions
  import opened ActionCacheStore
  import opened RemoteExecution

  /**
    The entry under a reference is the fetched root, with a Tree in the CAS that means what the worker's Tree means.
   */
  ghost predicate FiledUnder(cas: Cas, ac: map<Key, ActionResult>, platform: Option<Platform>, ref: AssetReference,
                             fn: Function, tree: Tree, at: int)
    requires Convertible(ref)
  {
    var root, stored := DigestOf(fn.algorithm, DirectoryWire(tree.root)),
        Tree(tree.root, Preorder(tree.root.directories));
    TreeResolverFaithful(fn.algorithm, stored.children);
    TreeResolverFaithful(fn.algorithm, ChildPool(tree));
    && GetFrom(ac, platform, ref, fn) == Success(Asset(root, EPOCH, Some(at), DIRECTORY))
    && ac[ActionKey(platform, ref, fn)].outputDirectories ==
        [OutputDirectory("out", root, DigestOf(fn.algorithm, TreeWire(stored)))]
    && Lookup(cas, fn, DigestOf(fn.algorithm, TreeWire(stored))) == Some(TreeWire(stored))
    && HierarchyOf(TreeResolver(fn.algorithm, stored.children), stored.root) ==
         HierarchyOf(TreeResolver(fn.algorithm, ChildPool(tree)), tree.root)
  }

  /** What a Put of the fetched root leaves behind once its uploads are done. */
  lemma PutFiles(found: Cas, uploaded: Cas, ac: map<Key, ActionResult>, platform: Option<Platform>, ref: AssetReference,
                 fn: Function, tree: Tree, at: int)
    requires ContentAddressed(found) && ContentAddressed(uploaded) && Grown(Unpack(found, fn, tree), uploaded)
    requires CompleteTree(fn.algorithm, tree) && Convertible(ref)
    ensures Storable(uploaded, fn, FetchedDirectory(fn, tree, at))
        && ResultFor(fn, FetchedDirectory(fn, tree, at)).Some?
    ensures FiledUnder(WithTree(uploaded, fn, FetchedDirectory(fn, tree, at)),
                       ac[ActionKey(platform, ref, fn) := ResultFor(fn, FetchedDirectory(fn, tree, at)).value],
                       platform, ref, fn, tree, at)
  {
    var data := FetchedDirectory(fn, tree, at);
    FetchedDirectoryIsStorable(found, uploaded, fn, tree, at);
    WithTreeKeeps(uploaded, fn, data);
    DirectoryDigestInjective(fn.algorithm, fn.algorithm, tree.root, tree.root);
    var stored := Tree(tree.root, Preorder(tree.root.directories));
    assert KeyOf(fn, TreeWire(stored)) in WithTree(uploaded, fn, data);
    LookupStored(WithTree(uploaded, fn, data), fn, TreeWire(stored));
    ResultRoundTrip(fn, data);
  }

  /** Another entry of the same directory, under whatever key, leaves what was filed. */
  lemma FiledStays(before: Cas, after: Cas, ac: map<Key, ActionResult>, k: Key, platform: Option<Platform>,
                   other: AssetReference, fn: Function, tree: Tree, at: int)
    requires ContentAddressed(before) && ContentAddressed(after) && Grown(before, after)
    requires Convertible(other) && FiledUnder(before, ac, platform, other, fn, tree, at)
    requires ResultFor(fn, FetchedDirectory(fn, tree, at)).Some?
    ensures FiledUnder(after, ac[k := ResultFor(fn, FetchedDirectory(fn, tree, at)).value], platform, other, fn, tree,
                       at)
  {
    var data := FetchedDirectory(fn, tree, at);
    DirectoryDigestInjective(fn.algorithm, fn.algorithm, tree.root, tree.root);
    ResultRoundTrip(fn, data);
    GrownResolves(before, after, fn);
  }

  class FilingFetcher {
    const fetcher: RemoteExecutionFetcher
    const store: ActionCacheAssetStore

    constructor (fetcher: RemoteExecutionFetcher, store: ActionCacheAssetStore)
      ensures this.fetcher == fetcher && this.store == store
    {
      this.fetcher := fetcher;
      this.store := store;
    }

    /**
      What a directory fetch does after its lookups missed: fetch, file under the fetched URI, file under the whole
      list. With healthy stores, once the worker's Tree holds every child that it refers to, no Put meets a missing
      digest.
     */
    method FetchAndFile(uris: seq<string>, qualifiers: seq<Qualifier>, fn: Function, at: int)
      returns (response: Option<FetchResponse>, code: Code, ghost tree: Tree)
      requires fetcher.cas == store.cas && store.cas.Valid()
      requires QualifiersToCommand(qualifiers).Success? ==> ChecksumParses(QualifiersToCommand(qualifiers).value)
      requires forall uri :: Convertible(CanonicalReference([uri], Stable(qualifiers)))
      modifies fetcher.executionClient, store.cas`blobs, store.actionCache`data
      ensures store.cas.Valid()
      ensures old(Integrity(store.platform, store.cas.blobs, store.actionCache.data)) ==>
          Integrity(store.platform, store.cas.blobs, store.actionCache.data)
      ensures response.Some? && response.value.status == OK ==>
                response.value.digest == DigestOf(fn.algorithm, DirectoryWire(tree.root)) && response.value.uri in uris
      ensures response.Some? && response.value.status == OK && CompleteTree(fn.algorithm, tree)
              && store.cas.healthy && store.actionCache.healthy ==>
                && code == OK
                && FiledUnder(store.cas.blobs, store.actionCache.data, store.platform,
                              CanonicalReference([response.value.uri], Stable(qualifiers)), fn, tree, at)
                && (|uris| > 1 ==>
                      && Convertible(CanonicalReference(uris, Stable(qualifiers)))
                      && FiledUnder(store.cas.blobs, store.actionCache.data, store.platform,
                                    CanonicalReference(uris, Stable(qualifiers)), fn, tree, at))
    {
      ghost var downloaded, executed, wanted, found;
      ghost var before, entries := store.cas.blobs, store.actionCache.data;
      response, code, downloaded, executed, wanted, tree, found := fetcher.FetchDirectory(uris, qualifiers, fn);
      if Integrity(store.platform, before, entries) {
        IntegrityGrows(store.platform, before, store.cas.blobs, entries);
      }
      if code != OK {
        return;
      }
      var data := Asset(response.value.digest, EPOCH, Some(at), DIRECTORY);
      var single := CanonicalReference([response.value.uri], Stable(qualifiers));
      code := File(single, data, fn, found, tree, at);
      if code != OK {
        return;
      }
      if |uris| > 1 {
        var list := CanonicalReference(uris, Stable(qualifiers));
        code := File(list, data, fn, found, tree, at);
      }
    }

    /** One Put of the fetched root; what an earlier one filed stays filed. */
    method File(ref: AssetReference, data: Asset, fn: Function, ghost found: Cas, ghost tree: Tree, ghost at: int)
      returns (code: Code)
      requires store.cas.Valid() && Convertible(ref)
      requires ContentAddressed(found) && Grown(Unpack(found, fn, tree), store.cas.blobs)
      requires data == FetchedDirectory(fn, tree, at)
      modifies store.cas`blobs, store.actionCache`data
      ensures store.cas.Valid() && Grown(old(store.cas.blobs), store.cas.blobs)
      ensures old(Integrity(store.platform, store.cas.blobs, store.actionCache.data)) ==>
          Integrity(store.platform, store.cas.blobs, store.actionCache.data)
      ensures CompleteTree(fn.algorithm, tree) && store.cas.healthy && store.actionCache.healthy ==>
                code == OK && FiledUnder(store.cas.blobs, store.actionCache.data, store.platform, ref, fn, tree, at)
      ensures CompleteTree(fn.algorithm, tree) && store.cas.healthy && store.actionCache.healthy ==>
                forall other | Convertible(other) ::
                  old(FiledUnder(store.cas.blobs, store.actionCache.data, store.platform, other, fn, tree, at)) ==>
                  FiledUnder(store.cas.blobs, store.actionCache.data, store.platform, other, fn, tree, at)
    {
      ghost var before, entries := store.cas.blobs, store.actionCache.data;
      ghost var uploads := Uploads(store.platform, ref, fn);
      StoreAllKeeps(before, fn, uploads);
      code := store.Put(ref, data, fn);
      if CompleteTree(fn.algorithm, tree) && store.cas.healthy && store.actionCache.healthy {
        PutFiles(found, StoreAll(before, fn, uploads), entries, store.platform, ref, fn, tree, at);
        forall other | Convertible(other) && FiledUnder(before, entries, store.platform, other, fn, tree, at)
          ensures FiledUnder(store.cas.blobs, store.actionCache.data, store.platform, other, fn, tree, at)
        {
          FiledStays(before, store.cas.blobs, entries, ActionKey(store.platform, ref, fn), store.platform, other, fn,
                     tree, at);
        }
      }
    }
  }
}
