# The asset index of the Remote Asset service

The service answers FetchBlob, FetchDirectory, PushBlob and PushDirectory of the Remote Asset API. Its core turns URIs and
qualifiers into a storage key, keeps an asset under that key, and converts between Directories, Trees and ActionResults.
This project models that core in Dafny and proves what it is for.

Run `dafny verify dfyconfig.toml` to check all of it.

## How it is modelled

* **Digests** (`Messages.dfy`). A digest is a free constructor over the content that it names. Digests of different contents
  therefore differ, and a Directory cannot contain its own digest, so the recursion over a Directory DAG gets a measure that
  is read off the digest. There are also opaque digests (content that no modelled message has) and absent ones. Every message
  without a field set encodes to the empty blob, and the empty blob is present in every Content Addressable Storage (CAS), as
  the Remote Execution API asks.
* **Stores** (`BlobStores.dfy`, `AssetIndex.dfy`). The CAS and the key-value stores are maps held in classes. The CAS only
  grows. A call on a store that is not `healthy` may fail at any time; all safety results hold for such stores.
* **References and keys** (`Sorting.dfy`, `Qualifiers.dfy`, `AssetReferences.dfy`, `Translator.dfy`, `Actions.dfy`). The
  caller's slices are arrays that are sorted in place; their result is tied to a sorting function whose uniqueness is proved,
  so that any sorting algorithm agrees with it.
* **Directory trees** (`DirectoryTrees.dfy`). Every reading of a DAG goes through a resolver from digests to Directories:
  reading the CAS, or looking among the children of a Tree. Expansion, reachability by paths and the file hierarchy that a DAG
  stands for are three separate definitions, and the results connect them.
* **Action Cache store** (`ActionCacheStore.dfy`, `ActionCacheRefinement.dfy`, `PutProtocol.dfy`, `PutProgress.dfy`). The
  class does what the Go methods do, in order. The protocol takes the same Put apart into single store calls, with any number
  of Puts interleaved, failing reads and writes, writes that fail yet take effect, and uploads of other clients.
  `PutProgress.AloneIsSequentialPut` ties the two together. `ActionCacheRefinement.dfy` says what Get answers after a history
  of Puts, be they one after another or interleaved.
* **Pushes and cached fetches** (`Push.dfy`, `Caching.dfy`, `History.dfy`, `Interleaving.dfy`). `kind` tells FetchBlob from
  FetchDirectory; the two methods are otherwise one. `History.dfy` compares runs of whole requests with a history in which the
  last write wins. `Interleaving.dfy` takes any number of requests apart into single store calls and proves the same of each
  lookup at the time it is made.
* **Remote execution fetcher** (`RemoteExecution.dfy`, `DirectoryPipeline.dfy`). Ghost results hold the executions made and the
  CAS content with which each was made. The pipeline joins the fetch of a directory with the Puts that file it.
* **HTTP fetcher** (`AuthorizationHeaders.dfy`, `Checksums.dfy`, `HttpDownloads.dfy`, `CachedDownloads.dfy`). Go's map
  iteration is an arbitrary choice of the next key. Temporary files have an owner: reading or closing one requires it to be
  open. `CachedDownloads.dfy` calls the
  caching fetcher with the HTTP fetcher behind it, both reading the request's own slices.

Parameters stand for what the service calls and this project does not define: resolving instance name and digest function,
base64 decoding, hash functions, parsing the legacy header JSON, canonical header names, URL syntax and the clock.

## Where the code differs from what one might expect

* The Action Cache store drops the expiry of an asset, so that a cache over it accepts an expired asset again if it is young
  enough (`ActionCacheRefinement.ExpiredIsFreshAgainIff`).
* A Put of a blob asset never checks that the blob is in the CAS (`PutProgress.BlobContentIsNotChecked`). The referential
  integrity proved here therefore leaves out the content of output files.
* Fetches strip volatile qualifiers and pushes do not, so an asset pushed with one is never found
  (`History.PushedIsFetchableIff`).
* A cache hit does not look at the type of the asset: FetchBlob can answer with the root digest of a directory that was
  pushed, and FetchDirectory with the digest of a blob (`History.HitIgnoresType`).
* FetchBlob does not cache a response whose status is not OK; FetchDirectory has no such test, and answers later fetches with
  OK and the digest of that response (`History.NotOkIsServedForDirectoriesOnly`). This concerns other wrapped fetchers only:
  those of this repository return an error with every status that is not OK, as the contract of
  `RemoteExecution.RemoteExecutionFetcher.FetchDirectory` shows.
* A `checksum.sri` qualifier without a dash makes command generation index out of range
  (pkg/qualifier/qualifier_translator.go:89-92). `Translator.ChecksumParses` and `Actions.Convertible` stand for its absence as
  preconditions.
* A request that gives the epoch itself as its minimum age is not treated as giving none: Go compares the two time values with
  `!=`, which also compares their locations. Only an absent minimum age skips the test (`Caching.Fresh`).
* Of several `checksum.sri` qualifiers the HTTP fetcher checks the first; its test for several of them cannot succeed, since
  the variable it reads is shadowed (`Checksums.FirstChecksumWins`). Command generation takes the last
  (`Qualifiers.AsMapLookup`).
* A checksum that decodes to no bytes asks for nothing (`Checksums.MeetsIffSameBytes`).
* With duplicate qualifier names, the Action executed for a fetch and the Action under which the store looks the URI up can
  differ: one takes the last value in request order and the other the greatest
  (`RemoteExecution.DuplicateBranches`, `RemoteExecution.DuplicateResourceTypes`). Among values without blanks they agree
  exactly when no platform is configured and the last value of each name that matters is its greatest
  (`RemoteExecution.ExecutedIsLookedUpIff`). With blanks, other values may happen to give the same script
  (`RemoteExecution.BlanksCanHideDuplicates`).
* References with a generated Command can share an Action key, so that the Action Cache store answers for one of them with
  what was put under another (`ActionCacheRefinement.AnswersForOtherIff`, `ActionCacheRefinement.UnconsultedCollides`); the
  store keyed by references does not. Without blanks in URIs and consulted values that happens exactly when URI, generator and
  all values that the script shows are equal (`ActionCacheRefinement.CollidesIffSameShown`).
* Two keys such as `http_header_url:0:A` and `http_header_url:+0:A` address the same header
  (`AuthorizationHeaders.SignedIndexIsAmbiguous`), and which value is sent then depends on the iteration order
  (`AuthorizationHeaders.OrderIrrelevantIff`).

## Model

| member | source | states |
|---|---|---|
| Sorting.SortInPlace | pkg/storage/asset_reference.go:16-18 | sorting through Less and Swap leaves the slice equal to the one sorted rearrangement of its old content |
| Sorting.Swap | pkg/qualifier/qualifier_sorter.go:16-18 | exchanges exactly two elements and keeps the multiset |
| Sorting.SortPermutes | pkg/storage/asset_reference.go:16-18 | sorting keeps the multiset of elements |
| Sorting.SortedPermutationUnique | pkg/storage/asset_reference.go:16-18 | under a strict total order two sorted permutations are equal, so an unstable sort has one result |
| Sorting.SortEqualIffPermutation | pkg/storage/asset_reference.go:15-20 | two slices sort to the same sequence if and only if they are permutations of each other |
| Sorting.SortIdempotent | pkg/storage/asset_reference.go:15-20 | sorting a sorted slice changes nothing |
| Qualifiers.QualifierOrder | pkg/qualifier/qualifier_sorter.go:12-14 | Less is a strict total order on (name, value) pairs |
| Qualifiers.StringLessIff | pkg/qualifier/qualifier_sorter.go:12-14 | a string comes before another if and only if it is a proper prefix or has the smaller character at the first difference |
| Qualifiers.SortedByNameThenValue | pkg/qualifier/qualifier_sorter.go:12-14 | sorted qualifiers are in order of their names, and those of one name in order of their values |
| Qualifiers.RemoveVolatileQualifiers | pkg/fetch/caching_fetcher.go:137-150 | the loop keeps exactly the stable qualifiers, in order |
| Qualifiers.VolatileIff | pkg/fetch/caching_fetcher.go:141-146 | volatile are exactly the name of the legacy headers and names that start with the prefix of per-URL headers |
| Qualifiers.StableCounts | pkg/fetch/caching_fetcher.go:137-150 | removal keeps each stable qualifier with its multiplicity and no volatile one |
| Qualifiers.StablePermutation | pkg/fetch/caching_fetcher.go:137-150 | removal commutes with reordering |
| Qualifiers.StableUnchangedIff | pkg/fetch/caching_fetcher.go:137-150 | removal changes a list if and only if it holds a volatile qualifier, and is idempotent |
| Qualifiers.StableIgnoresVolatile | pkg/fetch/caching_fetcher.go:137-150 | inserting, dropping or replacing volatile qualifiers anywhere does not show after removal |
| Qualifiers.MakeMap | pkg/qualifier/qualifier_translator.go:11-18 | the map built in the loop is the one whose lookups AsMapLookup describes |
| Qualifiers.AsMapLookup | pkg/qualifier/qualifier_translator.go:13-15 | a name is in the map if and only if some qualifier has it, and its value is that of the last such qualifier |
| Qualifiers.AsMapDistinct | pkg/qualifier/qualifier_translator.go:11-18 | with distinct names the map holds exactly the listed pairs, in whatever order they stand |
| AssetReferences.NewAssetReference | pkg/storage/asset_reference.go:15-20 | sorts both of the caller's arrays in place and returns the canonical reference of their old content |
| AssetReferences.ToArray | pkg/qualifier/qualifier_sorter.go:20-27 | returns a fresh array with the same elements |
| AssetReferences.CanonicalIffPermutation | pkg/storage/asset_reference.go:12-20 | two references are equal if and only if their URIs and their qualifiers are permutations |
| AssetReferences.ReferenceKeyIffPermutation | pkg/storage/blob_access_asset_store.go:28-33 | index keys are equal if and only if digest function, URI multiset and qualifier multiset are |
| Translator.GeneratedFromConsulted | pkg/qualifier/qualifier_translator.go:23-87 | only six qualifiers influence whether a Command is generated and which |
| Translator.ResourceTypeDecides | pkg/qualifier/qualifier_translator.go:25-37 | the two known resource types generate a Command and no others do; one clones the URI and the other one downloads it |
| Translator.GitOptions | pkg/qualifier/qualifier_translator.go:46-54 | branch and commit stand in the script each after its own option |
| Translator.DownloadOptions | pkg/qualifier/qualifier_translator.go:68-76 | user and password stand in the script each after its own option |
| Translator.ChecksumIsCompared | pkg/qualifier/qualifier_translator.go:77-92 | the part before the first dash selects the digest, and the script ends by comparing with what stands before the next dash |
| Translator.SortedStableAgrees | pkg/qualifier/qualifier_translator.go:23-38 | with distinct names, dropping volatile qualifiers and sorting changes no consulted value |
| Translator.AgreeIffLastIsGreatest | pkg/qualifier/qualifier_translator.go:11-18 | a list and its sorted, stripped form agree on everything that command generation looks up if and only if each last value is its name's greatest |
| Translator.HarmlessIff | pkg/qualifier/qualifier_translator.go:23-92 | the sorted list generates a Command by the same generator from the same shown values if and only if the last values that matter are the greatest |
| Translator.ScriptsEqualIff | pkg/qualifier/qualifier_translator.go:46-87 | among URIs and consulted values without blanks, scripts are equal if and only if URI, generator and shown values are, whichever qualifiers either side has; for one and the same URI it may hold blanks |
| Translator.BlanksCanHideValues | pkg/qualifier/qualifier_translator.go:48-54 | two different branch and commit pairs with the same script |
| Translator.SameValueIffLastIsGreatest | pkg/qualifier/qualifier_translator.go:13-15 | with duplicate names the sorted and the unsorted list agree on a name if and only if its last value is its greatest |
| BlobStores.ContentAddressableStorage.Put | pkg/storage/digest.go:13-34 | a message is stored under the digest of its content; a failure leaves the CAS as it was |
| Messages.EncodedAlikeIff | pkg/storage/digest.go:13-34 | two messages have one encoding if and only if they are equal or both have no field set |
| DirectoryTrees.EmptyDirectoryIsEverywhere | pkg/storage/digest.go:36-40 | the empty Directory can be read from every CAS, under the digest of the empty blob |
| BlobStores.StoreAllKeeps | pkg/storage/action_cache_asset_store.go:266-275 | uploading a list keeps the CAS content-addressed, removes nothing, and adds exactly the keys of the list |
| DirectoryTrees.ExpandIsPreorder | pkg/storage/action_cache_asset_store.go:306-324 | a successful expansion is the preorder listing of all non-root nodes with repeats, as many as the unfolded DAG has |
| DirectoryTrees.EqualRootsEqualTrees | pkg/storage/action_cache_asset_store.go:288-324 | equal roots expand to equal Trees in any two stores |
| DirectoryTrees.ExpandSucceedsIffClosed | pkg/storage/action_cache_asset_store.go:306-324 | expansion succeeds if and only if no path of entries meets a Directory that cannot be read |
| DirectoryTrees.BrokenPath | pkg/storage/action_cache_asset_store.go:306-324 | a failed expansion has a path of entries that ends at an unreadable Directory |
| DirectoryTrees.ChildrenAreReachable | pkg/storage/action_cache_asset_store.go:288-324 | on success the children are exactly the Directories that some path from the root reaches |
| DirectoryTrees.HierarchyIffExpand | pkg/storage/action_cache_asset_store.go:306-324 | the file hierarchy below some nodes can be read if and only if they can be expanded |
| DirectoryTrees.ExpansionPreservesMeaning | pkg/storage/action_cache_asset_store.go:288-302 | looking digests up among the Tree's own children gives the file hierarchy that following them through the CAS gives |
| DirectoryTrees.UnpackedReadable | pkg/fetch/remote_execution_fetcher.go:210-230 | after unpacking, the digests of the root and of each child can be read in the CAS |
| DirectoryTrees.UnpackedExpandsIffComplete | pkg/fetch/remote_execution_fetcher.go:210-230 | unpacked into a CAS without Directories, a Tree expands again if and only if it held every child it refers to |
| DirectoryTrees.UnpackedKeepsMeaning | pkg/fetch/remote_execution_fetcher.go:210-230 | a complete Tree unpacked into any CAS expands there and stands for the same file hierarchy |
| DirectoryTrees.PackUnpackIdentity | pkg/fetch/remote_execution_fetcher.go:202-236 | packing a root and unpacking the Tree elsewhere yields the root digest and the same Directory along every path |
| Actions.ActionKeyIffPermutation | pkg/storage/action_cache_asset_store.go:58-104 | with the URIs as arguments, Action keys are equal if and only if digest function, URI and qualifier multisets are |
| Actions.BranchesDisjoint | pkg/storage/action_cache_asset_store.go:87-121 | an Action with the URIs as arguments never has the key of one with a generated Command |
| Actions.GeneratedKeyIffScript | pkg/storage/action_cache_asset_store.go:105-121 | keys of generated Actions are equal if and only if digest function and script are |
| Actions.KeysShowPlatform | pkg/storage/action_cache_asset_store.go:87-121 | equal keys have equal platforms, whichever branch their Actions take |
| Actions.ConvertibleIff | pkg/storage/action_cache_asset_store.go:87-121 | a reference becomes an Action if and only if it lists several URIs, or has no known resource type, or has one URI and no dashless checksum to take apart |
| Actions.ResultRoundTrip | pkg/storage/action_cache_asset_store.go:133-230 | an asset comes back from its ActionResult with its expiry replaced by the epoch, and is refused if its hash is empty |
| Actions.AssetOfReads | pkg/storage/action_cache_asset_store.go:198-230 | for any ActionResult the last directory out decides if it has a hash, otherwise the last file out does, and without either there is no asset |
| Actions.IntegrityGrows | pkg/storage/action_cache_asset_store.go:248-285 | referential integrity of the Action Cache, platforms included, survives every growth of the CAS |
| Actions.UploadsCompleteAction | pkg/storage/action_cache_asset_store.go:255-275 | once the uploads are in the CAS, the Action under the key, its Command and its input root with the AssetReference can be read there, and Action and Command carry the configured platform |
| Actions.UploadsDescribe | pkg/storage/action_cache_asset_store.go:58-124 | read back from the CAS from the key on: Action and Command of the platform; the URIs as arguments and the sorted qualifiers in the input root, or a shell script in an empty root, as number of URIs and resource type decide |
| Actions.StorableCompletesResult | pkg/storage/action_cache_asset_store.go:163-182 | once the Tree is uploaded, the output directory has its Tree, its root and every descendant in the CAS |
| Actions.PutCompletesEntry | pkg/storage/action_cache_asset_store.go:248-285 | the entry that a Put writes is complete at the time of the write: its Action with the configured platform, and one output named out with all that belongs to it |
| ActionCacheStore.ActionCacheAssetStore.DirectoryNodeToDirectories | pkg/storage/action_cache_asset_store.go:306-324 | terminates on every content-addressed CAS and, when no call fails, returns the expansion exactly if there is one |
| ActionCacheStore.ActionCacheAssetStore.DirectoryToTree | pkg/storage/action_cache_asset_store.go:288-302 | the Tree has the given root and the expansion of its entries as children |
| ActionCacheStore.ActionCacheAssetStore.AssetToActionResult | pkg/storage/action_cache_asset_store.go:133-195 | success means a storable asset, its ActionResult and its Tree uploaded; failure leaves the CAS as it was, with the code of the missing part |
| ActionCacheStore.RefusalCodes | pkg/storage/action_cache_asset_store.go:133-195 | an absent directory is NotFound; a malformed digest, content that is no Directory, a path that breaks and an unknown type are InvalidArgument; blobs are never refused |
| ActionCacheStore.ActionCacheAssetStore.ActionResultToAsset | pkg/storage/action_cache_asset_store.go:198-230 | the two loops find the last directory and else the last file named "out" with a non-empty hash |
| Actions.LastNamedFinds | pkg/storage/action_cache_asset_store.go:202-218 | the search that every output loop makes finds the last output with the path, and nothing exactly if no output has it |
| ActionCacheStore.ActionCacheAssetStore.Get | pkg/storage/action_cache_asset_store.go:232-246 | answers from the entry under the Action key of the reference, and is the partner of Put in GetReturnsLastPut |
| ActionCacheStore.ActionCacheAssetStore.UploadAction | pkg/storage/action_cache_asset_store.go:255-275 | uploads the Action and then its objects in order, or a prefix of them when a call fails |
| ActionCacheStore.ActionCacheAssetStore.Put | pkg/storage/action_cache_asset_store.go:248-285 | adds exactly one entry and only for a storable asset; a failed Put adds none and with healthy stores leaves exactly its uploads; integrity is kept whatever fails |
| ActionCacheRefinement.GetReturnsLastUnderKey | pkg/storage/action_cache_asset_store.go:232-285 | for every reference that can be converted, Get returns the last asset put under an equal Action key, up to expiry |
| ActionCacheRefinement.GetAnswersIff | pkg/storage/action_cache_asset_store.go:198-246 | Get answers with digest, type and last update of the last asset put under the key and the epoch as expiry, if and only if the digest was made by a digest function or has a hash; else with InvalidArgument, and NotFound without a Put |
| ActionCacheRefinement.GetFollowsRun | pkg/storage/action_cache_asset_store.go:232-285 | in every reachable state of interleaved and failing Puts, Get returns the asset of the Put whose entry write took effect last under an equal key |
| ActionCacheRefinement.GetAnswersInRunIff | pkg/storage/action_cache_asset_store.go:198-246 | the same in every reachable state of interleaved and failing Puts |
| ActionCacheRefinement.CollidesIff | pkg/storage/action_cache_asset_store.go:87-121 | Puts under different references share a key if and only if both generate the same script under one digest function |
| ActionCacheRefinement.CollidesIffSameShown | pkg/storage/action_cache_asset_store.go:87-121 | without blanks in URIs and consulted values, different references share a key if and only if they name the same URI and agree on generator and shown values |
| ActionCacheRefinement.ExpiredIsFreshAgainIff | pkg/storage/action_cache_asset_store.go:224-229 | read back from the Action Cache, an asset is fresh where the one that was put is not, if and only if it had expired and is young enough |
| ActionCacheRefinement.GetReturnsLastPut | pkg/storage/action_cache_asset_store.go:87-104 | with the URIs as arguments nothing collides, and Get returns the last asset put under an equal reference |
| ActionCacheRefinement.RefinesPlainStore | pkg/storage/action_cache_asset_store.go:20-34 | for every convertible reference both stores answer alike after the same Puts, up to expiry and empty hashes, unless a colliding Put had the last word |
| ActionCacheRefinement.LastWordLost | pkg/storage/action_cache_asset_store.go:105-121 | where a colliding Put had the last word, Get answers with that Put's asset |
| ActionCacheRefinement.AnswersForOtherIff | pkg/storage/action_cache_asset_store.go:105-121 | an asset put under one reference is found under another if and only if the two collide, and never in the reference-keyed store |
| ActionCacheRefinement.UnconsultedCollides | pkg/storage/action_cache_asset_store.go:105-121 | a qualifier that command generation does not consult makes a different reference with the same key |
| PutProtocol.StepKeepsInv | pkg/storage/action_cache_asset_store.go:248-285 | each store call of each Put, failed or not, and each upload of another client keeps the protocol's invariant |
| PutProtocol.RunsKeepIntegrity | pkg/storage/action_cache_asset_store.go:248-285 | over every interleaving of Puts every entry has all it refers to in the CAS, with the configured platform in Action and Command, and is the result of one of the Puts |
| PutProtocol.ReadKeepsTrack | pkg/storage/action_cache_asset_store.go:306-324 | reading one pending node keeps the expansion right even though the CAS grows between reads |
| PutProtocol.FinishedTrack | pkg/storage/action_cache_asset_store.go:288-302 | when no node is pending, what was read one by one is the whole preorder listing |
| PutProtocol.EntryKeepsIntegrity | pkg/storage/action_cache_asset_store.go:283-284 | writing the entry last keeps integrity |
| PutProgress.AdvanceDecreases | pkg/storage/action_cache_asset_store.go:248-324 | each store call of a Put decreases a bound that the unfolded size of the asset gives |
| PutProgress.CallsAreBounded | pkg/storage/action_cache_asset_store.go:248-324 | in any run the number of calls of a Put is bounded by what it started with, whatever other Puts do |
| PutProgress.StorableIsDone | pkg/storage/action_cache_asset_store.go:248-324 | in any run, a Put whose asset is storable and that meets no fault of its own never gives up and is done within the bounded number of calls |
| PutProgress.AloneExpands | pkg/storage/action_cache_asset_store.go:306-324 | reading pending nodes one by one computes what the recursion computes |
| PutProgress.AloneIsSequentialPut | pkg/storage/action_cache_asset_store.go:248-285 | run by itself, the protocol ends in exactly the state that the contract of Put gives for healthy stores |
| PutProgress.BlobContentIsNotChecked | pkg/storage/action_cache_asset_store.go:184-189 | a Put of a blob asset succeeds whether or not the blob is in the CAS, and adds it only if it happens to be an uploaded message |
| AssetIndex.BlobAccessAssetStore.Get | pkg/storage/blob_access_asset_store.go:27-40 | returns the entry under the digest of the reference |
| AssetIndex.BlobAccessAssetStore.Put | pkg/storage/blob_access_asset_store.go:43-49 | sets the entry under the digest of the reference and no other; a failure changes nothing |
| AssetIndex.EntryIsLastWrite | pkg/storage/blob_access_asset_store.go:27-49 | under any key stands what was last written for the same digest function, URIs and qualifiers in whatever order |
| AssetIndex.UnmatchedUnchanged | pkg/storage/blob_access_asset_store.go:43-49 | writes for other references leave an entry alone |
| Push.PushServer.Push | pkg/push/push_server.go:41-107 | refuses without URIs, digest function or permission and then changes nothing; an accepted push makes its writes in order, stops at the first that fails and is OK when all are made |
| Push.PushWritesAre | pkg/push/push_server.go:55-71 | the i-th write of a push, in the request's own fields: whole list first, then the sorted URIs, with the client's digest, expiry and type and the time of the write |
| Push.PushServer.PutList | pkg/push/push_server.go:55-60 | writes the whole URI list first and leaves both slices of the request sorted |
| Push.PushServer.PutSingles | pkg/push/push_server.go:62-71 | writes the single URIs in sorted order; when the k-th write of the push fails, exactly the first k-1 have happened |
| Caching.CachingFetcher.GetAndCheckAsset | pkg/fetch/caching_fetcher.go:104-135 | yields the entry of the URI and the stable qualifiers if it is neither expired nor too old |
| Caching.CachingFetcher.LookUpAll | pkg/fetch/caching_fetcher.go:52-67 | stops at the first requested URI with a fresh entry, or finds none for any |
| Caching.CachingFetcher.InsertFetched | pkg/fetch/caching_fetcher.go:85-101 | files the asset under the fetched URI and then under the whole list, stopping at a failure; the request's URIs are sorted only here |
| Caching.CachingFetcher.Fetch | pkg/fetch/caching_fetcher.go:36-102 | the wrapped fetcher is called exactly when every lookup misses, and reads the request's own URI slice while it still is in the client's order; on a healthy store whatever it fetched is filed and the fetch is OK |
| CachedDownloads.FetchBlob | pkg/fetch/caching_fetcher.go:53-99 | through both fetchers a miss is answered by the downloads of the client's list: the k-th goes to the client's k-th URI and carries the unambiguous per-URL qualifiers with index k |
| History.StoreIsReplay | pkg/storage/blob_access_asset_store.go:43-49 | over every run of pushes and fetches the store is the replay of all writes made |
| History.FetchFollowsHistory | pkg/fetch/caching_fetcher.go:36-135 | in every reachable state a hit names the first URI with a fresh last write and carries that write's digest, and the wrapped fetcher is called if and only if there is none |
| History.AgeFilters | pkg/fetch/caching_fetcher.go:126-132 | with a minimum age a lookup yields an asset if and only if it does without one and the last update, or the epoch if that is absent, is not older |
| History.ExpiryDecides | pkg/fetch/caching_fetcher.go:118-124 | without a minimum age a lookup yields an entry if and only if its expiry is absent, the epoch or not yet past |
| History.LookupInRun | pkg/fetch/caching_fetcher.go:104-135 | in every reachable state a lookup yields the last write for digest function, URI and stable qualifiers if it passes both tests, and else nothing |
| History.AfterInsertion | pkg/fetch/caching_fetcher.go:85-100 | the writes after a miss change the entry of the fetched URI and of no other single URI |
| History.FiledListEntry | pkg/fetch/caching_fetcher.go:92-99 | after a filed miss for several URIs the entry of the whole list is the fetched digest, without expiry |
| History.RefetchIsStable | pkg/fetch/caching_fetcher.go:53-135 | after a cached miss, later fetches of those URIs and stable qualifiers answer OK with the same digest without the wrapped fetcher, at any later time |
| History.NotOkIsServedForDirectoriesOnly | pkg/fetch/caching_fetcher.go:81-83 | a response that is not OK leaves no trace if it is a blob's, and answers the next fetch with OK if it is a directory's |
| History.PushThenFetch | pkg/push/push_server.go:41-73 | after a push without volatile qualifiers a lookup of a pushed URI yields digest, type and expiry as the client gave them, with the stamp of the last write for that URI, if and only if that expiry is absent, the epoch or not yet past and the stamp is not older than accepted |
| History.PushedListEntry | pkg/push/push_server.go:55-60 | after a push, or the first writes of one, the entry of the whole URI list is what was pushed, stamped with the first write |
| History.EitherKindHits | pkg/fetch/caching_fetcher.go:104-135 | a lookup of a pushed URI finds the pushed digest and type whatever kind is asked for, and finds it unless the expiry is past or some stamp is older than accepted |
| History.HitIgnoresType | pkg/fetch/caching_fetcher.go:60-66 | a hit of either kind of fetch answers OK with the pushed digest, whichever type was pushed |
| History.PushedIsFetchableIff | pkg/fetch/caching_fetcher.go:54-54 | some fetch can look a pushed reference up if and only if it was pushed without volatile qualifiers |
| History.VolatileNeverShows | pkg/fetch/caching_fetcher.go:137-150 | adding, dropping or changing volatile qualifiers changes neither the keys looked up nor the writes after a miss |
| Interleaving.StepKeepsInv | pkg/fetch/caching_fetcher.go:53-101 | each lookup, call and write of each push and fetch in progress keeps the invariant, failed or not, and the log of writes only grows |
| Interleaving.RunsKeepInv | pkg/push/push_server.go:55-71 | over every interleaving of pushes and fetches the store is the replay of the writes that took effect; each request's writes stand in the log in its own order; a hit is what the last write under its key said when it was read, and whatever was looked up before it, or before the wrapped fetcher was called, was not fresh then |
| Interleaving.PushedIsFound | pkg/fetch/caching_fetcher.go:104-135 | with other requests in progress, a lookup of a URI of a push whose writes are made and not overwritten yields what was pushed if and only if it has not expired and is not older than accepted |
| RemoteExecution.RemoteExecutionFetcher.Await | pkg/fetch/remote_execution_fetcher.go:83-96 | yields the result of the first operation that is done, after pending ones only; fails as malformed if that one is garbled, and otherwise when the stream ends |
| RemoteExecution.ReceiveIffYields | pkg/fetch/remote_execution_fetcher.go:83-96 | receiving ends in a result or failure if and only if the position and kind of the stream's first settled operation say so |
| RemoteExecution.RemoteExecutionFetcher.Attempt | pkg/fetch/remote_execution_fetcher.go:50-96 | an Action is executed only with Action and Command already in the CAS |
| RemoteExecution.RemoteExecutionFetcher.FetchCommon | pkg/fetch/remote_execution_fetcher.go:41-109 | success belongs to the first URI whose execution reports exit code zero or no result; all executions before it, and all of a fetch that ends with NotFound, reported another exit code |
| RemoteExecution.UnsuccessfulIff | pkg/fetch/remote_execution_fetcher.go:98-103 | an execution counts as unsuccessful if and only if the first operation that is done reports an exit code other than zero |
| RemoteExecution.ExecutedReadsBack | pkg/fetch/remote_execution_fetcher.go:50-79 | the executed Action, read from the CAS of that time, names the Command of its URI, an empty input root and no platform |
| RemoteExecution.RemoteExecutionFetcher.FetchBlob | pkg/fetch/remote_execution_fetcher.go:111-154 | answers with the last file at the output path if it has content, Aborted if a directory stands there instead, and otherwise NotFound; OK if and only if the response says so |
| RemoteExecution.ContentIsAnswered | pkg/fetch/remote_execution_fetcher.go:124-153 | a last file with content at the output path is what FetchBlob answers with |
| RemoteExecution.RemoteExecutionFetcher.UploadTree | pkg/fetch/remote_execution_fetcher.go:212-230 | uploads the root and every child |
| RemoteExecution.RemoteExecutionFetcher.FetchDirectory | pkg/fetch/remote_execution_fetcher.go:156-238 | wants the Tree of the last directory at the output path, if it has content, and answers with the root digest after unpacking it; without store faults that is OK exactly when the CAS holds that Tree; without such a Tree it answers Aborted for a file and otherwise NotFound |
| RemoteExecution.TreeIsWanted | pkg/fetch/remote_execution_fetcher.go:175-182 | a Tree of the last directory at the output path is the one that is unpacked |
| DirectoryPipeline.FilingFetcher.FetchAndFile | pkg/fetch/caching_fetcher.go:182-209 | after a fetched Tree was complete, the Action Cache Puts of its root succeed and leave entries whose stored Tree means what the worker's means |
| RemoteExecution.FetchedDirectoryIsStorable | pkg/fetch/remote_execution_fetcher.go:210-230 | a CAS into which a complete Tree was unpacked can be expanded from its root to a Tree of the same meaning, however it grew since |
| RemoteExecution.StorableIffComplete | pkg/fetch/caching_fetcher.go:182-209 | where the CAS held no Directory before, that Put can succeed if and only if the worker's Tree was complete |
| RemoteExecution.ExecutedIsLookedUpIff | pkg/fetch/remote_execution_fetcher.go:51-60 | for values without blanks, the Action executed for a URI is the one looked up for it if and only if no platform is configured and the last values that matter are the greatest |
| RemoteExecution.ExecutedIsLookedUpWhenHarmless | pkg/fetch/remote_execution_fetcher.go:51-60 | for any values, if the last ones that matter are the greatest, the two Actions are the same if and only if no platform is configured |
| RemoteExecution.BlanksCanHideDuplicates | pkg/qualifier/qualifier_translator.go:48-54 | a request with blanks in its values for which sorting changes branch and commit and yet the two Actions are the same |
| RemoteExecution.DuplicateBranches | pkg/qualifier/qualifier_translator.go:13-15 | a request with branches "b" and "a" for which the two Actions differ under every platform |
| RemoteExecution.DuplicateResourceTypes | pkg/qualifier/qualifier_translator.go:25-37 | a request with two resource types whose sorted form generates no Command, so that the two Actions differ |
| RemoteExecution.ExecutedIsLookedUp | pkg/fetch/remote_execution_fetcher.go:51-60 | with distinct qualifier names the two Actions are the same if and only if no platform is configured |
| AuthorizationHeaders.AuthHeaders.AddHeader | pkg/fetch/auth_headers.go:24-29 | sets one header of one URI in the nested map and leaves all others |
| AuthorizationHeaders.AuthHeaders.ApplyHeaders | pkg/fetch/auth_headers.go:32-38 | a request gets every header of its URI under its canonical name and keeps the rest |
| AuthorizationHeaders.AppliedUniqueIff | pkg/fetch/auth_headers.go:32-38 | the resulting headers are determined if and only if names with the same canonical form carry the same value |
| AuthorizationHeaders.DocumentedKey | pkg/fetch/http_fetcher.go:34-36 | the documented key form addresses the i-th URI if and only if i is in range and the header name has no colon |
| AuthorizationHeaders.TargetIff | pkg/fetch/http_fetcher.go:273-284 | a key addresses a URI if and only if it is three parts between two colons whose second is an index in range |
| AuthorizationHeaders.SignedDecimal | pkg/fetch/http_fetcher.go:277-280 | a sign keeps or negates an index, and what does not fit into 64 bits is refused |
| AuthorizationHeaders.Int64Form | pkg/fetch/http_fetcher.go:277-280 | what is read as an index has digits only, after a sign if there is one |
| AuthorizationHeaders.NegativeIndexIsRefused | pkg/fetch/http_fetcher.go:281-283 | an index with a minus sign is refused, except for minus zero |
| AuthorizationHeaders.GetAuthHeaders | pkg/fetch/http_fetcher.go:250-290 | the legacy qualifier overrides all others; without it the call succeeds if and only if every per-URL key has three parts and an index in range |
| AuthorizationHeaders.LegacyOverrides | pkg/fetch/http_fetcher.go:254-258 | the first legacy qualifier alone gives the headers or the refusal, whatever stands around it |
| AuthorizationHeaders.AddPerUrl | pkg/fetch/http_fetcher.go:272-287 | the loop over the per-URL map visits every key in some order, or fails at a bad one whatever the order |
| AuthorizationHeaders.GlobalValue | pkg/fetch/http_fetcher.go:260-265 | a header for all URIs takes its value from the last qualifier with that name |
| AuthorizationHeaders.HeaderGiven | pkg/fetch/http_fetcher.go:250-290 | a URI gets a per-URL value where a key addresses it, else the last value for all URIs, else none |
| AuthorizationHeaders.OrderIrrelevantIff | pkg/fetch/http_fetcher.go:250-290 | all iteration orders give the same headers or refusal if and only if the legacy qualifier overrides, or some key is refused, or keys that address the same header of the same URI agree |
| AuthorizationHeaders.SignedIndexIsAmbiguous | pkg/fetch/http_fetcher.go:277-285 | two accepted keys that differ only in the sign of their index address the same header with different values |
| Checksums.HexInjective | pkg/fetch/http_fetcher.go:233-233 | hexadecimal forms (section 8 of RFC 4648) are equal if and only if the bytes are |
| Checksums.HexAt | pkg/fetch/http_fetcher.go:233-233 | each byte is written as two lower-case digits, the higher half first |
| Checksums.CutAtFirst | pkg/fetch/http_fetcher.go:216-219 | a value is cut at its first dash if and only if it has one |
| Checksums.GetChecksumSri | pkg/fetch/http_fetcher.go:200-248 | the loop finds the first checksum qualifier and reads it, or refuses the request with InvalidArgument |
| Checksums.ParseSriIff | pkg/fetch/http_fetcher.go:216-243 | a value is accepted if and only if it is a known name, a dash, and base64 of bytes of a supported length |
| Checksums.KnownAlgorithms | pkg/fetch/http_fetcher.go:201-208 | exactly six names are known, each for the algorithm with the length of its digests |
| Checksums.NamesToldApart | pkg/fetch/http_fetcher.go:201-208 | no two names stand for one algorithm |
| Checksums.FirstChecksumWins | pkg/fetch/http_fetcher.go:211-245 | qualifiers after the first checksum have no influence, not even to refuse the request |
| Checksums.SriRoundTrip | pkg/fetch/http_fetcher.go:216-245 | a value written as algorithm, dash and base64 is read back as that algorithm and those bytes |
| Checksums.MeetsIffSameBytes | pkg/fetch/http_fetcher.go:98-101 | content passes if and only if its hash is the requested one byte for byte, or no bytes were requested |
| HttpDownloads.HttpFetcher.Stream | pkg/fetch/http_fetcher.go:159-196 | the temporary file is closed here exactly when the buffer returned does not own it |
| HttpDownloads.HttpFetcher.DownloadBlob | pkg/fetch/http_fetcher.go:133-197 | one request with exactly the headers of its URI; a good buffer owns an open file with the whole content, any other path leaves no file open |
| HttpDownloads.ContentIff | pkg/fetch/http_fetcher.go:133-197 | when files can be made, a download has content if and only if its URI parses and answers with status 200, the whole body and a clean close |
| HttpDownloads.HttpFetcher.Deliver | pkg/fetch/http_fetcher.go:98-115 | stores content that meets the checksum, stores nothing else, and closes the file either way |
| HttpDownloads.HttpFetcher.TryUris | pkg/fetch/http_fetcher.go:91-116 | the first complete download decides, and every temporary file made is closed exactly once |
| HttpDownloads.HttpFetcher.FetchBlob | pkg/fetch/http_fetcher.go:72-116 | an unresolved digest function, a bad checksum and bad headers end the fetch in that order before any request is made |
| HttpDownloads.FetchIsFetchFrom | pkg/fetch/http_fetcher.go:91-116 | without store faults the loop gives the response, code and CAS of a reference that picks the first served URI from answers known beforehand, and tries no URI after it |
| HttpDownloads.FirstServedIff | pkg/fetch/http_fetcher.go:91-96 | that reference picks a URI if and only if it is served and none before it is |
| HttpDownloads.StoredIsRequested | pkg/fetch/http_fetcher.go:98-114 | a response is OK, names the URI that was downloaded and the qualifiers of the request, and its digest reads back content that this URI served and whose hash is the requested one |
| HttpDownloads.IndexedHeadersAreSent | pkg/fetch/http_fetcher.go:271-285 | the request to the i-th URI carries the values of the unambiguous per-URL qualifiers with index i |

## Left out

- Caching.CachingFetcher.Fetch: runs on the store keyed by references only. For the Action Cache store, what a Put and a Get do is proved in its own modules, and what follows a missed directory lookup in `DirectoryPipeline.dfy`. FetchBlob's refusal of a malformed minimum age is not modelled.
- BlobStores.ContentAddressableStorage.Put: a failed call on the class has no effect; writes that fail and still take effect are part of the protocol in `PutProtocol.dfy`. Eviction from the CAS is not modelled.
- AssetReferences.NewAssetReference: the reference copies the URIs, while the Go value shares its URI slice with the caller. The only later change of that slice is to sort it again.
- Sorting.SortInPlace: is the insertion sort that the Go library uses on short slices; what other algorithms do on long ones follows from the uniqueness of the result.
- ActionCacheStore.ActionCacheAssetStore.Get: an ActionResult without execution metadata, at which the Go code would panic, is not modelled; here its time stamp is absent.
- RemoteExecution.RemoteExecutionFetcher.FetchDirectory: a Tree message without a root field, limits on message sizes and a status in the ExecuteResponse are not modelled. Neither here nor in FetchBlob is resolving the digest function modelled: the digest function is given.
- HttpDownloads.HttpFetcher.FetchBlob: with an empty list of URIs, which the validating fetcher refuses before (pkg/fetch/validating_fetcher.go:29), the code wraps an absent error through a library that is not part of this model; the model answers with the code that is given to it, NotFound. Errors of closing a temporary file, closing the response body on other paths than the modelled one, and the length announced by the server are not modelled; closing a buffer on a CAS Put is taken from the buffer's own contract.
- Messages as bytes: stores hold typed messages, so bytes of one message type that also parse as another type are not modelled, except the empty blob.
- Properties of Directory nodes, and all fields of messages that the core neither sets nor reads.
- The generated scripts are functions of URI and qualifier values; what a shell makes of them is not modelled.
- FetchDirectory of the HTTP fetcher, which always refuses, and CheckQualifiers of all fetchers, which are set differences.
- Decorators for validation, authorization, logging, metrics and errors, the gRPC wiring, configuration and error texts: single branches without state of their own.
