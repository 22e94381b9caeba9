/** The push server: one asset written under its whole URI list and under each single URI. */
module Push {
  import opened Common
  import opened Sorting
  import opened Qualifiers
  import opened Messages
  import opened AssetReferences
  import opened AssetIndex

  /** What a client pushes; `fn` is None when instance name and digest function do not resolve. */
  datatype PushRequest = PushRequest(
    assetType: AssetType,
    fn: Option<Function>,
    uris: seq<string>,
    qualifiers: seq<Qualifier>,
    digest: Digest,
    expireAt: Option<int>)

  function PushedAsset(req: PushRequest, at: int): Asset {
    Asset(req.digest, req.expireAt, Some(at), req.assetType)
  }

  /** A single URI is written once; several are written as a list and then one by one. */
  function PushCount(uris: seq<string>): nat {
    if |uris| > 1 then 1 + |uris| else 1
  }

  /** The i-th write of a push: first the URI list, then the single URIs in sorted order. */
  function PushWrite(req: PushRequest, i: nat, at: int): Write
    requires req.fn.Some? && i < PushCount(req.uris)
  {
    if i == 0 then Write(req.fn.value, req.uris, req.qualifiers, PushedAsset(req, at))
    else Write(req.fn.value, [SortUris(req.uris)[i - 1]], req.qualifiers, PushedAsset(req, at))
  }

  /** The first writes of a push, one for each time at which the asset was stamped. */
  function PushWrites(req: PushRequest, times: seq<int>): (writes: seq<Write>)
    requires req.fn.Some? && |times| <= PushCount(req.uris)
    ensures |writes| == |times|
    ensures forall i :: 0 <= i < |times| ==> writes[i] == PushWrite(req, i, times[i])
  {
    seq(|times|, i requires 0 <= i < |times| => PushWrite(req, i, times[i]))
  }

  /** The stamps lie between two times and never run backwards. */
  ghost predicate Ascending(from: int, times: seq<int>, to: int) {
    && from <= to
    && (forall i :: 0 <= i < |times| ==> from <= times[i] <= to)
    && (forall i, j :: 0 <= i < j < |times| ==> times[i] <= times[j])
  }

  class PushServer {
    const assetStore: BlobAccessAssetStore
    const clock: Clock
    const allowUpdatesForInstances: set<string>

    constructor (assetStore: BlobAccessAssetStore, clock: Clock, allowed: set<string>)
      ensures this.assetStore == assetStore && this.clock == clock && this.allowUpdatesForInstances == allowed
    {
      this.assetStore := assetStore;
      this.clock := clock;
      this.allowUpdatesForInstances := allowed;
    }

    /** The write of the whole URI list, whose reference sorts both slices of the request in place. */
    method PutList(req: PushRequest, uris: array<string>, qualifiers: array<Qualifier>) returns (code: Code, now: int)
      requires req.fn.Some? && req.uris == uris[..] && req.qualifiers == qualifiers[..]
      modifies uris, qualifiers, assetStore.blobAccess`data, clock
      ensures uris[..] == SortUris(req.uris) && qualifiers[..] == SortQualifiers(req.qualifiers)
      ensures old(clock.now) <= now == clock.now
      ensures code == OK ==>
          assetStore.blobAccess.data == ApplyWrites(old(assetStore.blobAccess.data), PushWrites(req, [now]))
      ensures code != OK ==> code == Unavailable && assetStore.blobAccess.data == old(assetStore.blobAccess.data)
      ensures assetStore.blobAccess.healthy ==> code == OK
    {
      ghost var before := assetStore.blobAccess.data;
      var assetRef := NewAssetReference(uris, qualifiers);
      now := clock.Now();
      code := assetStore.Put(assetRef, PushedAsset(req, now), req.fn.value);
      PushStep(req, before, [], now);
      assert [] + [now] == [now];
    }

    /** One round of the loop over the sorted URIs; building the reference sorts the qualifiers once more. */
    method PutSingle(req: PushRequest, uri: string, qualifiers: array<Qualifier>, ghost before: Entries,
                     ghost times: seq<int>)
      returns (code: Code, now: int)
      requires req.fn.Some? && 1 <= |times| < PushCount(req.uris) && uri == SortUris(req.uris)[|times| - 1]
      requires qualifiers[..] == SortQualifiers(req.qualifiers)
      requires assetStore.blobAccess.data == ApplyWrites(before, PushWrites(req, times))
      modifies qualifiers, assetStore.blobAccess`data, clock
      ensures qualifiers[..] == old(qualifiers[..])
      ensures old(clock.now) <= now == clock.now
      ensures code == OK ==> assetStore.blobAccess.data == ApplyWrites(before, PushWrites(req, times + [now]))
      ensures code != OK ==> code == Unavailable && assetStore.blobAccess.data == old(assetStore.blobAccess.data)
      ensures assetStore.blobAccess.healthy ==> code == OK
    {
      var single := new string[1](_ => uri);
      assert single[..] == [uri];
      var assetRef := NewAssetReference(single, qualifiers);
      now := clock.Now();
      SingleKey(req, |times| - 1, now);
      PushStep(req, before, times, now);
      code := assetStore.Put(assetRef, PushedAsset(req, now), req.fn.value);
    }

    /** The loop over the sorted URIs of a multi-URI push, given the stamp of the write of the whole list. */
    method PutSingles(req: PushRequest, sorted: seq<string>, qualifiers: array<Qualifier>, ghost before: Entries,
                      ghost first: int)
      returns (code: Code, ghost times: seq<int>)
      requires req.fn.Some? && |req.uris| > 1 && sorted == SortUris(req.uris)
      requires qualifiers[..] == SortQualifiers(req.qualifiers)
      requires assetStore.blobAccess.data == ApplyWrites(before, PushWrites(req, [first]))
      requires first <= clock.now
      modifies qualifiers, assetStore.blobAccess`data, clock
      ensures qualifiers[..] == SortQualifiers(req.qualifiers)
      ensures 1 <= |times| <= PushCount(req.uris) && times[0] == first
      ensures assetStore.blobAccess.data == ApplyWrites(before, PushWrites(req, times))
      ensures code == OK <==> |times| == PushCount(req.uris)
      ensures Ascending(first, times, clock.now)
      ensures assetStore.blobAccess.healthy ==> code == OK
    {
      times := [first];
      code := OK;
      for i := 0 to |sorted|
        invariant qualifiers[..] == SortQualifiers(req.qualifiers)
        invariant |times| == i + 1 && times[0] == first
        invariant assetStore.blobAccess.data == ApplyWrites(before, PushWrites(req, times))
        invariant Ascending(first, times, clock.now) && code == OK
      {
        var now;
        code, now := PutSingle(req, sorted[i], qualifiers, before, times);
        if code != OK {
          return;
        }
        times := times + [now];
      }
    }

    /**
      PushBlob and PushDirectory, which differ in the asset type only. A refused push changes nothing; an accepted one
      makes its writes in order and stops at the first that fails. `times` are the stamps of the writes that were made.
     */
    method Push(req: PushRequest, uris: array<string>, qualifiers: array<Qualifier>)
      returns (code: Code, ghost times: seq<int>)
      requires req.uris == uris[..] && req.qualifiers == qualifiers[..]
      modifies uris, qualifiers, assetStore.blobAccess`data, clock
      ensures req.uris == [] || req.fn.None? ==> code == InvalidArgument && times == []
      ensures req.uris != [] && req.fn.Some? && req.fn.value.instance !in allowUpdatesForInstances ==>
                code == PermissionDenied && times == []
      ensures times == [] ==> assetStore.blobAccess.data == old(assetStore.blobAccess.data)
      ensures req.uris != [] && req.fn.Some? && req.fn.value.instance in allowUpdatesForInstances ==>
                && |times| <= PushCount(req.uris)
                && assetStore.blobAccess.data == ApplyWrites(old(assetStore.blobAccess.data), PushWrites(req, times))
                && (code == OK <==> |times| == if |req.uris| == 1 then 1 else 1 + |req.uris|)
                && uris[..] == SortUris(req.uris) && qualifiers[..] == SortQualifiers(req.qualifiers)
                && Ascending(old(clock.now), times, clock.now)
                && (assetStore.blobAccess.healthy ==> code == OK)
      ensures !(req.uris != [] && req.fn.Some? && req.fn.value.instance in allowUpdatesForInstances) ==>
                uris[..] == req.uris && qualifiers[..] == req.qualifiers
    {
      times := [];
      if uris.Length == 0 {
        return InvalidArgument, times;
      }
      if req.fn.None? {
        return InvalidArgument, times;
      }
      if req.fn.value.instance !in allowUpdatesForInstances {
        return PermissionDenied, times;
      }
      ghost var before := assetStore.blobAccess.data;
      var now;
      code, now := PutList(req, uris, qualifiers);
      if code != OK {
        return;
      }
      times := [now];
      if uris.Length > 1 {
        code, times := PutSingles(req, uris[..], qualifiers, before, now);
      }
    }
  }

  /** The key of the write for the i-th sorted URI is that of its canonical reference. */
  lemma SingleKey(req: PushRequest, i: nat, now: int)
    requires req.fn.Some? && |req.uris| > 1 && i < |req.uris|
    ensures SortQualifiers(SortQualifiers(req.qualifiers)) == SortQualifiers(req.qualifiers)
    ensures WriteKey(PushWrite(req, i + 1, now)) ==
              ReferenceKey(req.fn.value, CanonicalReference([SortUris(req.uris)[i]], SortQualifiers(req.qualifiers)))
  {
    QualifierOrder();
    SortIdempotent(QualifierLess, req.qualifiers);
  }

  /**
    The writes in the request's own terms: the URI list first, then each URI in sorted order, all with what was
    pushed.
   */
  lemma PushWritesAre(req: PushRequest, times: seq<int>, i: nat)
    requires req.fn.Some? && i < |times| <= PushCount(req.uris)
    ensures PushWrites(req, times)[i] ==
            Write(req.fn.value, if i == 0 then req.uris else [SortUris(req.uris)[i - 1]], req.qualifiers,
                  Asset(req.digest, req.expireAt, Some(times[i]), req.assetType))
  {
  }

  lemma PushStep(req: PushRequest, before: Entries, times: seq<int>, now: int)
    requires req.fn.Some? && |times| < PushCount(req.uris)
    ensures ApplyWrites(before, PushWrites(req, times + [now])) ==
              var w := PushWrite(req, |times|, now);
              ApplyWrites(before, PushWrites(req, times))[WriteKey(w) := PushedAsset(req, now)]
  {
    assert PushWrites(req, times + [now]) == PushWrites(req, times) + [PushWrite(req, |times|, now)];
    ApplyOne(before, PushWrites(req, times), PushWrite(req, |times|, now));
  }
}
