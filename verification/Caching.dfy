/** The caching fetcher: lookups per URI with expiry and minimum age, then the wrapped fetcher, then two writes. */
module Caching {
  import opened Common
  import opened Qualifiers
  import opened Messages
  import opened BlobStores
  import opened AssetReferences
  import opened AssetIndex
  import opened HttpDownloads

  /** `kind` tells FetchBlob from FetchDirectory; an absent `oldest` accepts content of any age. */
  datatype FetchRequest = FetchRequest(kind: AssetType, uris: seq<string>, qualifiers: seq<Qualifier>,
                                       oldest: Option<int>)

  /** One cache lookup: when it was made and whether the store failed. */
  datatype Reading = Reading(now: int, failed: bool)

  /** A timestamp that is absent counts as the epoch. */
  function UpdateTime(data: Asset): int {
    if data.lastUpdated.Some? then data.lastUpdated.value else 0
  }

  /** Not expired, where an expiry at the epoch means never, and not older than accepted. */
  predicate Fresh(data: Asset, now: int, oldest: Option<int>) {
    && (data.expireAt.None? || data.expireAt == EPOCH || data.expireAt.value >= now)
    && (oldest.None? || UpdateTime(data) >= oldest.value)
  }

  function LookupKey(fn: Function, uri: string, qualifiers: seq<Qualifier>): Key {
    ReferenceKey(fn, CanonicalReference([uri], Stable(qualifiers)))
  }

  /** What the lookup of the i-th URI yields. */
  function Found(entries: Entries, fn: Function, req: FetchRequest, i: nat, reading: Reading): Option<Asset>
    requires i < |req.uris|
  {
    var entry := EntryAt(entries, LookupKey(fn, req.uris[i], req.qualifiers));
    if !reading.failed && entry.Some? && Fresh(entry.value, reading.now, req.oldest) then entry else None
  }

  /** The last reading is the first that found a fresh entry. */
  ghost predicate HitsLast(entries: Entries, fn: Function, req: FetchRequest, readings: seq<Reading>) {
    && 1 <= |readings| <= |req.uris|
    && Found(entries, fn, req, |readings| - 1, readings[|readings| - 1]).Some?
    && forall j :: 0 <= j < |readings| - 1 ==> Found(entries, fn, req, j, readings[j]).None?
  }

  ghost predicate MissesAll(entries: Entries, fn: Function, req: FetchRequest, readings: seq<Reading>) {
    && |readings| == |req.uris|
    && forall j :: 0 <= j < |readings| ==> Found(entries, fn, req, j, readings[j]).None?
  }

  function HitResponse(req: FetchRequest, i: nat, data: Asset): FetchResponse
    requires i < |req.uris|
  {
    FetchResponse(OK, req.uris[i], req.qualifiers, data.digest)
  }

  /**
    The writes after a fetch: the URI that was fetched, then the whole list. FetchBlob skips them unless the status is
    OK.
   */
  function FetchWrites(fn: Function, req: FetchRequest, response: FetchResponse, at: int): seq<Write> {
    var data := Asset(response.digest, EPOCH, Some(at), req.kind);
    var stable := Stable(response.qualifiers);
    if req.kind.BLOB? && response.status != OK then []
    else
      [Write(fn, [response.uri], stable, data)] + (if |req.uris| > 1 then [Write(fn, req.uris, stable, data)] else [])
  }

  /** What happened during a fetch: the lookups, the time stamped on the new asset, and how many writes were made. */
  datatype FetchTrace = FetchTrace(readings: seq<Reading>, insertedAt: int, completed: nat)

  /** `called` is None on a hit, and otherwise what the wrapped fetcher returned. */
  ghost predicate FetchSpec(before: Entries, after: Entries, fn: Function, req: FetchRequest, trace: FetchTrace,
                            called: Option<Result<FetchResponse>>, response: Option<FetchResponse>, code: Code) {
    match called
    case None =>
      && HitsLast(before, fn, req, trace.readings)
      && after == before && code == OK
      && var i := |trace.readings| - 1;
         response == Some(HitResponse(req, i, Found(before, fn, req, i, trace.readings[i]).value))
    case Some(Failure(failure)) =>
      MissesAll(before, fn, req, trace.readings) && after == before && response == None && code == failure
    case Some(Success(fetched)) =>
      && MissesAll(before, fn, req, trace.readings)
      && response == Some(fetched)
      && var writes := FetchWrites(fn, req, fetched, trace.insertedAt);
         && trace.completed <= |writes|
         && after == ApplyWrites(before, writes[..trace.completed])
         && (code == OK <==> trace.completed == |writes|)
  }

  /** What the HTTP fetcher did during a call, if it is the one behind the cache. */
  datatype HttpTrace = HttpTrace(fn: Function, downloads: seq<Download>, order: seq<string>, before: Cas, after: Cas)

  /** A call of the wrapped fetcher: the request as it was read, the result, and how the HTTP fetcher came to it. */
  datatype Call = Call(req: FetchRequest, result: Result<FetchResponse>, done: Option<HttpTrace>)

  /** The fetcher behind the cache: the HTTP fetcher, or one of which nothing is known but that it answers. */
  class WrappedFetcher {
    ghost var calls: seq<Call>
    const http: HttpFetcher?

    constructor (http: HttpFetcher?)
      ensures calls == [] && this.http == http
    {
      this.calls := [];
      this.http := http;
    }

    ghost function Footprint(): set<object> {
      if http == null then {} else {http.client, http.files, http.cas}
    }

    /** Whatever the HTTP fetcher answered is what its downloads make of the request; it fetches no directories. */
    ghost predicate Explained(c: Call) {
      http != null ==>
        && c.done.Some?
        && (c.req.kind.BLOB? ==>
              var d := c.done.value;
              http.Answered(Some(d.fn), c.req.uris, c.req.qualifiers, d.order, d.downloads, d.before, d.after,
                            c.result))
        && (!c.req.kind.BLOB? ==> c.result == Failure(PermissionDenied) && c.done.value.downloads == [])
    }

    ghost predicate Valid()
      reads this, Footprint()
    {
      && (http != null ==> http.cas.Valid() && http.files.Valid())
      && forall i :: 0 <= i < |calls| ==> Explained(calls[i])
    }

    /** The trace belongs to this call, and the exchanges logged are those of its downloads. */
    twostate predicate Traced(fn: Function, done: Option<HttpTrace>)
      reads Footprint()
    {
      http != null ==>
        && done.Some? && done.value.fn == fn
        && done.value.before == old(http.cas.blobs) && done.value.after == http.cas.blobs
        && http.client.log == old(http.client.log) + Exchanges(done.value.downloads)
        && http.files.open == old(http.files.open)
    }

    /** Reads the request's own slices, in whatever order they are by now. */
    method Fetch(fn: Function, kind: AssetType, uris: array<string>, qualifiers: array<Qualifier>, oldest: Option<int>)
      returns (r: Result<FetchResponse>, ghost done: Option<HttpTrace>)
      requires Valid()
      modifies this`calls, Footprint()
      ensures Valid()
      ensures calls == old(calls) + [Call(FetchRequest(kind, uris[..], qualifiers[..], oldest), r, done)]
      ensures r != Failure(OK)
      ensures Traced(fn, done)
    {
      done := None;
      if http == null {
        r := *;
        if r == Failure(OK) {
          r := Failure(Unavailable);
        }
      } else if kind.BLOB? {
        ghost var before := http.cas.blobs;
        var response, code;
        ghost var downloads, order;
        response, code, downloads, order := http.FetchBlob(Some(fn), uris[..], qualifiers[..]);
        r := if response.Some? then Success(response.value) else Failure(code);
        done := Some(HttpTrace(fn, downloads, order, before, http.cas.blobs));
      } else {
        r := Failure(PermissionDenied);
        done := Some(HttpTrace(fn, [], [], http.cas.blobs, http.cas.blobs));
      }
      calls := calls + [Call(FetchRequest(kind, uris[..], qualifiers[..], oldest), r, done)];
    }
  }

  function ResultOf(called: Option<Call>): Option<Result<FetchResponse>> {
    if called.Some? then Some(called.value.result) else None
  }

  class CachingFetcher {
    const fetcher: WrappedFetcher
    const assetStore: BlobAccessAssetStore
    const clock: Clock

    constructor (fetcher: WrappedFetcher, assetStore: BlobAccessAssetStore, clock: Clock)
      ensures this.fetcher == fetcher && this.assetStore == assetStore && this.clock == clock
    {
      this.fetcher := fetcher;
      this.assetStore := assetStore;
      this.clock := clock;
    }

    method GetAndCheckAsset(fn: Function, req: FetchRequest, i: nat, uri: string)
      returns (r: Option<Asset>, ghost reading: Reading)
      requires i < |req.uris| && uri == req.uris[i]
      modifies clock
      ensures r == Found(assetStore.blobAccess.data, fn, req, i, reading)
      ensures old(clock.now) <= reading.now <= clock.now
      ensures assetStore.blobAccess.healthy ==> !reading.failed
    {
      reading := Reading(clock.now, false);
      var uris := new string[1](_ => uri);
      var stable := RemoveVolatileQualifiers(req.qualifiers);
      var qualifiers := new Qualifier[|stable|](j requires 0 <= j < |stable| => stable[j]);
      assert uris[..] == [uri] && qualifiers[..] == stable;
      var assetRef := NewAssetReference(uris, qualifiers);
      var got := assetStore.Get(assetRef, fn);
      if got.Failure? {
        reading := Reading(clock.now, ReferenceKey(fn, assetRef) in assetStore.blobAccess.data);
        return None, reading;
      }
      var assetData := got.value;
      var now := clock.Now();
      reading := Reading(now, false);
      if assetData.expireAt.Some? {
        var expireTime := assetData.expireAt.value;
        if expireTime < now && expireTime != 0 {
          return None, reading;
        }
      }
      if req.oldest.Some? {
        if UpdateTime(assetData) < req.oldest.value {
          return None, reading;
        }
      }
      r := Some(assetData);
    }

    /** Files a fetched asset; `uris` is sorted in place by the reference built from it. */
    method Insert(fn: Function, uris: array<string>, stable: seq<Qualifier>, data: Asset) returns (code: Code)
      modifies uris, assetStore.blobAccess`data
      ensures uris[..] == SortUris(old(uris[..]))
      ensures code == OK ==>
                assetStore.blobAccess.data ==
                    ApplyWrites(old(assetStore.blobAccess.data), [Write(fn, old(uris[..]), stable, data)])
      ensures code != OK ==> assetStore.blobAccess.data == old(assetStore.blobAccess.data)
      ensures assetStore.blobAccess.healthy ==> code == OK
    {
      var qualifiers := new Qualifier[|stable|](j requires 0 <= j < |stable| => stable[j]);
      assert qualifiers[..] == stable;
      ghost var w := Write(fn, uris[..], stable, data);
      ApplyOne(assetStore.blobAccess.data, [], w);
      assert [] + [w] == [w];
      var assetRef := NewAssetReference(uris, qualifiers);
      code := assetStore.Put(assetRef, data, fn);
    }

    /** The writes after a miss. The request's own URI slice is sorted only here, when the wrapped fetcher is done. */
    method InsertFetched(fn: Function, req: FetchRequest, response: FetchResponse, uris: array<string>)
      returns (code: Code, ghost insertedAt: int, ghost completed: nat)
      requires req.uris == uris[..] && !(req.kind.BLOB? && response.status != OK)
      modifies uris, assetStore.blobAccess`data, clock
      ensures completed <= |FetchWrites(fn, req, response, insertedAt)|
      ensures assetStore.blobAccess.data ==
                ApplyWrites(old(assetStore.blobAccess.data), FetchWrites(fn, req, response, insertedAt)[..completed])
      ensures code == OK <==> completed == |FetchWrites(fn, req, response, insertedAt)|
      ensures uris[..] == req.uris || uris[..] == SortUris(req.uris)
      ensures old(clock.now) <= insertedAt <= clock.now
      ensures assetStore.blobAccess.healthy ==> code == OK
    {
      ghost var before := assetStore.blobAccess.data;
      var stable := RemoveVolatileQualifiers(response.qualifiers);
      var now := clock.Now();
      insertedAt := now;
      completed := 0;
      var data := Asset(response.digest, EPOCH, Some(now), req.kind);
      var single := new string[1](_ => response.uri);
      assert single[..] == [response.uri];
      code := Insert(fn, single, stable, data);
      if code != OK {
        return;
      }
      completed := 1;
      ghost var writes := FetchWrites(fn, req, response, insertedAt);
      assert writes[..1] == [Write(fn, [response.uri], stable, data)];
      if uris.Length > 1 {
        code := Insert(fn, uris, stable, data);
        if code == OK {
          completed := 2;
          assert writes == writes[..1] + [Write(fn, req.uris, stable, data)];
          ApplyAppend(before, writes[..1], [Write(fn, req.uris, stable, data)]);
          assert writes[..2] == writes;
        }
      } else {
        assert writes[..1] == writes;
      }
    }

    /**
      FetchBlob and FetchDirectory. The wrapped fetcher is called exactly when no lookup found a fresh entry, with the
      URIs in the client's order; `fn` is None when instance name and digest function do not resolve.
     */
    method Fetch(fn: Option<Function>, kind: AssetType, uris: array<string>, qualifiers: array<Qualifier>,
                 oldest: Option<int>)
      returns (response: Option<FetchResponse>, code: Code, ghost trace: FetchTrace, ghost called: Option<Call>)
      requires fetcher.Valid()
      modifies uris, fetcher`calls, fetcher.Footprint(), assetStore.blobAccess`data, clock
      ensures fetcher.Valid()
      ensures qualifiers[..] == old(qualifiers[..])
      ensures fn.None? ==> response == None && code == InvalidArgument && called == None
                           && assetStore.blobAccess.data == old(assetStore.blobAccess.data)
      ensures fn.Some? ==>
                FetchSpec(old(assetStore.blobAccess.data), assetStore.blobAccess.data, fn.value,
                          FetchRequest(kind, old(uris[..]), old(qualifiers[..]), oldest), trace, ResultOf(called),
                          response, code)
      ensures called.None? ==>
                && fetcher.calls == old(fetcher.calls) && uris[..] == old(uris[..])
                && forall o :: o in fetcher.Footprint() ==> unchanged(o)
      ensures called.Some? ==>
                && fn.Some? && fetcher.Traced(fn.value, called.value.done)
                && fetcher.calls == old(fetcher.calls) + [called.value]
                && called.value.req == FetchRequest(kind, old(uris[..]), old(qualifiers[..]), oldest)
      ensures forall i :: 0 <= i < |trace.readings| ==> old(clock.now) <= trace.readings[i].now <= clock.now
      ensures assetStore.blobAccess.healthy ==> forall i :: 0 <= i < |trace.readings| ==> !trace.readings[i].failed
      ensures old(clock.now) <= trace.insertedAt <= clock.now
      ensures assetStore.blobAccess.healthy && response.Some? ==> code == OK
    {
      trace, called := FetchTrace([], clock.now, 0), None;
      if fn.None? {
        response, code := None, InvalidArgument;
        return;
      }
      var req := FetchRequest(kind, uris[..], qualifiers[..], oldest);
      ghost var readings: seq<Reading>;
      var hit;
      hit, readings := LookUpAll(fn.value, req);
      trace := FetchTrace(readings, clock.now, 0);
      if hit.Some? {
        response, code := hit, OK;
        return;
      }
      ghost var call;
      response, code, trace, call := Miss(fn.value, req, uris, qualifiers, readings);
      called := Some(call);
    }

    /** The rest of a fetch once every lookup missed: the wrapped fetcher, and then the writes. */
    method Miss(fn: Function, req: FetchRequest, uris: array<string>, qualifiers: array<Qualifier>,
                ghost readings: seq<Reading>)
      returns (response: Option<FetchResponse>, code: Code, ghost trace: FetchTrace, ghost call: Call)
      requires fetcher.Valid() && req.uris == uris[..] && req.qualifiers == qualifiers[..]
      requires MissesAll(assetStore.blobAccess.data, fn, req, readings)
      modifies uris, fetcher`calls, fetcher.Footprint(), assetStore.blobAccess`data, clock
      ensures fetcher.Valid() && qualifiers[..] == old(qualifiers[..])
      ensures FetchSpec(old(assetStore.blobAccess.data), assetStore.blobAccess.data, fn, req, trace, Some(call.result),
                        response, code)
      ensures fetcher.Traced(fn, call.done) && fetcher.calls == old(fetcher.calls) + [call] && call.req == req
      ensures trace.readings == readings && old(clock.now) <= trace.insertedAt <= clock.now
      ensures assetStore.blobAccess.healthy && response.Some? ==> code == OK
    {
      var result;
      ghost var done;
      result, done := fetcher.Fetch(fn, req.kind, uris, qualifiers, req.oldest);
      call := Call(req, result, done);
      response, code, trace := Conclude(fn, req, result, uris, readings);
    }

    /** Hands on what the wrapped fetcher answered, after filing the asset if it may be filed. */
    method Conclude(fn: Function, req: FetchRequest, result: Result<FetchResponse>, uris: array<string>,
                    ghost readings: seq<Reading>)
      returns (response: Option<FetchResponse>, code: Code, ghost trace: FetchTrace)
      requires req.uris == uris[..] && result != Failure(OK)
      requires MissesAll(assetStore.blobAccess.data, fn, req, readings)
      modifies uris, assetStore.blobAccess`data, clock
      ensures FetchSpec(old(assetStore.blobAccess.data), assetStore.blobAccess.data, fn, req, trace, Some(result),
                        response, code)
      ensures trace.readings == readings && old(clock.now) <= trace.insertedAt <= clock.now
      ensures assetStore.blobAccess.healthy && result.Success? ==> code == OK
    {
      trace := FetchTrace(readings, clock.now, 0);
      if result.Failure? {
        return None, result.code, trace;
      }
      response, code := Some(result.value), OK;
      if req.kind.BLOB? && result.value.status != OK {
        return;
      }
      ghost var insertedAt, completed;
      code, insertedAt, completed := InsertFetched(fn, req, result.value, uris);
      trace := FetchTrace(readings, insertedAt, completed);
    }

    /** The loop over the requested URIs, which ends at the first fresh entry. */
    method LookUpAll(fn: Function, req: FetchRequest) returns (hit: Option<FetchResponse>, ghost readings: seq<Reading>)
      modifies clock
      ensures hit.None? ==> MissesAll(assetStore.blobAccess.data, fn, req, readings)
      ensures hit.Some? ==>
                && HitsLast(assetStore.blobAccess.data, fn, req, readings)
                && var i := |readings| - 1;
                   hit == Some(HitResponse(req, i, Found(assetStore.blobAccess.data, fn, req, i, readings[i]).value))
      ensures old(clock.now) <= clock.now
      ensures forall i :: 0 <= i < |readings| ==> old(clock.now) <= readings[i].now <= clock.now
      ensures assetStore.blobAccess.healthy ==> forall i :: 0 <= i < |readings| ==> !readings[i].failed
    {
      readings := [];
      for i := 0 to |req.uris|
        invariant |readings| == i && old(clock.now) <= clock.now
        invariant forall j :: 0 <= j < i ==> Found(assetStore.blobAccess.data, fn, req, j, readings[j]).None?
        invariant forall j :: 0 <= j < i ==> old(clock.now) <= readings[j].now <= clock.now
        invariant assetStore.blobAccess.healthy ==> forall j :: 0 <= j < i ==> !readings[j].failed
      {
        ghost var reading;
        var assetData;
        assetData, reading := GetAndCheckAsset(fn, req, i, req.uris[i]);
        readings := readings + [reading];
        if assetData.Some? {
          return Some(HitResponse(req, i, assetData.value)), readings;
        }
      }
      hit := None;
    }
  }
}
