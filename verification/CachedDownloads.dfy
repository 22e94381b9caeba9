/**
  The caching fetcher in front of the HTTP fetcher: whose index a per-URL header has, and what a response stands for.
 */
module CachedDownloads {
  import opened Common
  import opened Qualifiers
  import opened Messages
  import opened BlobStores
  import opened Caching
  import opened AuthorizationHeaders
  import opened HttpDownloads

  /** Each download carries the per-URL qualifiers with the index of its URI in the list. */
  ghost predicate AllCarryIndexed(downloads: seq<Download>, uris: seq<string>, qs: seq<Qualifier>, headers: Headers,
                                  client: HttpClient) {
    |downloads| <= |uris| && forall k :: 0 <= k < |downloads| ==>
        CarriesIndexed(downloads[k], uris, qs, headers, client, k)
  }

  lemma AnsweredCarriesIndexed(http: HttpFetcher, fn: Option<Function>, uris: seq<string>, qs: seq<Qualifier>,
                               order: seq<string>, downloads: seq<Download>, before: Cas, after: Cas,
                               r: Result<FetchResponse>)
    requires http.Answered(fn, uris, qs, order, downloads, before, after, r) && downloads != []
    requires FirstNamed(qs, LEGACY_AUTH_HEADERS).None? && Unambiguous(PerUrl(qs), uris)
    ensures HeaderOutcome(uris, qs, order, http.parseHeaders).Success?
    ensures AllCarryIndexed(downloads, uris, qs, HeaderOutcome(uris, qs, order, http.parseHeaders).value, http.client)
  {
    var headers := HeaderOutcome(uris, qs, order, http.parseHeaders).value;
    forall k | 0 <= k < |downloads| ensures CarriesIndexed(downloads[k], uris, qs, headers, http.client, k) {
      assert Proper(downloads[k], uris[k], headers, http.client, http.files);
      IndexedHeadersAreSent(downloads[k], uris, qs, order, http.parseHeaders, http.client, http.files, k);
    }
  }

  /**
    FetchBlob through both fetchers. The downloads of a miss, and what was stored for them, are those of the client's
    list in the client's order, and an index in a per-URL qualifier counts in that list.
   */
  method FetchBlob(cache: CachingFetcher, http: HttpFetcher, fn: Function, uris: array<string>,
                   qualifiers: array<Qualifier>, oldest: Option<int>)
    returns (response: Option<FetchResponse>, code: Code, ghost trace: FetchTrace, ghost called: Option<Call>)
    requires cache.fetcher.http == http && cache.fetcher.Valid()
    modifies uris, cache.fetcher`calls, cache.fetcher.Footprint(), cache.assetStore.blobAccess`data, cache.clock
    ensures FetchSpec(old(cache.assetStore.blobAccess.data), cache.assetStore.blobAccess.data, fn,
                      FetchRequest(BLOB, old(uris[..]), old(qualifiers[..]), oldest), trace, ResultOf(called),
                      response, code)
    ensures called.None? ==> http.client.log == old(http.client.log) && http.cas.blobs == old(http.cas.blobs)
    ensures called.Some? ==>
              && called.value.done.Some?
              && var d := called.value.done.value;
                 && http.client.log == old(http.client.log) + Exchanges(d.downloads)
                 && http.Answered(Some(fn), old(uris[..]), old(qualifiers[..]), d.order, d.downloads,
                                  old(http.cas.blobs), http.cas.blobs, called.value.result)
                 && (d.downloads != [] && FirstNamed(old(qualifiers[..]), LEGACY_AUTH_HEADERS).None?
                     && Unambiguous(PerUrl(old(qualifiers[..])), old(uris[..])) ==>
                       var headers := HeaderOutcome(old(uris[..]), old(qualifiers[..]), d.order, http.parseHeaders);
                       && headers.Success?
                       && AllCarryIndexed(d.downloads, old(uris[..]), old(qualifiers[..]), headers.value, http.client))
  {
    ghost var us, qs, before := uris[..], qualifiers[..], http.cas.blobs;
    response, code, trace, called := cache.Fetch(Some(fn), BLOB, uris, qualifiers, oldest);
    if called.Some? {
      ghost var n := |cache.fetcher.calls| - 1;
      assert cache.fetcher.calls[n] == called.value && cache.fetcher.Explained(cache.fetcher.calls[n]);
      ghost var d := called.value.done.value;
      if d.downloads != [] && FirstNamed(qs, LEGACY_AUTH_HEADERS).None? && Unambiguous(PerUrl(qs), us) {
        AnsweredCarriesIndexed(http, Some(fn), us, qs, d.order, d.downloads, before, http.cas.blobs,
                               called.value.result);
      }
    }
  }
}
