/** Runs of pushes and fetches on the reference-keyed store, against a last-write-wins history. */
module History {
  import opened Common
  import opened Sorting
  import opened Qualifiers
  import opened Messages
  import opened AssetReferences
  import opened AssetIndex
  import opened Push
  import opened Caching

  /** A push that was accepted, or a fetch, with everything the environment chose. */
  datatype Event =
    | Pushed(push: PushRequest, times: seq<int>)
    | Fetched(fn: Function, req: FetchRequest, trace: FetchTrace, called: Option<Result<FetchResponse>>,
              response: Option<FetchResponse>, code: Code)

  /** The transitions that PushServer.Push and CachingFetcher.Fetch make. */
  ghost predicate Transition(before: Entries, after: Entries, e: Event) {
    match e
    case Pushed(push, times) =>
      && push.fn.Some? && |times| <= PushCount(push.uris)
      && after == ApplyWrites(before, PushWrites(push, times))
    case Fetched(fn, req, trace, called, response, code) =>
      FetchSpec(before, after, fn, req, trace, called, response, code)
  }

  ghost function WritesOf(e: Event): seq<Write>
  {
    match e
    case Pushed(push, times) =>
      if push.fn.Some? && |times| <= PushCount(push.uris) then PushWrites(push, times) else []
    case Fetched(fn, req, trace, called, _, _) =>
      if called.Some? && called.value.Success? then
        var writes := FetchWrites(fn, req, called.value.value, trace.insertedAt);
        if trace.completed <= |writes| then writes[..trace.completed] else []
      else []
  }

  ghost function AllWrites(events: seq<Event>): seq<Write> {
    if events == [] then [] else AllWrites(events[..|events| - 1]) + WritesOf(events[|events| - 1])
  }

  /** A run from the empty store; the clock may advance between and during events. */
  ghost predicate IsRun(states: seq<Entries>, events: seq<Event>) {
    && |states| == |events| + 1 && states[0] == map[]
    && forall i :: 0 <= i < |events| ==> Transition(states[i], states[i + 1], events[i])
  }

  lemma TransitionWrites(before: Entries, after: Entries, e: Event)
    requires Transition(before, after, e)
    ensures after == ApplyWrites(before, WritesOf(e))
  {
  }

  lemma {:induction false} StoreIsReplay(states: seq<Entries>, events: seq<Event>)
    requires IsRun(states, events)
    ensures states[|events|] == ApplyWrites(map[], AllWrites(events))
  {
    if events != [] {
      var n := |events| - 1;
      assert IsRun(states[..n + 1], events[..n]);
      StoreIsReplay(states[..n + 1], events[..n]);
      TransitionWrites(states[n], states[n + 1], events[n]);
      ApplyAppend(map[], AllWrites(events[..n]), WritesOf(events[n]));
    }
  }

  /** The asset that a lookup must yield according to the history of writes. */
  function FoundInHistory(writes: seq<Write>, fn: Function, req: FetchRequest, i: nat, reading: Reading): Option<Asset>
    requires i < |req.uris|
  {
    var last := LastWrite(writes, fn, [req.uris[i]], Stable(req.qualifiers));
    if !reading.failed && last.Some? && Fresh(last.value, reading.now, req.oldest) then last else None
  }

  /** According to the history, the last reading is the first that finds a fresh entry. */
  ghost predicate HistoryHitsLast(writes: seq<Write>, fn: Function, req: FetchRequest, readings: seq<Reading>) {
    && 1 <= |readings| <= |req.uris|
    && FoundInHistory(writes, fn, req, |readings| - 1, readings[|readings| - 1]).Some?
    && forall j :: 0 <= j < |readings| - 1 ==> FoundInHistory(writes, fn, req, j, readings[j]).None?
  }

  /** The response names the URI of the last reading and carries the digest that the history gives for it. */
  ghost predicate AnsweredByHistory(writes: seq<Write>, fn: Function, req: FetchRequest, readings: seq<Reading>,
                                    response: Option<FetchResponse>) {
    && HistoryHitsLast(writes, fn, req, readings)
    && var i := |readings| - 1;
       var found := FoundInHistory(writes, fn, req, i, readings[i]).value;
       response == Some(FetchResponse(OK, req.uris[i], req.qualifiers, found.digest))
  }

  ghost predicate HistoryMissesAll(writes: seq<Write>, fn: Function, req: FetchRequest, readings: seq<Reading>) {
    && |readings| == |req.uris|
    && forall j :: 0 <= j < |readings| ==> FoundInHistory(writes, fn, req, j, readings[j]).None?
  }

  /**
    In every reachable state a fetch is answered from the history alone: by the most recent write to the digest
    function, first requested URI and stable qualifiers with a readable fresh entry, and by the wrapped fetcher
    exactly when there is no such URI.
   */
  lemma FetchFollowsHistory(states: seq<Entries>, events: seq<Event>, after: Entries, fn: Function, req: FetchRequest,
                            trace: FetchTrace, called: Option<Result<FetchResponse>>,
                            response: Option<FetchResponse>, code: Code)
    requires IsRun(states, events)
    requires FetchSpec(states[|events|], after, fn, req, trace, called, response, code)
    ensures called.None? ==> AnsweredByHistory(AllWrites(events), fn, req, trace.readings, response)
    ensures called.Some? ==> HistoryMissesAll(AllWrites(events), fn, req, trace.readings)
  {
    StoreIsReplay(states, events);
    FetchFollowsReplay(AllWrites(events), after, fn, req, trace, called, response, code);
  }

  lemma FetchFollowsReplay(writes: seq<Write>, after: Entries, fn: Function, req: FetchRequest, trace: FetchTrace,
                           called: Option<Result<FetchResponse>>, response: Option<FetchResponse>, code: Code)
    requires FetchSpec(ApplyWrites(map[], writes), after, fn, req, trace, called, response, code)
    ensures called.None? ==> AnsweredByHistory(writes, fn, req, trace.readings, response)
    ensures called.Some? ==> HistoryMissesAll(writes, fn, req, trace.readings)
  {
    if called.None? {
      ReplayHits(writes, fn, req, trace.readings);
    } else {
      ReplayMisses(writes, fn, req, trace.readings);
    }
  }

  lemma ReplayHits(writes: seq<Write>, fn: Function, req: FetchRequest, readings: seq<Reading>)
    requires HitsLast(ApplyWrites(map[], writes), fn, req, readings)
    ensures HistoryHitsLast(writes, fn, req, readings)
    ensures Found(ApplyWrites(map[], writes), fn, req, |readings| - 1, readings[|readings| - 1]) ==
              FoundInHistory(writes, fn, req, |readings| - 1, readings[|readings| - 1])
  {
    ReplayFinds(writes, fn, req, |readings| - 1, readings[|readings| - 1]);
    forall j | 0 <= j < |readings| - 1 ensures FoundInHistory(writes, fn, req, j, readings[j]).None? {
      ReplayFinds(writes, fn, req, j, readings[j]);
    }
  }

  lemma ReplayMisses(writes: seq<Write>, fn: Function, req: FetchRequest, readings: seq<Reading>)
    requires MissesAll(ApplyWrites(map[], writes), fn, req, readings)
    ensures HistoryMissesAll(writes, fn, req, readings)
  {
    forall j | 0 <= j < |readings| ensures FoundInHistory(writes, fn, req, j, readings[j]).None? {
      ReplayFinds(writes, fn, req, j, readings[j]);
    }
  }

  /** A lookup in a replayed store finds what the history says. */
  lemma ReplayFinds(writes: seq<Write>, fn: Function, req: FetchRequest, i: nat, reading: Reading)
    requires i < |req.uris|
    ensures Found(ApplyWrites(map[], writes), fn, req, i, reading) == FoundInHistory(writes, fn, req, i, reading)
  {
    EntryIsLastWrite(writes, fn, [req.uris[i]], Stable(req.qualifiers));
  }

  /** A threshold for the age filters what a lookup without one finds; an absent last update counts as the epoch. */
  lemma AgeFilters(entries: Entries, fn: Function, req: FetchRequest, i: nat, reading: Reading, a: Asset)
    requires i < |req.uris| && req.oldest.Some?
    ensures Found(entries, fn, req, i, reading) == Some(a) <==>
              && Found(entries, fn, req.(oldest := None), i, reading) == Some(a)
              && (if a.lastUpdated.Some? then a.lastUpdated.value else 0) >= req.oldest.value
  {
  }

  /** Without a threshold a lookup finds the entry exactly if its expiry is absent, the epoch or not yet past. */
  lemma ExpiryDecides(entries: Entries, fn: Function, req: FetchRequest, i: nat, reading: Reading, a: Asset)
    requires i < |req.uris| && req.oldest.None?
    ensures Found(entries, fn, req, i, reading) == Some(a) <==>
              && !reading.failed && EntryAt(entries, LookupKey(fn, req.uris[i], req.qualifiers)) == Some(a)
              && (a.expireAt.None? || a.expireAt == Some(0) || a.expireAt.value >= reading.now)
  {
  }

  /**
    In every reachable state, what a lookup finds is the last write for digest function, URI and stable qualifiers, if
    the store can be read, that write's asset has no expiry or one not yet past, and it is young enough; else it finds
    nothing.
   */
  lemma LookupInRun(states: seq<Entries>, events: seq<Event>, fn: Function, req: FetchRequest, i: nat, reading: Reading)
    requires IsRun(states, events) && i < |req.uris|
    ensures Found(states[|events|], fn, req, i, reading) ==
              match LastWrite(AllWrites(events), fn, [req.uris[i]], Stable(req.qualifiers))
              case None => None
              case Some(a) =>
                if && !reading.failed
                   && (a.expireAt.None? || a.expireAt == Some(0) || a.expireAt.value >= reading.now)
                   && (req.oldest.None? || (if a.lastUpdated.Some? then a.lastUpdated.value else 0) >= req.oldest.value)
                then Some(a) else None
  {
    StoreIsReplay(states, events);
    ReplayFinds(AllWrites(events), fn, req, i, reading);
  }

  // ---- Refetching ----

  lemma SingleNeverList(u: string, uris: seq<string>)
    requires |uris| > 1
    ensures multiset([u]) != multiset(uris)
  {
  }

  lemma SingleUris(u: string, v: string)
    ensures multiset([u]) == multiset([v]) <==> u == v
  {
  }

  /** A threshold at least as high: it accepts nothing more. */
  predicate AtLeast(oldest: Option<int>, first: Option<int>) {
    first.None? || (oldest.Some? && oldest.value >= first.value)
  }

  /**
    What the writes after a miss leave under each single URI: the new asset under the fetched one, the rest untouched.
   */
  lemma AfterInsertion(before: Entries, after: Entries, fn: Function, req: FetchRequest, fetched: FetchResponse,
                       at: int, u: string)
    requires !(req.kind.BLOB? && fetched.status != OK)
    requires multiset(Stable(fetched.qualifiers)) == multiset(Stable(req.qualifiers))
    requires after == ApplyWrites(before, FetchWrites(fn, req, fetched, at))
    ensures EntryAt(after, LookupKey(fn, u, req.qualifiers)) ==
              if u == fetched.uri then Some(Asset(fetched.digest, EPOCH, Some(at), req.kind))
              else EntryAt(before, LookupKey(fn, u, req.qualifiers))
  {
    var stable, data := Stable(fetched.qualifiers), Asset(fetched.digest, EPOCH, Some(at), req.kind);
    var single, list := Write(fn, [fetched.uri], stable, data), Write(fn, req.uris, stable, data);
    ApplyOne(before, [], single);
    assert [] + [single] == [single];
    SingleUris(u, fetched.uri);
    ReferenceKeyIffPermutation(fn, [u], Stable(req.qualifiers), fn, [fetched.uri], stable);
    if |req.uris| > 1 {
      ApplyOne(before, [single], list);
      SingleNeverList(u, req.uris);
      ReferenceKeyIffPermutation(fn, [u], Stable(req.qualifiers), fn, req.uris, stable);
    }
  }

  /**
    After a miss that was fetched and cached, with the response echoing one requested URI and the request's
    qualifiers, a later fetch of these URIs and stable qualifiers is answered from the cache with the same digest. The
    later request may list any of the URIs in any order as long as the fetched one is among them. In between nothing
    may rewrite the entries of the URIs it lists, and no lookup may fail; its minimum age must lie between that of the
    first request and the time of the insertion.
   */
  lemma RefetchIsStable(s0: Entries, s1: Entries, fn: Function, req: FetchRequest, trace: FetchTrace,
                        fetched: FetchResponse,
                        s2: Entries, s3: Entries, again: FetchRequest, trace2: FetchTrace,
                        called2: Option<Result<FetchResponse>>, response2: Option<FetchResponse>, code2: Code)
    requires FetchSpec(s0, s1, fn, req, trace, Some(Success(fetched)), Some(fetched), OK)
    requires !(req.kind.BLOB? && fetched.status != OK)
    requires fetched.uri in req.uris && multiset(fetched.qualifiers) == multiset(req.qualifiers)
    requires forall i :: 0 <= i < |trace.readings| ==> !trace.readings[i].failed
    requires forall u :: u in again.uris ==>
               EntryAt(s2, LookupKey(fn, u, req.qualifiers)) == EntryAt(s1, LookupKey(fn, u, req.qualifiers))
    requires FetchSpec(s2, s3, fn, again, trace2, called2, response2, code2)
    requires (forall u :: u in again.uris ==> u in req.uris) && fetched.uri in again.uris
    requires multiset(Stable(again.qualifiers)) == multiset(Stable(req.qualifiers))
    requires AtLeast(again.oldest, req.oldest) && (again.oldest.None? || again.oldest.value <= trace.insertedAt)
    requires forall i :: 0 <= i < |trace2.readings| ==> !trace2.readings[i].failed
    requires forall i, j :: 0 <= i < |trace.readings| && 0 <= j < |trace2.readings| ==>
        trace.readings[i].now <= trace2.readings[j].now
    ensures called2 == None && code2 == OK && s3 == s2
    ensures response2 == Some(FetchResponse(OK, fetched.uri, again.qualifiers, fetched.digest))
  {
    StablePermutation(fetched.qualifiers, req.qualifiers);
    var writes := FetchWrites(fn, req, fetched, trace.insertedAt);
    assert writes[..|writes|] == writes;
    forall j | 0 <= j < |again.uris| && j < |trace2.readings|
      ensures Found(s2, fn, again, j, trace2.readings[j]) ==
                if again.uris[j] == fetched.uri
                then Some(Asset(fetched.digest, EPOCH, Some(trace.insertedAt), req.kind)) else None
    {
      LaterLookup(s0, s1, fn, req, trace, fetched, s2, again, j, trace2.readings[j]);
    }
    AnsweredFrom(s2, s3, fn, again, trace2, called2, response2, code2, fetched.uri,
                 Asset(fetched.digest, EPOCH, Some(trace.insertedAt), req.kind));
  }

  /** A fetch for whose URIs the lookups find one asset under one URI is answered with that asset. */
  lemma AnsweredFrom(before: Entries, after: Entries, fn: Function, req: FetchRequest, trace: FetchTrace,
                     called: Option<Result<FetchResponse>>, response: Option<FetchResponse>, code: Code,
                     uri: string, data: Asset)
    requires FetchSpec(before, after, fn, req, trace, called, response, code) && uri in req.uris
    requires forall j :: 0 <= j < |req.uris| && j < |trace.readings| ==>
               Found(before, fn, req, j, trace.readings[j]) == if req.uris[j] == uri then Some(data) else None
    ensures called == None && code == OK && after == before
    ensures response == Some(FetchResponse(OK, uri, req.qualifiers, data.digest))
  {
  }

  /**
    What a later fetch sees of a response whose status was not OK. A blob's leaves no trace in the store; a
    directory's is filed, and the same request is from then on answered with OK and that response's digest.
   */
  lemma NotOkIsServedForDirectoriesOnly(s0: Entries, s1: Entries, fn: Function, req: FetchRequest, trace: FetchTrace,
                                        fetched: FetchResponse, s2: Entries, trace2: FetchTrace,
                                        called2: Option<Result<FetchResponse>>, response2: Option<FetchResponse>,
                                        code2: Code)
    requires FetchSpec(s0, s1, fn, req, trace, Some(Success(fetched)), Some(fetched), OK)
    requires fetched.status != OK
    requires fetched.uri in req.uris && multiset(fetched.qualifiers) == multiset(req.qualifiers)
    requires FetchSpec(s1, s2, fn, req, trace2, called2, response2, code2)
    requires forall i :: 0 <= i < |trace.readings| ==> !trace.readings[i].failed
    requires forall i :: 0 <= i < |trace2.readings| ==> !trace2.readings[i].failed
    requires forall i, j :: 0 <= i < |trace.readings| && 0 <= j < |trace2.readings| ==>
               trace.readings[i].now <= trace2.readings[j].now
    requires req.oldest.None? || req.oldest.value <= trace.insertedAt
    ensures req.kind.BLOB? ==> s1 == s0 && called2.Some?
    ensures !req.kind.BLOB? ==>
              called2 == None && s2 == s1
                  && response2 == Some(FetchResponse(OK, fetched.uri, req.qualifiers, fetched.digest))
  {
    if req.kind.BLOB? {
      forall i | 0 <= i < |req.uris| && i < |trace2.readings|
        ensures Found(s0, fn, req, i, trace2.readings[i]) == None
      {
        StaysUnfresh(s0, s0, fn, req, req, trace, i, trace2.readings[i]);
      }
    } else {
      RefetchIsStable(s0, s1, fn, req, trace, fetched, s1, s2, req, trace2, called2, response2, code2);
    }
  }

  /** After the insertion, a later lookup finds the new asset under the fetched URI and nothing under the others. */
  lemma LaterLookup(s0: Entries, s1: Entries, fn: Function, req: FetchRequest, trace: FetchTrace,
                    fetched: FetchResponse,
                    s2: Entries, again: FetchRequest, j: nat, reading: Reading)
    requires MissesAll(s0, fn, req, trace.readings)
    requires s1 == ApplyWrites(s0, FetchWrites(fn, req, fetched, trace.insertedAt))
    requires !(req.kind.BLOB? && fetched.status != OK)
    requires multiset(Stable(fetched.qualifiers)) == multiset(Stable(req.qualifiers)) ==
        multiset(Stable(again.qualifiers))
    requires forall i :: 0 <= i < |trace.readings| ==> !trace.readings[i].failed && trace.readings[i].now <= reading.now
    requires j < |again.uris| && again.uris[j] in req.uris && !reading.failed
    requires EntryAt(s2, LookupKey(fn, again.uris[j], req.qualifiers)) ==
        EntryAt(s1, LookupKey(fn, again.uris[j], req.qualifiers))
    requires AtLeast(again.oldest, req.oldest) && (again.oldest.None? || again.oldest.value <= trace.insertedAt)
    ensures Found(s2, fn, again, j, reading) ==
              if again.uris[j] == fetched.uri then Some(Asset(fetched.digest, EPOCH, Some(trace.insertedAt), req.kind))
              else None
  {
    var u := again.uris[j];
    AfterInsertion(s0, s1, fn, req, fetched, trace.insertedAt, u);
    SameLookupKey(fn, u, again.qualifiers, req.qualifiers);
    if u != fetched.uri {
      StaysUnfresh(s0, s2, fn, req, again, trace, j, reading);
    }
  }

  lemma SameLookupKey(fn: Function, u: string, qs: seq<Qualifier>, rs: seq<Qualifier>)
    requires multiset(Stable(qs)) == multiset(Stable(rs))
    ensures LookupKey(fn, u, qs) == LookupKey(fn, u, rs)
  {
    ReferenceKeyIffPermutation(fn, [u], Stable(qs), fn, [u], Stable(rs));
  }

  /** An entry that was not fresh when it was looked up never becomes fresh for a threshold at least as high. */
  lemma StaysUnfresh(s0: Entries, s2: Entries, fn: Function, req: FetchRequest, again: FetchRequest, trace: FetchTrace,
                     j: nat, reading: Reading)
    requires MissesAll(s0, fn, req, trace.readings)
    requires forall i :: 0 <= i < |trace.readings| ==> !trace.readings[i].failed && trace.readings[i].now <= reading.now
    requires j < |again.uris| && again.uris[j] in req.uris
    requires LookupKey(fn, again.uris[j], again.qualifiers) == LookupKey(fn, again.uris[j], req.qualifiers)
    requires EntryAt(s2, LookupKey(fn, again.uris[j], req.qualifiers)) ==
        EntryAt(s0, LookupKey(fn, again.uris[j], req.qualifiers))
    requires AtLeast(again.oldest, req.oldest)
    ensures Found(s2, fn, again, j, reading) == None
  {
    var i :| 0 <= i < |req.uris| && req.uris[i] == again.uris[j];
    assert Found(s0, fn, req, i, trace.readings[i]).None?;
  }

  // ---- Pushing and then fetching ----

  /**
    After a push without volatile qualifiers, a lookup of a pushed URI yields what was pushed, with the stamp of the
    last write for that URI, exactly if the client's expiry is absent, the epoch or not yet past and the stamp is not
    older than accepted.
   */
  lemma PushThenFetch(before: Entries, push: PushRequest, times: seq<int>, req: FetchRequest, i: nat, reading: Reading)
    returns (k: nat)
    requires push.fn.Some? && push.uris != [] && |times| == PushCount(push.uris)
    requires forall q :: q in push.qualifiers ==> !Volatile(q)
    requires i < |req.uris| && req.uris[i] in push.uris
    requires multiset(Stable(req.qualifiers)) == multiset(push.qualifiers)
    requires !reading.failed
    ensures k < |times|
    ensures if |push.uris| == 1 then k == 0
            else 0 < k <= |push.uris| && SortUris(push.uris)[k - 1] == req.uris[i]
                 && forall j :: k <= j < |push.uris| ==> SortUris(push.uris)[j] != req.uris[i]
    ensures Found(ApplyWrites(before, PushWrites(push, times)), push.fn.value, req, i, reading) ==
              if (push.expireAt.None? || push.expireAt == Some(0) || push.expireAt.value >= reading.now)
                 && (req.oldest.None? || times[k] >= req.oldest.value)
              then Some(Asset(push.digest, push.expireAt, Some(times[k]), push.assetType))
              else None
  {
    var u, fn, writes := req.uris[i], push.fn.value, PushWrites(push, times);
    var n := WriteOfUri(push, times, u);
    k := LastMatch(writes, fn, [u], push.qualifiers, n);
    LastMatchWins(before, writes, fn, [u], push.qualifiers, k);
    StableUnchangedIff(push.qualifiers);
    SameLookupKey(fn, u, req.qualifiers, push.qualifiers);
    PlaceOfUri(push, times, u, k);
    assert EntryAt(ApplyWrites(before, writes), LookupKey(fn, u, req.qualifiers)) == Some(writes[k].data);
  }

  /** The writes of a push that match a single URI are those for that URI. */
  lemma PlaceOfUri(push: PushRequest, times: seq<int>, u: string, k: nat)
    requires push.fn.Some? && push.uris != [] && |times| == PushCount(push.uris) && k < |times|
    requires Matches(PushWrites(push, times)[k], push.fn.value, [u], push.qualifiers)
    requires forall j :: k < j < |times| ==> !Matches(PushWrites(push, times)[j], push.fn.value, [u], push.qualifiers)
    ensures if |push.uris| == 1 then k == 0
            else 0 < k <= |push.uris| && SortUris(push.uris)[k - 1] == u
                 && forall j :: k <= j < |push.uris| ==> SortUris(push.uris)[j] != u
  {
    if |push.uris| > 1 {
      if k == 0 {
        SingleNeverList(u, push.uris);
      } else {
        SingleUris(SortUris(push.uris)[k - 1], u);
      }
      forall j | k <= j < |push.uris| ensures SortUris(push.uris)[j] != u {
        assert !Matches(PushWrites(push, times)[j + 1], push.fn.value, [u], push.qualifiers);
      }
    }
  }

  /**
    After a push, or the first writes of one, the entry of its whole URI list, in whatever order it is asked for, is
    what was pushed with the stamp of the first write.
   */
  lemma PushedListEntry(before: Entries, push: PushRequest, times: seq<int>)
    requires push.fn.Some? && push.uris != [] && 1 <= |times| <= PushCount(push.uris)
    ensures EntryAt(ApplyWrites(before, PushWrites(push, times)),
                    ReferenceKey(push.fn.value, CanonicalReference(push.uris, push.qualifiers))) ==
            Some(Asset(push.digest, push.expireAt, Some(times[0]), push.assetType))
  {
    var writes := PushWrites(push, times);
    forall j | 0 < j < |writes| ensures !Matches(writes[j], push.fn.value, push.uris, push.qualifiers) {
      SingleNeverList(SortUris(push.uris)[j - 1], push.uris);
    }
    LastMatchWins(before, writes, push.fn.value, push.uris, push.qualifiers, 0);
  }

  /** After a filed miss for several URIs, the entry of the whole list is the fetched digest, without expiry. */
  lemma FiledListEntry(before: Entries, fn: Function, req: FetchRequest, fetched: FetchResponse, at: int)
    requires |req.uris| > 1 && !(req.kind.BLOB? && fetched.status != OK)
    ensures EntryAt(ApplyWrites(before, FetchWrites(fn, req, fetched, at)),
                    ReferenceKey(fn, CanonicalReference(req.uris, Stable(fetched.qualifiers)))) ==
            Some(Asset(fetched.digest, Some(0), Some(at), req.kind))
  {
    LastMatchWins(before, FetchWrites(fn, req, fetched, at), fn, req.uris, Stable(fetched.qualifiers), 1);
  }

  /** A complete push has a write for each of its URIs by itself. */
  lemma WriteOfUri(push: PushRequest, times: seq<int>, u: string) returns (n: nat)
    requires push.fn.Some? && |times| == PushCount(push.uris) && u in push.uris
    ensures n < |PushWrites(push, times)| && Matches(PushWrites(push, times)[n], push.fn.value, [u], push.qualifiers)
  {
    if |push.uris| > 1 {
      SortPermutes(StringLess, push.uris);
      var sorted := SortUris(push.uris);
      assert u in multiset(push.uris);
      assert u in multiset(sorted);
      var m :| 0 <= m < |sorted| && sorted[m] == u;
      n := m + 1;
      assert PushWrites(push, times)[n] == PushWrite(push, n, times[n]);
    } else {
      assert push.uris == [u];
      n := 0;
    }
  }

  lemma {:induction false} LastMatch(writes: seq<Write>, fn: Function, us: seq<string>, qualifiers: seq<Qualifier>,
                                     n: nat)
    returns (k: nat)
    requires n < |writes| && Matches(writes[n], fn, us, qualifiers)
    ensures n <= k < |writes| && Matches(writes[k], fn, us, qualifiers)
    ensures forall j :: k < j < |writes| ==> !Matches(writes[j], fn, us, qualifiers)
    decreases |writes| - n
  {
    if j :| n < j < |writes| && Matches(writes[j], fn, us, qualifiers) {
      k := LastMatch(writes, fn, us, qualifiers, j);
    } else {
      k := n;
    }
  }

  lemma LastMatchWins(before: Entries, writes: seq<Write>, fn: Function, us: seq<string>, qualifiers: seq<Qualifier>,
                      k: nat)
    requires k < |writes| && Matches(writes[k], fn, us, qualifiers)
    requires forall j :: k < j < |writes| ==> !Matches(writes[j], fn, us, qualifiers)
    ensures EntryAt(ApplyWrites(before, writes), ReferenceKey(fn, CanonicalReference(us, qualifiers))) ==
        Some(writes[k].data)
  {
    var head, tail := writes[..k], writes[k + 1..];
    assert writes == (head + [writes[k]]) + tail;
    ApplyAppend(before, head + [writes[k]], tail);
    ApplyOne(before, head, writes[k]);
    ReferenceKeyIffPermutation(fn, us, qualifiers, writes[k].fn, writes[k].uris, writes[k].qualifiers);
    UnmatchedUnchanged(ApplyWrites(before, head + [writes[k]]), tail, fn, us, qualifiers);
  }

  /**
    Whatever kind is asked for, a lookup that finds something finds what was pushed, and it finds it while it is
    fresh.
   */
  lemma EitherKindHits(before: Entries, push: PushRequest, times: seq<int>, req: FetchRequest, i: nat, reading: Reading)
    requires push.fn.Some? && push.uris != [] && |times| == PushCount(push.uris)
    requires forall q :: q in push.qualifiers ==> !Volatile(q)
    requires i < |req.uris| && req.uris[i] in push.uris
    requires multiset(Stable(req.qualifiers)) == multiset(push.qualifiers) && !reading.failed
    ensures var found := Found(ApplyWrites(before, PushWrites(push, times)), push.fn.value, req, i, reading);
            && (found.Some? ==> found.value.digest == push.digest && found.value.assetType == push.assetType)
            && (((push.expireAt.None? || push.expireAt == Some(0) || push.expireAt.value >= reading.now)
                 && (req.oldest.None? || (forall k :: 0 <= k < |times| ==> times[k] >= req.oldest.value))) ==>
                  found.Some?)
  {
    var k := PushThenFetch(before, push, times, req, i, reading);
  }

  /**
    A hit does not look at the type of the asset: a fetch of either kind that lists only URIs of one push answers with
    the digest that was pushed, also when that is a directory's root and a blob was asked for, or the other way round.
   */
  lemma HitIgnoresType(before: Entries, push: PushRequest, times: seq<int>, after: Entries, req: FetchRequest,
                       trace: FetchTrace, called: Option<Result<FetchResponse>>, response: Option<FetchResponse>,
                       code: Code)
    requires push.fn.Some? && push.uris != [] && |times| == PushCount(push.uris)
    requires forall q :: q in push.qualifiers ==> !Volatile(q)
    requires multiset(Stable(req.qualifiers)) == multiset(push.qualifiers)
    requires forall i :: 0 <= i < |req.uris| ==> req.uris[i] in push.uris
    requires FetchSpec(ApplyWrites(before, PushWrites(push, times)), after, push.fn.value, req, trace, called, response,
                       code)
    requires called.None? && forall i :: 0 <= i < |trace.readings| ==> !trace.readings[i].failed
    ensures response.Some? && response.value.status == OK && response.value.digest == push.digest
  {
    var i := |trace.readings| - 1;
    EitherKindHits(before, push, times, req, i, trace.readings[i]);
  }

  /**
    A fetch can look a pushed reference up exactly when the push had no volatile qualifier: fetches strip those,
    pushes do not.
   */
  lemma PushedIsFetchableIff(fn: Function, u: string, pushed: seq<Qualifier>)
    ensures (exists qs :: LookupKey(fn, u, qs) == ReferenceKey(fn, CanonicalReference([u], pushed))) <==>
              forall q :: q in pushed ==> !Volatile(q)
  {
    if forall q :: q in pushed ==> !Volatile(q) {
      StableUnchangedIff(pushed);
      assert LookupKey(fn, u, pushed) == ReferenceKey(fn, CanonicalReference([u], pushed));
    }
    forall qs, q | LookupKey(fn, u, qs) == ReferenceKey(fn, CanonicalReference([u], pushed)) && q in pushed
      ensures !Volatile(q)
    {
      ReferenceKeyIffPermutation(fn, [u], Stable(qs), fn, [u], pushed);
      StableCounts(qs, q);
      assert q in multiset(pushed);
    }
  }

  /**
    Volatile qualifiers, wherever they stand and whatever they say, show neither in lookups nor in the writes after a
    miss.
   */
  lemma VolatileNeverShows(fn: Function, req: FetchRequest, response: FetchResponse, at: int,
                           a: seq<Qualifier>, v: seq<Qualifier>, w: seq<Qualifier>, b: seq<Qualifier>)
    requires forall q :: q in v || q in w ==> Volatile(q)
    ensures forall u :: LookupKey(fn, u, a + v + b) == LookupKey(fn, u, a + w + b)
    ensures FetchWrites(fn, req, response.(qualifiers := a + v + b), at) ==
        FetchWrites(fn, req, response.(qualifiers := a + w + b), at)
  {
    StableIgnoresVolatile(a, v, w, b);
  }
}
