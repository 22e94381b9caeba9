/** The asset store keyed by references, and the writes that build its content. */
module AssetIndex {
  import opened Common
  import opened Qualifiers
  import opened Messages
  import opened BlobStores
  import opened AssetReferences

  type Entries = map<Key, Asset>

  /** One write to the index, with URIs and qualifiers in the order the caller gave them. */
  datatype Write = Write(fn: Function, uris: seq<string>, qualifiers: seq<Qualifier>, data: Asset)

  function WriteKey(w: Write): Key {
    ReferenceKey(w.fn, CanonicalReference(w.uris, w.qualifiers))
  }

  function ApplyWrites(entries: Entries, writes: seq<Write>): Entries {
    if writes == [] then entries
    else
      var last := writes[|writes| - 1];
      ApplyWrites(entries, writes[..|writes| - 1])[WriteKey(last) := last.data]
  }

  lemma ApplyOne(entries: Entries, writes: seq<Write>, w: Write)
    ensures ApplyWrites(entries, writes + [w]) == ApplyWrites(entries, writes)[WriteKey(w) := w.data]
  {
  }

  lemma {:induction false} ApplyAppend(entries: Entries, a: seq<Write>, b: seq<Write>)
    ensures ApplyWrites(entries, a + b) == ApplyWrites(ApplyWrites(entries, a), b)
    decreases |b|
  {
    if b == [] {
      assert a + b == a;
    } else {
      var n := |b| - 1;
      assert (a + b)[..|a + b| - 1] == a + b[..n] && (a + b)[|a + b| - 1] == b[n];
      ApplyAppend(entries, a, b[..n]);
    }
  }

  /** A write to the same digest function, URIs and qualifiers, in whatever order. */
  predicate Matches(w: Write, fn: Function, uris: seq<string>, qualifiers: seq<Qualifier>) {
    w.fn == fn && multiset(w.uris) == multiset(uris) && multiset(w.qualifiers) == multiset(qualifiers)
  }

  /** The most recent write under a digest function, URIs and qualifiers. */
  function LastWrite(writes: seq<Write>, fn: Function, uris: seq<string>, qualifiers: seq<Qualifier>): Option<Asset> {
    if writes == [] then None
    else
      var last := writes[|writes| - 1];
      if Matches(last, fn, uris, qualifiers) then Some(last.data)
      else LastWrite(writes[..|writes| - 1], fn, uris, qualifiers)
  }

  function EntryAt(entries: Entries, k: Key): Option<Asset> {
    if k in entries then Some(entries[k]) else None
  }

  /** Under any key stands what was last written for the same digest function, URIs and qualifiers. */
  lemma {:induction false} EntryIsLastWrite(writes: seq<Write>, fn: Function, uris: seq<string>,
                                            qualifiers: seq<Qualifier>)
    ensures EntryAt(ApplyWrites(map[], writes), ReferenceKey(fn, CanonicalReference(uris, qualifiers))) ==
              LastWrite(writes, fn, uris, qualifiers)
  {
    if writes != [] {
      var last := writes[|writes| - 1];
      EntryIsLastWrite(writes[..|writes| - 1], fn, uris, qualifiers);
      ReferenceKeyIffPermutation(fn, uris, qualifiers, last.fn, last.uris, last.qualifiers);
    }
  }

  /** Keys without a matching write keep their entry. */
  lemma {:induction false} UnmatchedUnchanged(entries: Entries, writes: seq<Write>, fn: Function, uris: seq<string>,
                                              qualifiers: seq<Qualifier>)
    requires forall i :: 0 <= i < |writes| ==> !Matches(writes[i], fn, uris, qualifiers)
    ensures EntryAt(ApplyWrites(entries, writes), ReferenceKey(fn, CanonicalReference(uris, qualifiers))) ==
              EntryAt(entries, ReferenceKey(fn, CanonicalReference(uris, qualifiers)))
  {
    if writes != [] {
      var last := writes[|writes| - 1];
      UnmatchedUnchanged(entries, writes[..|writes| - 1], fn, uris, qualifiers);
      ReferenceKeyIffPermutation(fn, uris, qualifiers, last.fn, last.uris, last.qualifiers);
    }
  }

  /** A clock that never runs backwards. */
  class Clock {
    var now: int

    constructor ()
    {
      now := 0;
    }

    method Now() returns (t: int)
      modifies this
      ensures t == now && now >= old(now)
    {
      var elapsed :| elapsed >= 0;
      now := now + elapsed;
      t := now;
    }
  }

  /** The asset store that files each asset under the digest of its reference. */
  class BlobAccessAssetStore {
    const blobAccess: BlobAccess<Asset>

    constructor (blobAccess: BlobAccess<Asset>)
      ensures this.blobAccess == blobAccess
    {
      this.blobAccess := blobAccess;
    }

    method Get(ref: AssetReference, fn: Function) returns (r: Result<Asset>)
      ensures r.Success? ==> EntryAt(blobAccess.data, ReferenceKey(fn, ref)) == Some(r.value)
      ensures r.Failure? ==> r.code == Unavailable || EntryAt(blobAccess.data, ReferenceKey(fn, ref)) == None
      ensures blobAccess.healthy ==> (r.Success? <==> ReferenceKey(fn, ref) in blobAccess.data)
    {
      r := blobAccess.Get(ReferenceKey(fn, ref));
    }

    method Put(ref: AssetReference, data: Asset, fn: Function) returns (code: Code)
      modifies blobAccess`data
      ensures code == OK ==> blobAccess.data == old(blobAccess.data)[ReferenceKey(fn, ref) := data]
      ensures code != OK ==> code == Unavailable && blobAccess.data == old(blobAccess.data)
      ensures blobAccess.healthy ==> code == OK
    {
      code := blobAccess.Put(ReferenceKey(fn, ref), data);
    }
  }
}
