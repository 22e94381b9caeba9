/** The stores behind the service: a keyed blob store and the Content Addressable Storage. */
module BlobStores {
  import opened Common
  import opened Messages

  /** A blob is stored under a digest and the digest function it was made with. */
  datatype Key = Key(fn: Function, digest: Digest)

  type Cas = map<Key, Wire>

  function KeyOf(fn: Function, message: Wire): Key {
    Key(fn, DigestOf(fn.algorithm, message))
  }

  /** Every entry is stored under the digest of its content. */
  ghost predicate ContentAddressed(cas: Cas) {
    forall k :: k in cas ==> k.digest == Of(k.fn.algorithm, cas[k]) && Encode(cas[k]) == cas[k]
  }

  /** What a Get that meets no fault finds: the empty blob is present in every CAS. */
  function Lookup(cas: Cas, fn: Function, d: Digest): Option<Wire> {
    if d == EmptyDigest(fn.algorithm) then Some(EMPTY_BLOB)
    else if Key(fn, d) in cas then Some(cas[Key(fn, d)])
    else None
  }

  predicate Present(cas: Cas, fn: Function, d: Digest) {
    Lookup(cas, fn, d).Some?
  }

  function Store(cas: Cas, fn: Function, message: Wire): Cas {
    cas[KeyOf(fn, message) := Encode(message)]
  }

  function StoreAll(cas: Cas, fn: Function, messages: seq<Wire>): Cas
    decreases messages
  {
    if messages == [] then cas
    else StoreAll(Store(cas, fn, messages[0]), fn, messages[1..])
  }

  lemma LookupStored(cas: Cas, fn: Function, message: Wire)
    requires ContentAddressed(cas)
    requires KeyOf(fn, message) in cas
    ensures Lookup(cas, fn, DigestOf(fn.algorithm, message)) == Some(Encode(message))
  {
  }

  lemma StoreKeeps(cas: Cas, fn: Function, message: Wire)
    requires ContentAddressed(cas)
    ensures ContentAddressed(Store(cas, fn, message))
    ensures Grown(cas, Store(cas, fn, message))
  {
  }

  /** One CAS extends another: nothing was removed or altered. */
  ghost predicate Grown(before: Cas, after: Cas) {
    forall k :: k in before ==> k in after && after[k] == before[k]
  }

  lemma {:induction false} StoreAllKeeps(cas: Cas, fn: Function, messages: seq<Wire>)
    requires ContentAddressed(cas)
    ensures ContentAddressed(StoreAll(cas, fn, messages))
    ensures Grown(cas, StoreAll(cas, fn, messages))
    ensures forall i :: 0 <= i < |messages| ==> KeyOf(fn, messages[i]) in StoreAll(cas, fn, messages)
    ensures forall k :: k in StoreAll(cas, fn, messages) ==>
        k in cas || exists i :: 0 <= i < |messages| && k == KeyOf(fn, messages[i])
    decreases messages
  {
    if messages != [] {
      var next := Store(cas, fn, messages[0]);
      StoreKeeps(cas, fn, messages[0]);
      StoreAllKeeps(next, fn, messages[1..]);
      assert KeyOf(fn, messages[0]) in next;
      forall i | 0 <= i < |messages| ensures KeyOf(fn, messages[i]) in StoreAll(cas, fn, messages) {
        if i > 0 {
          assert messages[i] == messages[1..][i - 1];
        }
      }
      forall k | k in StoreAll(cas, fn, messages) && k !in cas
        ensures exists i :: 0 <= i < |messages| && k == KeyOf(fn, messages[i])
      {
        if k !in next {
          var i :| 0 <= i < |messages| - 1 && k == KeyOf(fn, messages[1..][i]);
          assert messages[i + 1] == messages[1..][i];
        } else {
          assert k == KeyOf(fn, messages[0]);
        }
      }
    }
  }

  /** Storing messages makes present exactly their digests, besides those present before. */
  lemma PresentAfterStoreAll(cas: Cas, fn: Function, messages: seq<Wire>, d: Digest)
    requires ContentAddressed(cas)
    ensures Present(StoreAll(cas, fn, messages), fn, d) <==>
              Present(cas, fn, d) || exists i :: 0 <= i < |messages| && d == DigestOf(fn.algorithm, messages[i])
  {
    StoreAllKeeps(cas, fn, messages);
    if Key(fn, d) in StoreAll(cas, fn, messages) && Key(fn, d) !in cas {
      var i :| 0 <= i < |messages| && Key(fn, d) == KeyOf(fn, messages[i]);
    }
  }

  lemma {:induction false} StoreAllAppend(cas: Cas, fn: Function, a: seq<Wire>, b: seq<Wire>)
    ensures StoreAll(cas, fn, a + b) == StoreAll(StoreAll(cas, fn, a), fn, b)
    decreases a
  {
    if a == [] {
      assert a + b == b;
    } else {
      assert (a + b)[1..] == a[1..] + b;
      StoreAllAppend(Store(cas, fn, a[0]), fn, a[1..], b);
    }
  }

  /** A keyed store. Calls on a store that is not `healthy` may fail at any time, without effect. */
  class BlobAccess<V> {
    var data: map<Key, V>
    const healthy: bool

    constructor (healthy: bool)
      ensures data == map[] && this.healthy == healthy
    {
      this.data := map[];
      this.healthy := healthy;
    }

    method Get(k: Key) returns (r: Result<V>)
      ensures r.Success? ==> k in data && r.value == data[k]
      ensures r.Failure? ==> r.code == Unavailable || (r.code == NotFound && k !in data)
      ensures healthy ==> r == if k in data then Success(data[k]) else Failure(NotFound)
    {
      if !healthy {
        if * {
          return Failure(Unavailable);
        }
      }
      r := if k in data then Success(data[k]) else Failure(NotFound);
    }

    method Put(k: Key, v: V) returns (code: Code)
      modifies this`data
      ensures code == OK ==> data == old(data)[k := v]
      ensures code != OK ==> code == Unavailable && data == old(data)
      ensures healthy ==> code == OK
    {
      if !healthy {
        if * {
          return Unavailable;
        }
      }
      data := data[k := v];
      code := OK;
    }
  }

  /** The Content Addressable Storage. It only grows. */
  class ContentAddressableStorage {
    var blobs: Cas
    const healthy: bool

    ghost predicate Valid()
      reads this
    {
      ContentAddressed(blobs)
    }

    constructor (healthy: bool)
      ensures Valid() && blobs == map[] && this.healthy == healthy
    {
      this.blobs := map[];
      this.healthy := healthy;
    }

    method Get(fn: Function, d: Digest) returns (r: Result<Wire>)
      ensures r.Success? ==> Lookup(blobs, fn, d) == Some(r.value)
      ensures healthy ==> (r.Success? <==> Present(blobs, fn, d))
      ensures r.Failure? ==> r.code == Unavailable || (r.code == NotFound && !Present(blobs, fn, d))
      ensures healthy && r.Failure? ==> r.code == NotFound
      ensures r.Failure? ==> r.code != OK
    {
      if !healthy {
        if * {
          return Failure(Unavailable);
        }
      }
      var found := Lookup(blobs, fn, d);
      r := if found.Some? then Success(found.value) else Failure(NotFound);
    }

    method Put(fn: Function, message: Wire) returns (code: Code)
      requires Valid()
      modifies this`blobs
      ensures Valid()
      ensures code == OK ==> blobs == Store(old(blobs), fn, message)
      ensures code != OK ==> code == Unavailable && blobs == old(blobs)
      ensures healthy ==> code == OK
    {
      StoreKeeps(blobs, fn, message);
      if !healthy {
        if * {
          return Unavailable;
        }
      }
      blobs := Store(blobs, fn, message);
      code := OK;
    }
  }
}
