/** Canonical asset references, the keys of the asset index. */
module AssetReferences {
  import opened Sorting
  import opened Qualifiers
  import opened Messages
  import opened BlobStores

  /** The reference that NewAssetReference builds. */
  function CanonicalReference(uris: seq<string>, qualifiers: seq<Qualifier>): AssetReference {
    AssetReference(SortUris(uris), SortQualifiers(qualifiers))
  }

  predicate Canonical(ref: AssetReference) {
    ref == CanonicalReference(ref.uris, ref.qualifiers)
  }

  /** The key of a reference in a store that files assets under the digest of the reference itself. */
  function ReferenceKey(fn: Function, ref: AssetReference): Key {
    KeyOf(fn, ReferenceWire(ref))
  }

  /** Two references are equal exactly when their URIs and their qualifiers are permutations of each other. */
  lemma CanonicalIffPermutation(us: seq<string>, qs: seq<Qualifier>, vs: seq<string>, rs: seq<Qualifier>)
    ensures CanonicalReference(us, qs) == CanonicalReference(vs, rs) <==>
              multiset(us) == multiset(vs) && multiset(qs) == multiset(rs)
  {
    StringOrder();
    QualifierOrder();
    SortEqualIffPermutation(StringLess, us, vs);
    SortEqualIffPermutation(QualifierLess, qs, rs);
  }

  lemma CanonicalIsCanonical(us: seq<string>, qs: seq<Qualifier>)
    ensures Canonical(CanonicalReference(us, qs))
  {
    StringOrder();
    QualifierOrder();
    SortIdempotent(StringLess, us);
    SortIdempotent(QualifierLess, qs);
  }

  /** Keys are equal exactly for the same digest function and permuted URIs and qualifiers. */
  lemma ReferenceKeyIffPermutation(fn: Function, us: seq<string>, qs: seq<Qualifier>,
                                   gn: Function, vs: seq<string>, rs: seq<Qualifier>)
    ensures ReferenceKey(fn, CanonicalReference(us, qs)) == ReferenceKey(gn, CanonicalReference(vs, rs)) <==>
              fn == gn && multiset(us) == multiset(vs) && multiset(qs) == multiset(rs)
  {
    CanonicalIffPermutation(us, qs, vs, rs);
    ReferenceDigestInjective(fn.algorithm, gn.algorithm, CanonicalReference(us, qs), CanonicalReference(vs, rs));
  }

  /** Copies the slice, element by element. */
  method ToArray(q: array<Qualifier>) returns (out: array<Qualifier>)
    ensures fresh(out) && out[..] == q[..]
  {
    out := new Qualifier[q.Length](_ => Qualifier("", ""));
    for i := 0 to q.Length
      invariant forall j :: 0 <= j < i ==> out[j] == q[j]
    {
      out[i] := q[i];
    }
  }

  /** Sorts both of the caller's slices in place. */
  method NewAssetReference(uris: array<string>, qualifiers: array<Qualifier>) returns (ref: AssetReference)
    modifies uris, qualifiers
    ensures uris[..] == SortUris(old(uris[..]))
    ensures qualifiers[..] == SortQualifiers(old(qualifiers[..]))
    ensures ref == CanonicalReference(old(uris[..]), old(qualifiers[..]))
    ensures ref == AssetReference(uris[..], qualifiers[..])
  {
    QualifierOrder();
    SortInPlace(QualifierLess, qualifiers);
    StringOrder();
    SortInPlace(StringLess, uris);
    var sortedQualifiers := ToArray(qualifiers);
    ref := AssetReference(uris[..], sortedQualifiers[..]);
  }
}
