/** Remote Asset API qualifiers: their order, their map form and the removal of volatile ones. */
module Qualifiers {
  import opened Common
  import opened Sorting

  datatype Qualifier = Qualifier(name: string, value: string)

  const LEGACY_AUTH_HEADERS := "bazel.auth_headers"
  const HTTP_HEADER_URL_PREFIX := "http_header_url:"

  // ---- Lexicographic order ----

  predicate StringLess(a: string, b: string) {
    b != [] && (a == [] || a[0] < b[0] || (a[0] == b[0] && StringLess(a[1..], b[1..])))
  }

  predicate QualifierLess(q: Qualifier, r: Qualifier) {
    StringLess(q.name, r.name) || (q.name == r.name && StringLess(q.value, r.value))
  }

  lemma StringLessIrreflexive(a: string)
    ensures !StringLess(a, a)
  {
  }

  lemma StringLessTransitive(a: string, b: string, c: string)
    requires StringLess(a, b) && StringLess(b, c)
    ensures StringLess(a, c)
  {
  }

  lemma StringLessConnected(a: string, b: string)
    ensures a == b || StringLess(a, b) || StringLess(b, a)
  {
  }

  lemma StringOrder()
    ensures StrictTotalOrder(StringLess)
  {
    forall a ensures !StringLess(a, a) {
      StringLessIrreflexive(a);
    }
    forall a, b, c | StringLess(a, b) && StringLess(b, c) ensures StringLess(a, c) {
      StringLessTransitive(a, b, c);
    }
    forall a, b ensures a == b || StringLess(a, b) || StringLess(b, a) {
      StringLessConnected(a, b);
    }
  }

  /** Less orders qualifiers strictly and totally, by name and then by value. */
  lemma QualifierOrder()
    ensures StrictTotalOrder(QualifierLess)
  {
    StringOrder();
  }

  /** Lexicographic: a proper prefix comes first, and otherwise the first difference decides. */
  lemma {:induction false} StringLessIff(a: string, b: string)
    ensures StringLess(a, b) <==>
              exists n :: 0 <= n <= |a| && n < |b| && a[..n] == b[..n] && (n == |a| || a[n] < b[n])
  {
    if a != [] && b != [] && a[0] == b[0] {
      StringLessIff(a[1..], b[1..]);
      forall n | 0 <= n <= |a| - 1 && n < |b| - 1 && a[1..][..n] == b[1..][..n]
        ensures a[..n + 1] == b[..n + 1]
      {
        assert a[..n + 1] == [a[0]] + a[1..][..n] && b[..n + 1] == [b[0]] + b[1..][..n];
      }
      forall n | 0 < n <= |a| && n < |b| && a[..n] == b[..n] ensures a[1..][..n - 1] == b[1..][..n - 1] {
        assert a[1..][..n - 1] == a[..n][1..] && b[1..][..n - 1] == b[..n][1..];
      }
      if n :| && 0 <= n <= |a[1..]| && n < |b[1..]| && a[1..][..n] == b[1..][..n]
              && (n == |a[1..]| || a[1..][n] < b[1..][n]) {
        assert a[..n + 1] == b[..n + 1] && (n + 1 == |a| || a[n + 1] < b[n + 1]);
      }
      if n :| 0 <= n <= |a| && n < |b| && a[..n] == b[..n] && (n == |a| || a[n] < b[n]) {
        assert n > 0 && a[1..][..n - 1] == b[1..][..n - 1] && (n == |a| || a[1..][n - 1] < b[1..][n - 1]);
      }
    } else if b != [] && (a == [] || a[0] < b[0]) {
      assert a[..0] == b[..0];
    } else if n :| 0 <= n <= |a| && n < |b| && a[..n] == b[..n] && (n == |a| || a[n] < b[n]) {
      assert n > 0 ==> a[..n][0] == b[..n][0];
    }
  }

  /** Sorted qualifiers are in order of their names, and those of one name in order of their values. */
  lemma SortedByNameThenValue(qs: seq<Qualifier>, i: nat, j: nat)
    requires i < j < |qs|
    ensures var rs := SortQualifiers(qs);
            && !StringLess(rs[j].name, rs[i].name)
            && (rs[i].name == rs[j].name ==> !StringLess(rs[j].value, rs[i].value))
  {
    QualifierOrder();
    SortSorts(QualifierLess, qs);
    assert !QualifierLess(SortQualifiers(qs)[j], SortQualifiers(qs)[i]);
  }

  function SortQualifiers(qs: seq<Qualifier>): seq<Qualifier> {
    Sort(QualifierLess, qs)
  }

  function SortUris(uris: seq<string>): seq<string> {
    Sort(StringLess, uris)
  }

  // ---- Volatile qualifiers ----

  predicate HasPrefix(s: string, prefix: string) {
    prefix <= s
  }

  predicate Volatile(q: Qualifier) {
    HasPrefix(q.name, HTTP_HEADER_URL_PREFIX) || q.name == LEGACY_AUTH_HEADERS
  }

  /** Volatile are the legacy authorization headers and the headers of single URLs. */
  lemma VolatileIff(q: Qualifier)
    ensures Volatile(q) <==>
        q.name == "bazel.auth_headers" || exists rest: string :: q.name == "http_header_url:" + rest
  {
    if HasPrefix(q.name, HTTP_HEADER_URL_PREFIX) {
      assert q.name == "http_header_url:" + q.name[|HTTP_HEADER_URL_PREFIX|..];
    }
  }

  /** The qualifiers that are not volatile, in their original order. */
  function Stable(qs: seq<Qualifier>): seq<Qualifier> {
    if qs == [] then []
    else if Volatile(qs[0]) then Stable(qs[1..])
    else [qs[0]] + Stable(qs[1..])
  }

  lemma {:induction false} StableAppend(a: seq<Qualifier>, b: seq<Qualifier>)
    ensures Stable(a + b) == Stable(a) + Stable(b)
  {
    if a == [] {
      assert a + b == b;
    } else {
      assert (a + b)[1..] == a[1..] + b;
      StableAppend(a[1..], b);
    }
  }

  /** Removal keeps every stable qualifier with its multiplicity and no volatile one. */
  lemma {:induction false} StableCounts(qs: seq<Qualifier>, q: Qualifier)
    ensures multiset(Stable(qs))[q] == if Volatile(q) then 0 else multiset(qs)[q]
  {
    if qs != [] {
      assert qs == [qs[0]] + qs[1..];
      StableCounts(qs[1..], q);
    }
  }

  /** Removal commutes with reordering. */
  lemma StablePermutation(qs: seq<Qualifier>, rs: seq<Qualifier>)
    requires multiset(qs) == multiset(rs)
    ensures multiset(Stable(qs)) == multiset(Stable(rs))
  {
    forall q ensures multiset(Stable(qs))[q] == multiset(Stable(rs))[q] {
      StableCounts(qs, q);
      StableCounts(rs, q);
    }
  }

  /** Removal changes a list exactly when the list holds a volatile qualifier; in particular it is idempotent. */
  lemma {:induction false} StableUnchangedIff(qs: seq<Qualifier>)
    ensures Stable(qs) == qs <==> forall q :: q in qs ==> !Volatile(q)
    ensures Stable(Stable(qs)) == Stable(qs)
  {
    if qs != [] {
      StableUnchangedIff(qs[1..]);
      assert qs == [qs[0]] + qs[1..];
      forall q | q in qs ensures q == qs[0] || q in qs[1..] {}
      StableCounts(qs, qs[0]);
      if Volatile(qs[0]) {
        assert qs[0] in multiset(qs) && qs[0] !in multiset(Stable(qs));
      } else {
        assert Stable(qs)[1..] == Stable(qs[1..]);
      }
    }
  }

  /** Adding, dropping or replacing volatile qualifiers anywhere in the list does not show after removal. */
  lemma StableIgnoresVolatile(a: seq<Qualifier>, v: seq<Qualifier>, w: seq<Qualifier>, b: seq<Qualifier>)
    requires forall q :: q in v || q in w ==> Volatile(q)
    ensures Stable(a + v + b) == Stable(a + w + b) == Stable(a + b)
  {
    StableDropsVolatile(a, v, b);
    StableDropsVolatile(a, w, b);
  }

  lemma StableDropsVolatile(a: seq<Qualifier>, v: seq<Qualifier>, b: seq<Qualifier>)
    requires forall q :: q in v ==> Volatile(q)
    ensures Stable(a + v + b) == Stable(a + b)
  {
    AllVolatile(v);
    StableAppend(a, v);
    StableAppend(a + v, b);
    StableAppend(a, b);
    assert Stable(a) + [] == Stable(a);
  }

  lemma {:induction false} AllVolatile(v: seq<Qualifier>)
    requires forall q :: q in v ==> Volatile(q)
    ensures Stable(v) == []
  {
    if v != [] {
      assert v[0] in v;
      AllVolatile(v[1..]);
    }
  }

  /** The slice that removeVolatileQualifiers grows in its loop; the argument is not touched. */
  method RemoveVolatileQualifiers(qualifiers: seq<Qualifier>) returns (stable: seq<Qualifier>)
    ensures stable == Stable(qualifiers)
  {
    stable := [];
    for i := 0 to |qualifiers|
      invariant stable == Stable(qualifiers[..i])
    {
      assert qualifiers[..i + 1] == qualifiers[..i] + [qualifiers[i]];
      StableAppend(qualifiers[..i], [qualifiers[i]]);
      if HasPrefix(qualifiers[i].name, HTTP_HEADER_URL_PREFIX) {
        continue;
      }
      if qualifiers[i].name == LEGACY_AUTH_HEADERS {
        continue;
      }
      stable := stable + [qualifiers[i]];
    }
    assert qualifiers[..|qualifiers|] == qualifiers;
  }

  // ---- Qualifiers as a map ----

  /** The map in which a later duplicate of a name replaces an earlier one. */
  function AsMap(qs: seq<Qualifier>): map<string, string> {
    if qs == [] then map[]
    else
      var last := qs[|qs| - 1];
      AsMap(qs[..|qs| - 1])[last.name := last.value]
  }

  lemma AsMapAppend(qs: seq<Qualifier>, q: Qualifier)
    ensures AsMap(qs + [q]) == AsMap(qs)[q.name := q.value]
  {
    assert (qs + [q])[..|qs|] == qs;
  }

  method MakeMap(qualifiers: seq<Qualifier>) returns (qual: map<string, string>)
    ensures qual == AsMap(qualifiers)
  {
    qual := map[];
    for i := 0 to |qualifiers|
      invariant qual == AsMap(qualifiers[..i])
    {
      assert qualifiers[..i + 1][..i] == qualifiers[..i];
      qual := qual[qualifiers[i].name := qualifiers[i].value];
    }
    assert qualifiers[..|qualifiers|] == qualifiers;
  }

  /** The value of a name is that of its last occurrence. */
  lemma {:induction false} AsMapLookup(qs: seq<Qualifier>, name: string)
    ensures name in AsMap(qs) <==> exists i :: 0 <= i < |qs| && qs[i].name == name
    ensures forall i :: 0 <= i < |qs| && qs[i].name == name && (forall j :: i < j < |qs| ==> qs[j].name != name)
                        ==> name in AsMap(qs) && AsMap(qs)[name] == qs[i].value
  {
    if qs != [] {
      var n := |qs| - 1;
      AsMapLookup(qs[..n], name);
      if qs[n].name != name {
        forall i | 0 <= i < |qs| && qs[i].name == name ensures i < n && qs[..n][i].name == name {}
        if name in AsMap(qs[..n]) {
          var i :| 0 <= i < n && qs[..n][i].name == name;
          assert qs[i].name == name;
        }
        forall i | 0 <= i < |qs| && qs[i].name == name && (forall j :: i < j < |qs| ==> qs[j].name != name)
          ensures name in AsMap(qs) && AsMap(qs)[name] == qs[i].value
        {
          assert qs[..n][i] == qs[i];
          assert forall j :: i < j < n ==> qs[..n][j] == qs[j];
        }
      }
    }
  }

  ghost predicate DistinctNames(qs: seq<Qualifier>) {
    forall i, j :: 0 <= i < j < |qs| ==> qs[i].name != qs[j].name
  }

  /** With distinct names the map holds exactly the listed pairs, whatever their order. */
  lemma AsMapDistinct(qs: seq<Qualifier>, name: string, value: string)
    requires DistinctNames(qs)
    ensures (name in AsMap(qs) && AsMap(qs)[name] == value) <==> Qualifier(name, value) in qs
  {
  }

  lemma DistinctNamesPermutation(qs: seq<Qualifier>, rs: seq<Qualifier>)
    requires DistinctNames(qs) && multiset(rs) <= multiset(qs)
    ensures DistinctNames(rs)
  {
    forall i, j | 0 <= i < j < |rs| ensures rs[i].name != rs[j].name {
      assert rs[i] in multiset(rs) && rs[j] in multiset(rs);
      assert rs[i] in multiset(qs) && rs[j] in multiset(qs);
      var p :| 0 <= p < |qs| && qs[p] == rs[i];
      var q :| 0 <= q < |qs| && qs[q] == rs[j];
      if p == q {
        TwiceWhenRepeated(rs, i, j);
        OnceWhenDistinct(qs, p);
      }
    }
  }

  lemma TwiceWhenRepeated(rs: seq<Qualifier>, i: nat, j: nat)
    requires i < j < |rs| && rs[i] == rs[j]
    ensures multiset(rs)[rs[i]] >= 2
  {
    assert rs == rs[..j] + [rs[j]] + rs[j + 1..];
    assert rs[..j][i] == rs[j];
  }

  lemma OnceWhenDistinct(qs: seq<Qualifier>, p: nat)
    requires DistinctNames(qs) && p < |qs|
    ensures multiset(qs)[qs[p]] == 1
  {
    assert qs == qs[..p] + [qs[p]] + qs[p + 1..];
    assert qs[p] !in qs[..p] && qs[p] !in qs[p + 1..];
    assert multiset(qs) == multiset(qs[..p]) + multiset{qs[p]} + multiset(qs[p + 1..]);
  }

  // ---- The first qualifier of a name ----

  function FirstNamed(qs: seq<Qualifier>, name: string): Option<string> {
    if qs == [] then None
    else if qs[0].name == name then Some(qs[0].value)
    else FirstNamed(qs[1..], name)
  }

  lemma {:induction false} FirstNamedPrefix(qs: seq<Qualifier>, i: nat, name: string)
    requires i < |qs|
    ensures FirstNamed(qs[..i], name).None? ==>
              FirstNamed(qs[..i + 1], name) == if qs[i].name == name then Some(qs[i].value) else None
    ensures FirstNamed(qs[..i], name).None? && qs[i].name == name ==> FirstNamed(qs, name) == Some(qs[i].value)
  {
    if i > 0 {
      FirstNamedPrefix(qs[1..], i - 1, name);
      assert qs[..i][1..] == qs[1..][..i - 1] && qs[..i + 1][1..] == qs[1..][..i];
    }
  }

  lemma {:induction false} FirstNamedAppend(a: seq<Qualifier>, q: Qualifier, b: seq<Qualifier>)
    requires forall r :: r in a ==> r.name != q.name
    ensures FirstNamed(a + [q] + b, q.name) == Some(q.value)
  {
    if a != [] {
      assert (a + [q] + b)[1..] == a[1..] + [q] + b;
      FirstNamedAppend(a[1..], q, b);
    }
  }
}
