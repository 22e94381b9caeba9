/**
  The Action Cache store against a history of writes, against the store keyed by references, and under interleaving.
 */
module ActionCacheRefinement {
  import opened Common
  import opened Sorting
  import opened Qualifiers
  import opened Messages
  import opened BlobStores
  import opened AssetReferences
  import opened Translator
  import opened Actions
  import opened ActionCacheStore
  import opened PutProtocol
  import opened Caching

  // ---- A history of entry writes ----

  ghost predicate AllSuccessful(jobs: seq<Job>) {
    forall i :: 0 <= i < |jobs| ==> ResultFor(jobs[i].fn, jobs[i].data).Some?
  }

  /** The Action Cache after the entry writes of these Puts, in this order. */
  ghost function CacheAfter(jobs: seq<Job>): map<Key, ActionResult>
    requires AllSuccessful(jobs)
  {
    if jobs == [] then map[]
    else
      var last := jobs[|jobs| - 1];
      CacheAfter(jobs[..|jobs| - 1])[last.key := ResultFor(last.fn, last.data).value]
  }

  /** The asset of the most recent Put under a key. */
  function LastUnder(jobs: seq<Job>, k: Key): Option<Asset> {
    if jobs == [] then None
    else
      var last := jobs[|jobs| - 1];
      if last.key == k then Some(last.data) else LastUnder(jobs[..|jobs| - 1], k)
  }

  /** How an asset comes back from the Action Cache: without its expiry, and not at all if its hash is empty. */
  function ReadBack(data: Option<Asset>): Result<Asset> {
    match data
    case None => Failure(NotFound)
    case Some(asset) => if HashEmpty(asset.digest) then Failure(InvalidArgument) else Success(asset.(expireAt := EPOCH))
  }

  /**
    A cache over this store accepts an asset that it would not accept as it was put exactly when the asset had expired
    but is young enough.
   */
  lemma ExpiredIsFreshAgainIff(data: Asset, now: int, oldest: Option<int>)
    requires !HashEmpty(data.digest)
    ensures ReadBack(Some(data)).Success?
    ensures (Fresh(ReadBack(Some(data)).value, now, oldest) && !Fresh(data, now, oldest)) <==>
              && data.expireAt.Some? && data.expireAt != EPOCH && data.expireAt.value < now
              && (oldest.None? || UpdateTime(data) >= oldest.value)
  {
  }

  lemma {:induction false} EntryIsLastUnder(jobs: seq<Job>, k: Key)
    requires AllSuccessful(jobs)
    ensures (if k in CacheAfter(jobs) then AssetOf(CacheAfter(jobs)[k]) else Failure(NotFound)) ==
        ReadBack(LastUnder(jobs, k))
  {
    if jobs != [] {
      var last := jobs[|jobs| - 1];
      EntryIsLastUnder(jobs[..|jobs| - 1], k);
      ResultRoundTrip(last.fn, last.data);
    }
  }

  /** Whatever branch its Action takes, Get for a reference returns the last asset put under the same Action key. */
  lemma {:induction false} GetReturnsLastUnderKey(platform: Option<Platform>, jobs: seq<Job>, ref: AssetReference,
                                                  fn: Function)
    requires AllSuccessful(jobs) && Convertible(ref)
    ensures GetFrom(CacheAfter(jobs), platform, ref, fn) == ReadBack(LastUnder(jobs, ActionKey(platform, ref, fn)))
  {
    EntryIsLastUnder(jobs, ActionKey(platform, ref, fn));
  }

  /**
    Get answers exactly if the last asset put under the key has a hash: one made by a digest function, or another that
    is not empty. It answers with digest, type and last update as they were put, and with the epoch for an expiry.
   */
  lemma GetAnswersIff(platform: Option<Platform>, jobs: seq<Job>, ref: AssetReference, fn: Function)
    requires AllSuccessful(jobs) && Convertible(ref)
    ensures var got := GetFrom(CacheAfter(jobs), platform, ref, fn);
            match LastUnder(jobs, ActionKey(platform, ref, fn))
            case None => got == Failure(NotFound)
            case Some(data) =>
              got == if data.digest.Of? || (data.digest.Opaque? && data.digest.hash != "")
                     then Success(Asset(data.digest, Some(0), data.lastUpdated, data.assetType))
                     else Failure(InvalidArgument)
  {
    GetReturnsLastUnderKey(platform, jobs, ref, fn);
  }

  // ---- Interleaved Puts ----

  /** The entry writes that took effect in a run, in their order: also those that were reported as failed. */
  ghost function EntryWrites(states: seq<State>, steps: seq<Step>, n: nat): seq<Job>
    requires |states| == |steps| + 1 && n <= |steps|
  {
    if n == 0 then []
    else EntryWrites(states, steps, n - 1) + EntryWrite(states[n - 1], steps[n - 1])
  }

  ghost function EntryWrite(s: State, step: Step): seq<Job> {
    if (step.Advance? || (step.Fault? && step.landed)) && step.p < |s.processes|
        && s.processes[step.p].phase.WritingEntry? then
      [s.processes[step.p].job]
    else []
  }

  lemma OneMoreWrite(jobs: seq<Job>, q: Process)
    requires AllSuccessful(jobs) && q.phase.WritingEntry? && WritesOwnResult(q)
    ensures AllSuccessful(jobs + [q.job])
    ensures CacheAfter(jobs + [q.job]) == AcEffect(CacheAfter(jobs), q)
  {
    assert (jobs + [q.job])[..|jobs|] == jobs;
  }

  lemma StepWrites(platform: Option<Platform>, s: State, step: Step, jobs: seq<Job>)
    requires Enabled(platform, s, step)
    requires forall p :: 0 <= p < |s.processes| ==> WritesOwnResult(s.processes[p])
    requires AllSuccessful(jobs) && s.ac == CacheAfter(jobs)
    ensures AllSuccessful(jobs + EntryWrite(s, step))
    ensures Apply(s, step).ac == CacheAfter(jobs + EntryWrite(s, step))
  {
    if EntryWrite(s, step) == [] {
      assert jobs + EntryWrite(s, step) == jobs;
    } else {
      OneMoreWrite(jobs, s.processes[step.p]);
    }
  }

  lemma OwnResults(platform: Option<Platform>, s: State)
    requires Inv(platform, s)
    ensures forall p :: 0 <= p < |s.processes| ==> WritesOwnResult(s.processes[p])
  {
    forall p | 0 <= p < |s.processes| ensures WritesOwnResult(s.processes[p]) {
      assert ProcessOk(s.cas, s.processes[p]);
    }
  }

  lemma {:induction false} RunReplaysWrites(platform: Option<Platform>, states: seq<State>, steps: seq<Step>, n: nat)
    requires IsRun(platform, states, steps) && Initial(states[0]) && n < |states|
    ensures AllSuccessful(EntryWrites(states, steps, n))
    ensures states[n].ac == CacheAfter(EntryWrites(states, steps, n))
  {
    if n > 0 {
      RunReplaysWrites(platform, states, steps, n - 1);
      RunsKeepIntegrity(platform, states, steps, n - 1);
      OwnResults(platform, states[n - 1]);
      StepWrites(platform, states[n - 1], steps[n - 1], EntryWrites(states, steps, n - 1));
    }
  }

  /**
    In every reachable state, whatever is interleaved and whatever fails, Get returns the asset of the Put whose entry
    write took effect last under an equal key.
   */
  lemma GetFollowsRun(platform: Option<Platform>, states: seq<State>, steps: seq<Step>, n: nat, ref: AssetReference,
                      fn: Function)
    requires IsRun(platform, states, steps) && Initial(states[0]) && n < |states|
    requires Convertible(ref)
    ensures GetFrom(states[n].ac, platform, ref, fn) ==
              ReadBack(LastUnder(EntryWrites(states, steps, n), ActionKey(platform, ref, fn)))
  {
    RunReplaysWrites(platform, states, steps, n);
    GetReturnsLastUnderKey(platform, EntryWrites(states, steps, n), ref, fn);
  }

  /** The same in every reachable state, without the detour over ReadBack. */
  lemma GetAnswersInRunIff(platform: Option<Platform>, states: seq<State>, steps: seq<Step>, n: nat,
                           ref: AssetReference, fn: Function)
    requires IsRun(platform, states, steps) && Initial(states[0]) && n < |states|
    requires Convertible(ref)
    ensures var got := GetFrom(states[n].ac, platform, ref, fn);
            match LastUnder(EntryWrites(states, steps, n), ActionKey(platform, ref, fn))
            case None => got == Failure(NotFound)
            case Some(data) =>
              got == if data.digest.Of? || (data.digest.Opaque? && data.digest.hash != "")
                     then Success(Asset(data.digest, Some(0), data.lastUpdated, data.assetType))
                     else Failure(InvalidArgument)
  {
    RunReplaysWrites(platform, states, steps, n);
    GetAnswersIff(platform, EntryWrites(states, steps, n), ref, fn);
  }

  // ---- Puts by reference, and the store keyed by references ----

  /** A Put that succeeded. */
  datatype PutOp = PutOp(fn: Function, ref: AssetReference, data: Asset)

  ghost predicate Successful(op: PutOp) {
    Canonical(op.ref) && Convertible(op.ref) && ResultFor(op.fn, op.data).Some?
  }

  ghost predicate AllPut(ops: seq<PutOp>) {
    forall i :: 0 <= i < |ops| ==> Successful(ops[i])
  }

  /** What the Puts write to the Action Cache (ActionCacheAssetStore.Put). */
  ghost function Jobs(platform: Option<Platform>, ops: seq<PutOp>): (jobs: seq<Job>)
    requires AllPut(ops)
    ensures |jobs| == |ops| && AllSuccessful(jobs)
  {
    if ops == [] then []
    else
      var op := ops[|ops| - 1];
      assert Successful(op);
      Jobs(platform, ops[..|ops| - 1]) + [JobFor(platform, op.fn, op.ref, op.data)]
  }

  /** The store that keeps each asset under its reference after the same Puts. */
  function PlainAfter(ops: seq<PutOp>): map<Key, Asset> {
    if ops == [] then map[]
    else
      var op := ops[|ops| - 1];
      PlainAfter(ops[..|ops| - 1])[ReferenceKey(op.fn, op.ref) := op.data]
  }

  function PlainGet(entries: map<Key, Asset>, k: Key): Option<Asset> {
    if k in entries then Some(entries[k]) else None
  }

  /** The asset of the most recent Put under a reference. */
  function LastPut(ops: seq<PutOp>, fn: Function, ref: AssetReference): Option<Asset> {
    if ops == [] then None
    else
      var op := ops[|ops| - 1];
      if op.fn == fn && op.ref == ref then Some(op.data) else LastPut(ops[..|ops| - 1], fn, ref)
  }

  lemma {:induction false} PlainReturnsLastPut(ops: seq<PutOp>, ref: AssetReference, fn: Function)
    ensures PlainGet(PlainAfter(ops), ReferenceKey(fn, ref)) == LastPut(ops, fn, ref)
  {
    if ops != [] {
      var op := ops[|ops| - 1];
      PlainReturnsLastPut(ops[..|ops| - 1], ref, fn);
      ReferenceDigestInjective(fn.algorithm, op.fn.algorithm, ref, op.ref);
    }
  }

  /** A Put under another reference writes under the same Action key. */
  ghost predicate Collides(platform: Option<Platform>, op: PutOp, ref: AssetReference, fn: Function)
    requires Successful(op) && Convertible(ref)
  {
    ActionKey(platform, op.ref, op.fn) == ActionKey(platform, ref, fn) && !(op.fn == fn && op.ref == ref)
  }

  /** Only generated Commands collide, and only those with the same script under the same digest function. */
  lemma CollidesIff(platform: Option<Platform>, op: PutOp, ref: AssetReference, fn: Function)
    requires Successful(op) && Canonical(ref) && Convertible(ref)
    ensures Collides(platform, op, ref, fn) <==>
              && op.ref != ref && op.fn == fn && !UrisAsArguments(op.ref) && !UrisAsArguments(ref)
              && Script(QualifiersToCommand(SortQualifiers(op.ref.qualifiers)).value, op.ref.uris[0]) ==
                 Script(QualifiersToCommand(SortQualifiers(ref.qualifiers)).value, ref.uris[0])
  {
    if UrisAsArguments(op.ref) && UrisAsArguments(ref) {
      SameActionKeyIff(platform, op.ref, op.fn, ref, fn);
    } else if UrisAsArguments(op.ref) {
      BranchesDisjoint(platform, op.ref, op.fn, ref, fn);
    } else if UrisAsArguments(ref) {
      BranchesDisjoint(platform, ref, fn, op.ref, op.fn);
    } else {
      GeneratedKeyIffScript(platform, op.ref, op.fn, ref, fn);
    }
  }

  /**
    Among qualifiers and URIs without blanks, two references collide exactly when both generate a Command for the same
    URI from the same shown values, and differ otherwise.
   */
  lemma CollidesIffSameShown(platform: Option<Platform>, op: PutOp, ref: AssetReference, fn: Function)
    requires Successful(op) && Canonical(ref) && Convertible(ref)
    requires NoBlanks(op.ref.qualifiers) && NoBlanks(ref.qualifiers)
    requires forall u :: u in op.ref.uris || u in ref.uris ==> ' ' !in u
    ensures Collides(platform, op, ref, fn) <==>
              && op.ref != ref && op.fn == fn && !UrisAsArguments(op.ref) && !UrisAsArguments(ref)
              && op.ref.uris == ref.uris
              && SameShown(QualifiersToCommand(op.ref.qualifiers).value, QualifiersToCommand(ref.qualifiers).value)
  {
    CollidesIff(platform, op, ref, fn);
    if !UrisAsArguments(op.ref) && !UrisAsArguments(ref) {
      NoBlanksInMap(op.ref.qualifiers);
      NoBlanksInMap(ref.qualifiers);
      assert op.ref.uris == [op.ref.uris[0]] && ref.uris == [ref.uris[0]];
      ScriptsEqualIff(QualifiersToCommand(op.ref.qualifiers).value, op.ref.uris[0],
                      QualifiersToCommand(ref.qualifiers).value, ref.uris[0]);
    }
  }

  /** No colliding Put came after the last Put under the reference itself. */
  ghost predicate LastWordKept(platform: Option<Platform>, ops: seq<PutOp>, ref: AssetReference, fn: Function)
    requires AllPut(ops) && Convertible(ref)
  {
    ops != [] ==>
      var op := ops[|ops| - 1];
      assert Successful(op);
      !Collides(platform, op, ref, fn)
          && ((op.fn == fn && op.ref == ref) || LastWordKept(platform, ops[..|ops| - 1], ref, fn))
  }

  lemma {:induction false} LastWordIsLastPut(platform: Option<Platform>, ops: seq<PutOp>, ref: AssetReference,
                                             fn: Function)
    requires AllPut(ops) && Convertible(ref) && LastWordKept(platform, ops, ref, fn)
    ensures LastUnder(Jobs(platform, ops), ActionKey(platform, ref, fn)) == LastPut(ops, fn, ref)
  {
    if ops != [] {
      var op := ops[|ops| - 1];
      assert Successful(op);
      assert Jobs(platform, ops)[..|ops| - 1] == Jobs(platform, ops[..|ops| - 1]);
      if !(op.fn == fn && op.ref == ref) {
        LastWordIsLastPut(platform, ops[..|ops| - 1], ref, fn);
      }
    }
  }

  /**
    After the same Puts both stores answer alike, up to expiry and empty hashes, unless a colliding Put had the last
    word.
   */
  lemma RefinesPlainStore(platform: Option<Platform>, ops: seq<PutOp>, ref: AssetReference, fn: Function)
    requires AllPut(ops) && Convertible(ref) && LastWordKept(platform, ops, ref, fn)
    ensures GetFrom(CacheAfter(Jobs(platform, ops)), platform, ref, fn) ==
              ReadBack(PlainGet(PlainAfter(ops), ReferenceKey(fn, ref)))
  {
    GetReturnsLastUnderKey(platform, Jobs(platform, ops), ref, fn);
    LastWordIsLastPut(platform, ops, ref, fn);
    PlainReturnsLastPut(ops, ref, fn);
  }

  /** Where a colliding Put had the last word, Get answers with its asset instead. */
  lemma {:induction false} LastWordLost(platform: Option<Platform>, ops: seq<PutOp>, ref: AssetReference, fn: Function)
    returns (i: nat)
    requires AllPut(ops) && Convertible(ref) && !LastWordKept(platform, ops, ref, fn)
    ensures i < |ops| && Successful(ops[i]) && Collides(platform, ops[i], ref, fn)
    ensures GetFrom(CacheAfter(Jobs(platform, ops)), platform, ref, fn) == ReadBack(Some(ops[i].data))
  {
    var n := |ops| - 1;
    assert Successful(ops[n]);
    var k, jobs := ActionKey(platform, ref, fn), Jobs(platform, ops);
    assert jobs[..n] == Jobs(platform, ops[..n]);
    GetReturnsLastUnderKey(platform, jobs, ref, fn);
    if Collides(platform, ops[n], ref, fn) {
      i := n;
    } else {
      i := LastWordLost(platform, ops[..n], ref, fn);
      GetReturnsLastUnderKey(platform, jobs[..n], ref, fn);
      assert jobs[n].key != k;
    }
  }

  /** With the URIs as arguments nothing collides: Get returns the last asset put under an equal reference. */
  lemma {:induction false} GetReturnsLastPut(platform: Option<Platform>, ops: seq<PutOp>, ref: AssetReference,
                                             fn: Function)
    requires AllPut(ops) && Canonical(ref) && UrisAsArguments(ref)
    ensures LastWordKept(platform, ops, ref, fn)
    ensures GetFrom(CacheAfter(Jobs(platform, ops)), platform, ref, fn) == ReadBack(LastPut(ops, fn, ref))
  {
    if ops != [] {
      var op := ops[|ops| - 1];
      assert Successful(op);
      GetReturnsLastPut(platform, ops[..|ops| - 1], ref, fn);
      CollidesIff(platform, op, ref, fn);
    }
    GetReturnsLastUnderKey(platform, Jobs(platform, ops), ref, fn);
    LastWordIsLastPut(platform, ops, ref, fn);
  }

  /** Put under one reference, an asset with a hash is found under another one exactly if the two collide. */
  lemma AnswersForOtherIff(platform: Option<Platform>, op: PutOp, ref: AssetReference, fn: Function)
    requires Successful(op) && Convertible(ref) && !(op.fn == fn && op.ref == ref) && !HashEmpty(op.data.digest)
    ensures GetFrom(CacheAfter(Jobs(platform, [op])), platform, ref, fn).Success? <==> Collides(platform, op, ref, fn)
    ensures PlainGet(PlainAfter([op]), ReferenceKey(fn, ref)) == None
  {
    GetReturnsLastUnderKey(platform, Jobs(platform, [op]), ref, fn);
    assert [op][..0] == [];
    var job := JobFor(platform, op.fn, op.ref, op.data);
    assert Jobs(platform, [op]) == Jobs(platform, []) + [job] == [job];
    assert LastUnder([], ActionKey(platform, ref, fn)) == None && [job][..0] == [];
    PlainReturnsLastPut([op], ref, fn);
  }

  /**
    Collisions occur: a qualifier that command generation does not consult shows in the reference but not in the key.
   */
  lemma UnconsultedCollides(platform: Option<Platform>, uri: string, qs: seq<Qualifier>, q: Qualifier, fn: Function,
                            data: Asset)
    requires DistinctNames(qs + [q]) && !Consulted(q.name)
    requires var ref := CanonicalReference([uri], qs); Convertible(ref) && !UrisAsArguments(ref)
    requires ResultFor(fn, data).Some?
    ensures var op := PutOp(fn, CanonicalReference([uri], qs + [q]), data);
            Successful(op) && Collides(platform, op, CanonicalReference([uri], qs), fn)
  {
    var r, s := CanonicalReference([uri], qs), CanonicalReference([uri], qs + [q]);
    CanonicalIsCanonical([uri], qs);
    CanonicalIsCanonical([uri], qs + [q]);
    SortedAgreesUnconsulted(qs, q);
    GeneratedFromConsulted(SortQualifiers(qs), SortQualifiers(qs + [q]), uri);
    CanonicalIffPermutation([uri], qs, [uri], qs + [q]);
    assert |multiset(qs)| == |qs| && |multiset(qs + [q])| == |qs| + 1;
    assert SortUris([uri]) == [uri];
    assert SortQualifiers(r.qualifiers) == r.qualifiers && SortQualifiers(s.qualifiers) == s.qualifiers;
    CollidesIff(platform, PutOp(fn, s, data), r, fn);
    var g, h := QualifiersToCommand(r.qualifiers).value, QualifiersToCommand(s.qualifiers).value;
    assert Generate(g, uri).arguments[2] == Script(g, uri) && Generate(h, uri).arguments[2] == Script(h, uri);
  }

  lemma SortedAgreesUnconsulted(qs: seq<Qualifier>, q: Qualifier)
    requires DistinctNames(qs + [q]) && !Consulted(q.name)
    ensures AgreeOnConsulted(AsMap(SortQualifiers(qs)), AsMap(SortQualifiers(qs + [q])))
  {
    var m, n := AsMap(SortQualifiers(qs)), AsMap(SortQualifiers(qs + [q]));
    assert DistinctNames(qs) by {
      forall i, j | 0 <= i < j < |qs| ensures qs[i].name != qs[j].name {
        assert (qs + [q])[i] == qs[i] && (qs + [q])[j] == qs[j];
      }
    }
    forall name | Consulted(name) ensures SameLookup(m, n, name) {
      if name in m {
        SortedLookup(qs, name, m[name]);
        SortedLookup(qs + [q], name, m[name]);
      }
      if name in n {
        SortedLookup(qs, name, n[name]);
        SortedLookup(qs + [q], name, n[name]);
      }
    }
  }

  lemma SortedLookup(qs: seq<Qualifier>, name: string, value: string)
    requires DistinctNames(qs)
    ensures (name in AsMap(SortQualifiers(qs)) && AsMap(SortQualifiers(qs))[name] == value) <==>
        Qualifier(name, value) in qs
  {
    var rs, q := SortQualifiers(qs), Qualifier(name, value);
    SortPermutes(QualifierLess, qs);
    DistinctNamesPermutation(qs, rs);
    AsMapDistinct(rs, name, value);
    assert q in rs <==> q in multiset(rs);
    assert q in qs <==> q in multiset(qs);
  }
}
