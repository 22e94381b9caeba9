/** Progress of a Put, and the step-by-step protocol against the sequential Put of ActionCacheAssetStore. */
module PutProgress {
  import opened Common
  import opened Messages
  import opened BlobStores
  import opened DirectoryTrees
  import opened Actions
  import opened PutProtocol

  // ---- Termination ----

  function AssetWeight(data: Asset): nat {
    NodeWeight(DirectoryNode("", data.digest))
  }

  /** An upper bound for the store calls that a process still makes, from the unfolded size of what it has to read. */
  function Remaining(q: Process): nat
  {
    match q.phase
    case Uploading(next) =>
      (if next < |q.job.uploads| then |q.job.uploads| - next else 0) + 2 + AssetWeight(q.job.data)
    case ReadingRoot => 2 + AssetWeight(q.job.data)
    case Expanding(_, _, pending) => 2 + Weight(pending)
    case UploadingTree(_) => 2
    case WritingEntry(_) => 1
    case _ => 0
  }

  lemma {:induction false} WeightAppend(a: seq<DirectoryNode>, b: seq<DirectoryNode>)
    ensures Weight(a + b) == Weight(a) + Weight(b)
  {
    if a == [] {
      assert a + b == b;
    } else {
      assert (a + b)[1..] == a[1..] + b;
      WeightAppend(a[1..], b);
    }
  }

  /** Each store call of a process brings it nearer to its end. */
  lemma AdvanceDecreases(cas: Cas, q: Process)
    requires ContentAddressed(cas) && ProcessOk(cas, q) && Active(q.phase)
    ensures Remaining(q.(phase := NextPhase(cas, q))) < Remaining(q)
  {
    CasResolverFaithful(cas, q.job.fn);
    match q.phase
    case ReadingRoot =>
      if NamedDirectory(q.job.data.digest).Some? {
        WeightOfNamed(DirectoryNode("", q.job.data.digest));
      }
    case Expanding(root, found, pending) =>
      if CasResolver(cas, q.job.fn)(pending[0].digest).Some? {
        WeightOfNamed(pending[0]);
        WeightAppend(CasResolver(cas, q.job.fn)(pending[0].digest).value.directories, pending[1..]);
      }
    case _ =>
  }

  function CallsOf(steps: seq<Step>, p: nat): nat {
    if steps == [] then 0
    else CallsOf(steps[..|steps| - 1], p) + if steps[|steps| - 1] == Advance(p) then 1 else 0
  }

  /** In any run, whatever else happens, the successful calls of a process are bounded by what it started with. */
  lemma {:induction false} CallsAreBounded(platform: Option<Platform>, states: seq<State>, steps: seq<Step>, p: nat)
    requires IsRun(platform, states, steps) && Inv(platform, states[0]) && p < |states[0].processes|
    ensures Inv(platform, states[|steps|]) && p < |states[|steps|].processes|
    ensures CallsOf(steps, p) + Remaining(states[|steps|].processes[p]) <= Remaining(states[0].processes[p])
    decreases |steps|
  {
    if steps != [] {
      var n := |steps| - 1;
      CallsAreBounded(platform, states[..|steps|], steps[..n], p);
      assert states[n] == states[..|steps|][n];
      assert ProcessOk(states[n].cas, states[n].processes[p]);
      StepCost(platform, states[n], steps[n], p);
      StepKeepsInv(platform, states[n], steps[n]);
    }
  }

  lemma StepCost(platform: Option<Platform>, s: State, step: Step, p: nat)
    requires Enabled(platform, s, step) && p < |s.processes|
    requires ContentAddressed(s.cas) && ProcessOk(s.cas, s.processes[p])
    ensures p < |Apply(s, step).processes|
    ensures Remaining(Apply(s, step).processes[p]) + (if step == Advance(p) then 1 else 0) <= Remaining(s.processes[p])
  {
    var q := s.processes[p];
    if step == Advance(p) {
      AdvanceDecreases(s.cas, q);
    } else if step.Fault? && step.p == p {
      assert Apply(s, step).processes[p] == q.(phase := GivenUp);
    } else {
      assert Apply(s, step).processes[p] == q;
    }
  }

  // ---- Progress under interference ----

  /** While its asset is storable, no read of a Put comes up empty. */
  lemma StorableAdvances(cas: Cas, q: Process)
    requires ContentAddressed(cas) && ProcessOk(cas, q) && Active(q.phase)
    requires Storable(cas, q.job.fn, q.job.data)
    ensures !NextPhase(cas, q).GivenUp?
  {
    CasResolverFaithful(cas, q.job.fn);
    match q.phase
    case Expanding(root, found, pending) =>
      assert Grown(cas, cas) && OnTrackIn(cas, q.job.fn, root, found, pending);
      assert ExpandNodes(CasResolver(cas, q.job.fn), pending).Some?;
      assert ExpandNode(CasResolver(cas, q.job.fn), pending[0]).Some?;
    case _ =>
  }

  /**
    Once its asset is storable, a Put that meets no fault of its own never gives up, whatever other Puts and clients
    do and however their calls fail: it is done, or its next call is enabled, and it is done after at most the bounded
    number of calls.
   */
  lemma {:induction false} StorableIsDone(platform: Option<Platform>, states: seq<State>, steps: seq<Step>, p: nat)
    requires IsRun(platform, states, steps) && Inv(platform, states[0]) && p < |states[0].processes|
    requires Storable(states[0].cas, states[0].processes[p].job.fn, states[0].processes[p].job.data)
    requires !states[0].processes[p].phase.GivenUp?
    requires forall i :: 0 <= i < |steps| ==> !(steps[i].Fault? && steps[i].p == p)
    ensures p < |states[|steps|].processes|
    ensures states[|steps|].processes[p].phase.Done? || Enabled(platform, states[|steps|], Advance(p))
    ensures CallsOf(steps, p) <= Remaining(states[0].processes[p])
    ensures CallsOf(steps, p) == Remaining(states[0].processes[p]) ==> states[|steps|].processes[p].phase.Done?
  {
    CallsAreBounded(platform, states, steps, p);
    NeverGivesUp(platform, states, steps, p);
    ActiveHasCallsLeft(states[|steps|].processes[p]);
  }

  lemma ActiveHasCallsLeft(q: Process)
    ensures Active(q.phase) ==> Remaining(q) >= 1
  {
  }

  lemma {:induction false} NeverGivesUp(platform: Option<Platform>, states: seq<State>, steps: seq<Step>, p: nat)
    requires IsRun(platform, states, steps) && Inv(platform, states[0]) && p < |states[0].processes|
    requires Storable(states[0].cas, states[0].processes[p].job.fn, states[0].processes[p].job.data)
    requires !states[0].processes[p].phase.GivenUp?
    requires forall i :: 0 <= i < |steps| ==> !(steps[i].Fault? && steps[i].p == p)
    ensures Inv(platform, states[|steps|]) && p < |states[|steps|].processes|
    ensures states[|steps|].processes[p].job == states[0].processes[p].job
    ensures Storable(states[|steps|].cas, states[0].processes[p].job.fn, states[0].processes[p].job.data)
    ensures !states[|steps|].processes[p].phase.GivenUp?
    decreases |steps|
  {
    if steps != [] {
      var n := |steps| - 1;
      NeverGivesUp(platform, states[..|steps|], steps[..n], p);
      assert states[n] == states[..|steps|][n];
      OneStepOn(platform, states[n], steps[n], p);
    }
  }

  lemma OneStepOn(platform: Option<Platform>, s: State, step: Step, p: nat)
    requires Inv(platform, s) && Enabled(platform, s, step) && p < |s.processes|
    requires !(step.Fault? && step.p == p) && !s.processes[p].phase.GivenUp?
    requires Storable(s.cas, s.processes[p].job.fn, s.processes[p].job.data)
    ensures Inv(platform, Apply(s, step)) && p < |Apply(s, step).processes|
    ensures Apply(s, step).processes[p].job == s.processes[p].job
    ensures Storable(Apply(s, step).cas, s.processes[p].job.fn, s.processes[p].job.data)
    ensures !Apply(s, step).processes[p].phase.GivenUp?
  {
    StepKeepsInv(platform, s, step);
    StorableGrows(s.cas, Apply(s, step).cas, s.processes[p].job.fn, s.processes[p].job.data);
    assert ProcessOk(s.cas, s.processes[p]);
    if step == Advance(p) {
      StorableAdvances(s.cas, s.processes[p]);
    }
  }

  // ---- A Put without interference ----

  datatype Outcome = Outcome(cas: Cas, ac: map<Key, ActionResult>, phase: Phase)

  /** Runs one process to its end, with no failing call and no other process in between. */
  ghost function Alone(cas: Cas, ac: map<Key, ActionResult>, q: Process): Outcome
    requires ContentAddressed(cas) && ProcessOk(cas, q)
    decreases Remaining(q)
  {
    if !Active(q.phase) then Outcome(cas, ac, q.phase)
    else
      AdvanceOk(cas, q);
      AdvanceDecreases(cas, q);
      Alone(CasEffect(cas, q), AcEffect(ac, q), q.(phase := NextPhase(cas, q)))
  }

  /** The small steps of the expansion compute what the recursion computes. */
  lemma {:induction false} AloneExpands(cas: Cas, ac: map<Key, ActionResult>, q: Process)
    requires ContentAddressed(cas) && ProcessOk(cas, q) && q.phase.Expanding?
    ensures Named(CasResolver(cas, q.job.fn))
    ensures
      var expanded := ExpandNodes(CasResolver(cas, q.job.fn), q.phase.pending);
      var outcome := Alone(cas, ac, q);
      if expanded.None? then outcome == Outcome(cas, ac, GivenUp)
      else
        var tree := Tree(q.phase.root, q.phase.found + expanded.value);
        ProcessOk(cas, q.(phase := UploadingTree(tree))) &&
        outcome == Alone(cas, ac, q.(phase := UploadingTree(tree)))
    decreases Remaining(q)
  {
    var r, pending, found := CasResolver(cas, q.job.fn), q.phase.pending, q.phase.found;
    CasResolverFaithful(cas, q.job.fn);
    AdvanceOk(cas, q);
    AdvanceDecreases(cas, q);
    var next := q.(phase := NextPhase(cas, q));
    if r(pending[0].digest).Some? {
      var directory := r(pending[0].digest).value;
      ExpandFirst(r, pending, directory);
      var rest := directory.directories + pending[1..];
      if rest == [] {
        assert found + [directory] + [] == found + [directory];
      } else {
        AloneExpands(cas, ac, next);
      }
      PrependAssociates(found, Some([directory]), ExpandNodes(r, rest));
    }
  }

  /** From the point where all uploads are done. */
  lemma AloneConverts(cas: Cas, ac: map<Key, ActionResult>, job: Job)
    requires ContentAddressed(cas) && Sound(job) && job.key.fn == job.fn && Stored(cas, job.fn, job.uploads)
    ensures ProcessOk(cas, Process(job, AfterUploads(job)))
    ensures Alone(cas, ac, Process(job, AfterUploads(job))) ==
              if Storable(cas, job.fn, job.data) then
                Outcome(WithTree(cas, job.fn, job.data), ac[job.key := ResultFor(job.fn, job.data).value], Done)
              else Outcome(cas, ac, GivenUp)
  {
    var q := Process(job, AfterUploads(job));
    match job.data.assetType
    case UnknownType(_) =>
    case BLOB =>
      TreeCompletesEntry(cas, job);
      AdvanceOk(cas, q);
    case DIRECTORY =>
      CasResolverFaithful(cas, job.fn);
      AdvanceOk(cas, q);
      var next := q.(phase := NextPhase(cas, q));
      if next.phase.Expanding? {
        AloneExpands(cas, ac, next);
        var expanded := ExpandNodes(CasResolver(cas, job.fn), next.phase.root.directories);
        if expanded.Some? {
          assert [] + expanded.value == expanded.value;
          AloneWrites(cas, ac, q.(phase := UploadingTree(Tree(next.phase.root, expanded.value))));
        }
      } else if next.phase.UploadingTree? {
        AloneWrites(cas, ac, next);
      }
  }

  lemma AloneWrites(cas: Cas, ac: map<Key, ActionResult>, q: Process)
    requires ContentAddressed(cas) && ProcessOk(cas, q) && q.phase.UploadingTree?
    ensures ResultFor(q.job.fn, q.job.data).Some?
    ensures Alone(cas, ac, q) ==
              Outcome(WithTree(cas, q.job.fn, q.job.data),
                      ac[q.job.key := ResultFor(q.job.fn, q.job.data).value], Done)
  {
    CasResolverFaithful(cas, q.job.fn);
    assert q.phase.tree == Tree(NamedDirectory(q.job.data.digest).value, q.phase.tree.children);
    var uploaded := CasEffect(cas, q);
    AdvanceOk(cas, q);
    var written := q.(phase := NextPhase(cas, q));
    AdvanceOk(uploaded, written);
    assert Alone(uploaded, AcEffect(ac, written), written.(phase := Done)) ==
        Outcome(uploaded, AcEffect(ac, written), Done);
  }

  lemma {:induction false} AloneUploads(cas: Cas, ac: map<Key, ActionResult>, q: Process)
    requires ContentAddressed(cas) && ProcessOk(cas, q) && q.phase.Uploading?
    ensures
      var uploaded := StoreAll(cas, q.job.fn, q.job.uploads[q.phase.next..]);
      && ContentAddressed(uploaded) && Stored(uploaded, q.job.fn, q.job.uploads)
      && ProcessOk(uploaded, q.(phase := AfterUploads(q.job)))
      && Alone(cas, ac, q) == Alone(uploaded, ac, q.(phase := AfterUploads(q.job)))
    decreases Remaining(q)
  {
    var uploads, next := q.job.uploads, q.phase.next;
    var after := CasEffect(cas, q);
    AdvanceOk(cas, q);
    AdvanceDecreases(cas, q);
    CasEffectKeeps(cas, q);
    assert uploads[next..][1..] == uploads[next + 1..];
    if next + 1 < |uploads| {
      AloneUploads(after, ac, q.(phase := Uploading(next + 1)));
    } else {
      assert uploads[next + 1..] == [];
      StoredNext(cas, after, q.job.fn, uploads, next);
      assert uploads[..next + 1] == uploads;
    }
  }

  /**
    Run by itself, the protocol does what the contract of ActionCacheAssetStore.Put says for healthy stores: all
    uploads, then the Tree, then exactly one entry, if the asset is storable once the uploads are done; otherwise no
    entry.
   */
  lemma AloneIsSequentialPut(platform: Option<Platform>, cas: Cas, ac: map<Key, ActionResult>, fn: Function,
                             ref: AssetReference, data: Asset)
    requires ContentAddressed(cas) && Convertible(ref)
    ensures ProcessOk(cas, Process(JobFor(platform, fn, ref, data), Uploading(0)))
    ensures
      var uploaded := StoreAll(cas, fn, Uploads(platform, ref, fn));
      && ContentAddressed(uploaded)
      && Alone(cas, ac, Process(JobFor(platform, fn, ref, data), Uploading(0))) ==
           if Storable(uploaded, fn, data) then
             Outcome(WithTree(uploaded, fn, data), ac[ActionKey(platform, ref, fn) := ResultFor(fn, data).value], Done)
           else Outcome(uploaded, ac, GivenUp)
  {
    var job := JobFor(platform, fn, ref, data);
    assert Genuine(platform, job);
    GenuineIsSound(platform, job);
    AloneFromStart(cas, ac, job);
  }

  lemma AloneFromStart(cas: Cas, ac: map<Key, ActionResult>, job: Job)
    requires ContentAddressed(cas) && Sound(job) && job.key.fn == job.fn
    ensures ProcessOk(cas, Process(job, Uploading(0)))
    ensures
      var uploaded := StoreAll(cas, job.fn, job.uploads);
      && ContentAddressed(uploaded)
      && Alone(cas, ac, Process(job, Uploading(0))) ==
           if Storable(uploaded, job.fn, job.data) then
             Outcome(WithTree(uploaded, job.fn, job.data), ac[job.key := ResultFor(job.fn, job.data).value], Done)
           else Outcome(uploaded, ac, GivenUp)
  {
    assert job.uploads[..0] == [] && job.uploads[0..] == job.uploads;
    AloneUploads(cas, ac, Process(job, Uploading(0)));
    AloneConverts(StoreAll(cas, job.fn, job.uploads), ac, job);
  }

  /**
    Integrity leaves out the content of output files: a Put of a blob asset always succeeds, and afterwards that
    content is in the CAS exactly if it was before, or happens to be one of the uploaded messages.
   */
  lemma BlobContentIsNotChecked(cas: Cas, ac: map<Key, ActionResult>, job: Job)
    requires ContentAddressed(cas) && Sound(job) && job.key.fn == job.fn && job.data.assetType.BLOB?
    ensures ProcessOk(cas, Process(job, Uploading(0)))
    ensures
      var outcome := Alone(cas, ac, Process(job, Uploading(0)));
      && outcome.phase.Done?
      && job.key in outcome.ac
      && outcome.ac[job.key].outputFiles == [OutputFile("out", job.data.digest)]
      && (Present(outcome.cas, job.fn, job.data.digest) <==>
            Present(cas, job.fn, job.data.digest) ||
            exists i :: 0 <= i < |job.uploads| && job.data.digest == DigestOf(job.fn.algorithm, job.uploads[i]))
  {
    AloneFromStart(cas, ac, job);
    PresentAfterStoreAll(cas, job.fn, job.uploads, job.data.digest);
  }
}
