/**
  Any number of Action Cache Puts in progress at once, taken store call by store call. Every call may fail, and a write
  that reports failure may have taken effect all the same. Other clients may upload to the CAS at any time.
 */
module PutProtocol {
  import opened Common
  import opened Messages
  import opened BlobStores
  import opened DirectoryTrees
  import opened Actions

  /** A Put of `data`: the key of its Action and everything it uploads before it looks at the asset. */
  datatype Job = Job(platform: Option<Platform>, fn: Function, key: Key, uploads: seq<Wire>, data: Asset)

  function JobFor(platform: Option<Platform>, fn: Function, ref: AssetReference, data: Asset): Job
    requires Convertible(ref)
  {
    Job(platform, fn, ActionKey(platform, ref, fn), Uploads(platform, ref, fn), data)
  }

  /** A job that Put takes on for some reference. */
  ghost predicate Genuine(platform: Option<Platform>, job: Job) {
    exists ref :: Convertible(ref) && job == JobFor(platform, job.fn, ref, job.data)
  }

  /** The uploads of a job are what the Action under its key needs. */
  ghost predicate Sound(job: Job) {
    && job.uploads != []
    && forall cas :: ContentAddressed(cas) && Stored(cas, job.fn, job.uploads) ==>
        ActionComplete(job.platform, cas, job.key)
  }

  lemma GenuineIsSound(platform: Option<Platform>, job: Job)
    requires Genuine(platform, job)
    ensures Sound(job) && job.key.fn == job.fn && job.platform == platform
  {
    var ref :| Convertible(ref) && job == JobFor(platform, job.fn, ref, job.data);
    forall cas | ContentAddressed(cas) && Stored(cas, job.fn, job.uploads)
      ensures ActionComplete(job.platform, cas, job.key)
    {
      UploadsCompleteAction(cas, platform, ref, job.fn);
    }
  }

  /** The next store call of a Put. The recursion of the expansion is unrolled into the nodes still to be read. */
  datatype Phase =
    | Uploading(next: nat)
    | ReadingRoot
    | Expanding(root: Directory, found: seq<Directory>, pending: seq<DirectoryNode>)
    | UploadingTree(tree: Tree)
    | WritingEntry(result: ActionResult)
    | Done
    | GivenUp

  datatype Process = Process(job: Job, phase: Phase)
  datatype State = State(cas: Cas, ac: map<Key, ActionResult>, processes: seq<Process>)

  datatype Step =
    | Begin(job: Job)
    | Advance(p: nat)
    | Fault(p: nat, landed: bool)
    | Foreign(fn: Function, message: Wire)

  predicate Active(phase: Phase) {
    !phase.Done? && !phase.GivenUp?
  }

  function AfterUploads(job: Job): Phase {
    match job.data.assetType
    case BLOB => WritingEntry(ActionResult([OutputFile("out", job.data.digest)], [], 0, job.data.lastUpdated))
    case DIRECTORY => ReadingRoot
    case UnknownType(_) => GivenUp
  }

  function Continue(root: Directory, found: seq<Directory>, pending: seq<DirectoryNode>): Phase {
    if pending == [] then UploadingTree(Tree(root, found)) else Expanding(root, found, pending)
  }

  /** The phase after the current store call went well; a read that finds no Directory ends the Put. */
  function NextPhase(cas: Cas, q: Process): Phase
  {
    var job := q.job;
    match q.phase
    case Uploading(next) =>
      if next + 1 < |job.uploads| then Uploading(next + 1) else AfterUploads(job)
    case ReadingRoot =>
      (match CasResolver(cas, job.fn)(job.data.digest)
       case None => GivenUp
       case Some(root) => Continue(root, [], root.directories))
    case Expanding(root, found, pending) =>
      if pending == [] then UploadingTree(Tree(root, found))
      else
        (match CasResolver(cas, job.fn)(pending[0].digest)
         case None => GivenUp
         case Some(directory) => Continue(root, found + [directory], directory.directories + pending[1..]))
    case UploadingTree(tree) =>
      WritingEntry(ActionResult(
        [], [OutputDirectory("out", job.data.digest, DigestOf(job.fn.algorithm, TreeWire(tree)))], 0,
            job.data.lastUpdated))
    case WritingEntry(_) => Done
    case _ => q.phase
  }

  /** The CAS after the current store call took effect. */
  function CasEffect(cas: Cas, q: Process): Cas
  {
    match q.phase
    case Uploading(next) =>
      if next < |q.job.uploads| then Store(cas, q.job.fn, q.job.uploads[next]) else cas
    case UploadingTree(tree) => Store(cas, q.job.fn, TreeWire(tree))
    case _ => cas
  }

  /** The Action Cache after the current store call took effect. */
  function AcEffect(ac: map<Key, ActionResult>, q: Process): map<Key, ActionResult>
  {
    if q.phase.WritingEntry? then ac[q.job.key := q.phase.result] else ac
  }

  ghost predicate Enabled(platform: Option<Platform>, s: State, step: Step) {
    match step
    case Begin(job) => Genuine(platform, job)
    case Advance(p) => p < |s.processes| && Active(s.processes[p].phase)
    case Fault(p, _) => p < |s.processes| && Active(s.processes[p].phase)
    case Foreign(_, _) => true
  }

  function Apply(s: State, step: Step): State
    requires step.Advance? || step.Fault? ==> step.p < |s.processes|
  {
    match step
    case Begin(job) => s.(processes := s.processes + [Process(job, Uploading(0))])
    case Advance(p) =>
      var q := s.processes[p];
      State(CasEffect(s.cas, q), AcEffect(s.ac, q), s.processes[p := q.(phase := NextPhase(s.cas, q))])
    case Fault(p, landed) =>
      var q := s.processes[p];
      State(if landed then CasEffect(s.cas, q) else s.cas,
            if landed then AcEffect(s.ac, q) else s.ac,
            s.processes[p := q.(phase := GivenUp)])
    case Foreign(fn, message) => s.(cas := Store(s.cas, fn, message))
  }

  // ---- The invariant ----

  /**
    However the CAS grows, the expansion of the root is what was found followed by the expansion of what is pending.
   */
  ghost predicate OnTrack(cas: Cas, fn: Function, root: Directory, found: seq<Directory>, pending: seq<DirectoryNode>) {
    forall after :: ContentAddressed(after) && Grown(cas, after) ==> OnTrackIn(after, fn, root, found, pending)
  }

  ghost predicate OnTrackIn(cas: Cas, fn: Function, root: Directory, found: seq<Directory>, pending: seq<DirectoryNode>)
    requires ContentAddressed(cas)
  {
    CasResolverFaithful(cas, fn);
    ExpandNodes(CasResolver(cas, fn), root.directories) == Prepend(found, ExpandNodes(CasResolver(cas, fn), pending))
  }

  ghost predicate ProcessOk(cas: Cas, q: Process)
    requires ContentAddressed(cas)
  {
    var fn, data := q.job.fn, q.job.data;
    && Sound(q.job) && q.job.key.fn == fn
    && match q.phase
       case Uploading(next) =>
         next < |q.job.uploads| && Stored(cas, fn, q.job.uploads[..next])
       case ReadingRoot =>
         data.assetType.DIRECTORY? && Stored(cas, fn, q.job.uploads)
       case Expanding(root, found, pending) =>
         && data.assetType.DIRECTORY? && Stored(cas, fn, q.job.uploads)
         && CasResolver(cas, fn)(data.digest) == Some(root)
         && pending != [] && OnTrack(cas, fn, root, found, pending)
       case UploadingTree(tree) =>
         && data.assetType.DIRECTORY? && Stored(cas, fn, q.job.uploads)
         && Storable(cas, fn, data)
         && CasResolver(cas, fn)(data.digest) == Some(tree.root) && tree.children == Preorder(tree.root.directories)
       case WritingEntry(result) =>
         ResultFor(fn, data) == Some(result) && EntryComplete(q.job.platform, cas, q.job.key, result)
       case _ => true
  }

  /** Each entry of the Action Cache is the result of one of the Puts with its key. */
  ghost predicate WrittenBySome(k: Key, result: ActionResult, processes: seq<Process>) {
    exists p :: 0 <= p < |processes| && processes[p].job.key == k
                && ResultFor(processes[p].job.fn, processes[p].job.data) == Some(result)
  }

  ghost predicate Inv(platform: Option<Platform>, s: State) {
    && ContentAddressed(s.cas)
    && (forall p :: 0 <= p < |s.processes| ==> ProcessOk(s.cas, s.processes[p]))
    && Integrity(platform, s.cas, s.ac)
    && EntriesExplained(s)
    && DoneWritten(s)
    && (forall p :: 0 <= p < |s.processes| ==> Genuine(platform, s.processes[p].job))
  }

  ghost predicate EntriesExplained(s: State) {
    forall k :: k in s.ac ==> WrittenBySome(k, s.ac[k], s.processes)
  }

  /** A Put that reported success has its key in the Action Cache. */
  ghost predicate DoneWritten(s: State) {
    forall p :: 0 <= p < |s.processes| && s.processes[p].phase.Done? ==>
      s.processes[p].job.key in s.ac
  }

  ghost predicate WritesOwnResult(q: Process) {
    q.phase.WritingEntry? ==> ResultFor(q.job.fn, q.job.data) == Some(q.phase.result)
  }

  // ---- Stability under growth of the CAS ----

  lemma EntryCompleteGrows(platform: Option<Platform>, before: Cas, after: Cas, k: Key, result: ActionResult)
    requires ContentAddressed(before) && ContentAddressed(after) && Grown(before, after)
    requires EntryComplete(platform, before, k, result)
    ensures EntryComplete(platform, after, k, result)
  {
    IntegrityGrows(platform, before, after, map[k := result]);
    assert k in map[k := result];
  }

  lemma ProcessOkGrows(before: Cas, after: Cas, q: Process)
    requires ContentAddressed(before) && ContentAddressed(after) && Grown(before, after)
    requires ProcessOk(before, q)
    ensures ProcessOk(after, q)
  {
    GrownResolves(before, after, q.job.fn);
    match q.phase
    case Expanding(root, found, pending) =>
      forall later | ContentAddressed(later) && Grown(after, later)
        ensures OnTrackIn(later, q.job.fn, root, found, pending)
      {
        assert Grown(before, later);
      }
    case UploadingTree(_) => StorableGrows(before, after, q.job.fn, q.job.data);
    case WritingEntry(result) => EntryCompleteGrows(q.job.platform, before, after, q.job.key, result);
    case _ =>
  }

  // ---- One step of one process ----

  lemma {:induction false} ExpandAppend(r: Resolver, a: seq<DirectoryNode>, b: seq<DirectoryNode>)
    requires Named(r)
    ensures ExpandNodes(r, a + b) ==
              match ExpandNodes(r, a) case None => None case Some(x) => Prepend(x, ExpandNodes(r, b))
    decreases |a|
  {
    if a == [] {
      assert a + b == b;
      assert ExpandNodes(r, b).Some? ==> [] + ExpandNodes(r, b).value == ExpandNodes(r, b).value;
    } else {
      assert (a + b)[1..] == a[1..] + b;
      ExpandAppend(r, a[1..], b);
      if ExpandNode(r, a[0]).Some? {
        PrependAssociates(ExpandNode(r, a[0]).value, ExpandNodes(r, a[1..]), ExpandNodes(r, b));
      }
    }
  }

  /** Reading one pending node keeps the expansion on track. */
  lemma ReadKeepsTrack(cas: Cas, fn: Function, root: Directory, found: seq<Directory>, pending: seq<DirectoryNode>,
                       directory: Directory)
    requires ContentAddressed(cas) && pending != []
    requires OnTrack(cas, fn, root, found, pending)
    requires CasResolver(cas, fn)(pending[0].digest) == Some(directory)
    ensures OnTrack(cas, fn, root, found + [directory], directory.directories + pending[1..])
  {
    forall after | ContentAddressed(after) && Grown(cas, after)
      ensures OnTrackIn(after, fn, root, found + [directory], directory.directories + pending[1..])
    {
      assert OnTrackIn(after, fn, root, found, pending);
      CasResolverFaithful(after, fn);
      GrownResolves(cas, after, fn);
      ExpandFirst(CasResolver(after, fn), pending, directory);
      PrependAssociates(found, Some([directory]),
                        ExpandNodes(CasResolver(after, fn), directory.directories + pending[1..]));
    }
  }

  /** Expanding the first node and then the others is expanding its entries together with the others. */
  lemma ExpandFirst(r: Resolver, nodes: seq<DirectoryNode>, directory: Directory)
    requires Named(r) && nodes != [] && r(nodes[0].digest) == Some(directory)
    ensures ExpandNodes(r, nodes) == Prepend([directory], ExpandNodes(r, directory.directories + nodes[1..]))
  {
    ExpandAppend(r, directory.directories, nodes[1..]);
    assert ExpandNode(r, nodes[0]) == Prepend([directory], ExpandNodes(r, directory.directories));
    PrependAssociates([directory], ExpandNodes(r, directory.directories), ExpandNodes(r, nodes[1..]));
  }

  /** With nothing pending, what was found is the whole expansion. */
  lemma FinishedTrack(cas: Cas, fn: Function, data: Asset, root: Directory, found: seq<Directory>)
    requires ContentAddressed(cas) && data.assetType.DIRECTORY?
    requires CasResolver(cas, fn)(data.digest) == Some(root)
    requires OnTrack(cas, fn, root, found, [])
    ensures Storable(cas, fn, data) && found == Preorder(root.directories)
  {
    CasResolverFaithful(cas, fn);
    assert OnTrackIn(cas, fn, root, found, []);
    assert found + [] == found;
    ExpandIsPreorder(CasResolver(cas, fn), root.directories);
  }

  lemma ContinueOk(cas: Cas, job: Job, root: Directory, found: seq<Directory>, pending: seq<DirectoryNode>)
    requires ContentAddressed(cas) && Sound(job) && job.key.fn == job.fn && job.data.assetType.DIRECTORY?
    requires Stored(cas, job.fn, job.uploads)
    requires CasResolver(cas, job.fn)(job.data.digest) == Some(root)
    requires OnTrack(cas, job.fn, root, found, pending)
    ensures ProcessOk(cas, Process(job, Continue(root, found, pending)))
  {
    if pending == [] {
      FinishedTrack(cas, job.fn, job.data, root, found);
    }
  }

  lemma StartsOnTrack(cas: Cas, fn: Function, root: Directory)
    ensures OnTrack(cas, fn, root, [], root.directories)
  {
    forall after | ContentAddressed(after) && Grown(cas, after)
      ensures OnTrackIn(after, fn, root, [], root.directories)
    {
      CasResolverFaithful(after, fn);
      var expanded := ExpandNodes(CasResolver(after, fn), root.directories);
      assert expanded.Some? ==> [] + expanded.value == expanded.value;
    }
  }

  lemma CasEffectKeeps(cas: Cas, q: Process)
    requires ContentAddressed(cas)
    ensures ContentAddressed(CasEffect(cas, q)) && Grown(cas, CasEffect(cas, q))
  {
  }

  lemma StoredNext(before: Cas, after: Cas, fn: Function, uploads: seq<Wire>, next: nat)
    requires next < |uploads| && Stored(before, fn, uploads[..next])
    requires Grown(before, after) && KeyOf(fn, uploads[next]) in after
    ensures Stored(after, fn, uploads[..next + 1])
  {
  }

  lemma UploadedOk(cas: Cas, q: Process)
    requires ContentAddressed(cas) && ProcessOk(cas, q) && q.phase.Uploading?
    ensures ContentAddressed(CasEffect(cas, q))
    ensures ProcessOk(CasEffect(cas, q), q.(phase := NextPhase(cas, q)))
  {
  }

  /** The entry of a job is complete once all its uploads and its Tree are in the CAS. */
  lemma TreeCompletesEntry(cas: Cas, job: Job)
    requires ContentAddressed(cas) && Sound(job) && job.key.fn == job.fn
    requires Stored(cas, job.fn, job.uploads) && Storable(cas, job.fn, job.data)
    ensures ContentAddressed(WithTree(cas, job.fn, job.data)) && Grown(cas, WithTree(cas, job.fn, job.data))
    ensures ResultFor(job.fn, job.data).Some?
    ensures EntryComplete(job.platform, WithTree(cas, job.fn, job.data), job.key, ResultFor(job.fn, job.data).value)
  {
    var after := WithTree(cas, job.fn, job.data);
    WithTreeKeeps(cas, job.fn, job.data);
    StorableCompletesResult(cas, after, job.fn, job.data);
    forall i | 0 <= i < |job.uploads| ensures KeyOf(job.fn, job.uploads[i]) in after {
      assert KeyOf(job.fn, job.uploads[i]) in cas;
    }
  }

  lemma TreeUploadedOk(cas: Cas, q: Process)
    requires ContentAddressed(cas) && ProcessOk(cas, q) && q.phase.UploadingTree?
    ensures ContentAddressed(CasEffect(cas, q))
    ensures ProcessOk(CasEffect(cas, q), q.(phase := NextPhase(cas, q)))
  {
    var job, after := q.job, CasEffect(cas, q);
    CasEffectKeeps(cas, q);
    CasResolverFaithful(cas, job.fn);
    assert q.phase.tree == Tree(NamedDirectory(job.data.digest).value, q.phase.tree.children);
    TreeCompletesEntry(cas, job);
  }

  /** The process that moves is as it should be afterwards. */
  lemma AdvanceOk(cas: Cas, q: Process)
    requires ContentAddressed(cas) && ProcessOk(cas, q)
    ensures ContentAddressed(CasEffect(cas, q))
    ensures ProcessOk(CasEffect(cas, q), q.(phase := NextPhase(cas, q)))
  {
    var job := q.job;
    match q.phase
    case Uploading(_) => UploadedOk(cas, q);
    case ReadingRoot =>
      if CasResolver(cas, job.fn)(job.data.digest).Some? {
        var root := CasResolver(cas, job.fn)(job.data.digest).value;
        StartsOnTrack(cas, job.fn, root);
        ContinueOk(cas, job, root, [], root.directories);
      }
    case Expanding(root, found, pending) =>
      if CasResolver(cas, job.fn)(pending[0].digest).Some? {
        var directory := CasResolver(cas, job.fn)(pending[0].digest).value;
        ReadKeepsTrack(cas, job.fn, root, found, pending, directory);
        ContinueOk(cas, job, root, found + [directory], directory.directories + pending[1..]);
      }
    case UploadingTree(_) => TreeUploadedOk(cas, q);
    case _ =>
  }

  // ---- Safety ----

  lemma StillWritten(k: Key, result: ActionResult, before: seq<Process>, after: seq<Process>)
    requires |before| <= |after|
    requires forall p :: 0 <= p < |before| ==> after[p].job == before[p].job
    requires WrittenBySome(k, result, before)
    ensures WrittenBySome(k, result, after)
  {
  }

  /** The Action Cache stays complete when a process writes its entry. */
  lemma EntryKeepsIntegrity(platform: Option<Platform>, s: State, p: nat, after: Cas)
    requires Inv(platform, s) && p < |s.processes|
    requires ContentAddressed(after) && Grown(s.cas, after)
    ensures Integrity(platform, after, AcEffect(s.ac, s.processes[p]))
  {
    var q := s.processes[p];
    assert ProcessOk(s.cas, q);
    IntegrityGrows(platform, s.cas, after, s.ac);
    if q.phase.WritingEntry? {
      EntryCompleteGrows(platform, s.cas, after, q.job.key, q.phase.result);
      IntegrityExtends(platform, after, s.ac, q.job.key, q.phase.result);
    }
  }

  lemma IntegrityKept(platform: Option<Platform>, s: State, step: Step)
    requires Inv(platform, s) && Enabled(platform, s, step)
    ensures ContentAddressed(Apply(s, step).cas) && Grown(s.cas, Apply(s, step).cas)
    ensures Integrity(platform, Apply(s, step).cas, Apply(s, step).ac)
  {
    var t := Apply(s, step);
    match step
    case Begin(job) =>
    case Foreign(fn, message) =>
      StoreKeeps(s.cas, fn, message);
      IntegrityGrows(platform, s.cas, t.cas, s.ac);
    case Advance(p) =>
      CasEffectKeeps(s.cas, s.processes[p]);
      EntryKeepsIntegrity(platform, s, p, t.cas);
    case Fault(p, landed) =>
      CasEffectKeeps(s.cas, s.processes[p]);
      if landed {
        EntryKeepsIntegrity(platform, s, p, t.cas);
      }
  }

  /** What a process writes is explained by that process. */
  lemma EffectExplained(ac: map<Key, ActionResult>, before: seq<Process>, after: seq<Process>, p: nat)
    requires p < |before| && WritesOwnResult(before[p])
    requires |before| == |after| && forall i :: 0 <= i < |before| ==> after[i].job == before[i].job
    requires forall k :: k in ac ==> WrittenBySome(k, ac[k], before)
    ensures forall k :: k in AcEffect(ac, before[p]) ==> WrittenBySome(k, AcEffect(ac, before[p])[k], after)
  {
  }

  lemma JobsKept(platform: Option<Platform>, s: State, step: Step)
    requires Enabled(platform, s, step)
    ensures |s.processes| <= |Apply(s, step).processes|
    ensures forall i :: 0 <= i < |s.processes| ==> Apply(s, step).processes[i].job == s.processes[i].job
    ensures step.Advance? || step.Fault? ==> |Apply(s, step).processes| == |s.processes|
  {
  }

  lemma EntriesKept(platform: Option<Platform>, s: State, step: Step)
    requires Enabled(platform, s, step) && EntriesExplained(s)
    requires forall p :: 0 <= p < |s.processes| ==> WritesOwnResult(s.processes[p])
    ensures EntriesExplained(Apply(s, step))
  {
    var ac, processes := Apply(s, step).ac, Apply(s, step).processes;
    JobsKept(platform, s, step);
    forall k | k in ac ensures WrittenBySome(k, ac[k], processes) {
      if step.Advance? || step.Fault? {
        EffectExplained(s.ac, s.processes, processes, step.p);
      }
      if k in s.ac && ac[k] == s.ac[k] {
        StillWritten(k, s.ac[k], s.processes, processes);
      }
    }
  }

  lemma DoneKept(platform: Option<Platform>, s: State, step: Step)
    requires Enabled(platform, s, step) && DoneWritten(s)
    ensures DoneWritten(Apply(s, step))
  {
  }

  /** Every step of every process, failed or not, keeps the invariant. */
  lemma StepKeepsInv(platform: Option<Platform>, s: State, step: Step)
    requires Inv(platform, s) && Enabled(platform, s, step)
    ensures Inv(platform, Apply(s, step))
    ensures Grown(s.cas, Apply(s, step).cas)
  {
    IntegrityKept(platform, s, step);
    ProcessesKept(platform, s, step);
    forall p | 0 <= p < |s.processes| ensures WritesOwnResult(s.processes[p]) {
      assert ProcessOk(s.cas, s.processes[p]);
    }
    JobsKept(platform, s, step);
    EntriesKept(platform, s, step);
    DoneKept(platform, s, step);
  }

  lemma ProcessesKept(platform: Option<Platform>, s: State, step: Step)
    requires Inv(platform, s) && Enabled(platform, s, step)
    requires ContentAddressed(Apply(s, step).cas) && Grown(s.cas, Apply(s, step).cas)
    ensures forall p :: 0 <= p < |Apply(s, step).processes| ==>
              ProcessOk(Apply(s, step).cas, Apply(s, step).processes[p])
  {
    var t := Apply(s, step);
    forall p | 0 <= p < |t.processes| ensures ProcessOk(t.cas, t.processes[p]) {
      if p < |s.processes| {
        assert ProcessOk(s.cas, s.processes[p]);
        if step == Advance(p) {
          AdvanceOk(s.cas, s.processes[p]);
        } else if t.processes[p] == s.processes[p] {
          ProcessOkGrows(s.cas, t.cas, s.processes[p]);
        }
      } else {
        GenuineIsSound(platform, t.processes[p].job);
        assert t.processes[p].job.uploads[..0] == [];
      }
    }
  }

  /** A run: each state but the first is the result of an enabled step. */
  ghost predicate IsRun(platform: Option<Platform>, states: seq<State>, steps: seq<Step>) {
    && |states| == |steps| + 1
    && forall i :: 0 <= i < |steps| ==>
        Enabled(platform, states[i], steps[i]) && states[i + 1] == Apply(states[i], steps[i])
  }

  ghost predicate Initial(s: State) {
    ContentAddressed(s.cas) && s.ac == map[] && s.processes == []
  }

  /**
    Over every run, whatever is interleaved and whatever fails: each Action Cache entry has in the CAS its Action,
    Command, input root with AssetReference, Tree, root and every descendant Directory, and is the result of one of
    the Puts.
   */
  lemma {:induction false} RunsKeepIntegrity(platform: Option<Platform>, states: seq<State>, steps: seq<Step>, n: nat)
    requires IsRun(platform, states, steps) && Initial(states[0]) && n < |states|
    ensures Inv(platform, states[n])
  {
    if n > 0 {
      RunsKeepIntegrity(platform, states, steps, n - 1);
      StepKeepsInv(platform, states[n - 1], steps[n - 1]);
    }
  }
}
