/**
  Any number of pushes and cached fetches in progress at once on the reference-keyed store, taken store call by store
  call. Every call may fail, and a write that reports failure may have taken effect all the same.
 */
module Interleaving {
  import opened Common
  import opened Qualifiers
  import opened Messages
  import opened AssetIndex
  import opened Push
  import opened Caching
  import opened History

  /** A lookup: what it read, and how many writes had taken effect when it read the store. */
  datatype Look = Look(reading: Reading, seen: nat)

  /** A request being served. `places` are the positions of its writes in the log of all writes. */
  datatype Work =
    | Pushing(push: PushRequest, times: seq<int>, places: seq<nat>)
    | LookingUp(fn: Function, req: FetchRequest, looks: seq<Look>)
    | Hit(fn: Function, req: FetchRequest, looks: seq<Look>, data: Asset)
    | Filing(fn: Function, req: FetchRequest, looks: seq<Look>, response: FetchResponse, at: int, places: seq<nat>)

  /** A request that met a failed write, or whose wrapped fetcher failed, is stopped. */
  datatype Process = Process(work: Work, stopped: bool)

  datatype State = State(entries: Entries, log: seq<Write>, processes: seq<Process>)

  datatype Step =
    | BeginPush(push: PushRequest)
    | BeginFetch(fn: Function, req: FetchRequest)
    | LookUp(p: nat, reading: Reading)
    | Ask(p: nat, result: Result<FetchResponse>, at: int)
    | Put(p: nat, at: int)
    | PutFault(p: nat, at: int, landed: bool)

  // ---- Writes of a request ----

  predicate WellMade(work: Work) {
    match work
    case Pushing(push, times, places) => push.fn.Some? && |times| == |places| <= PushCount(push.uris)
    case Filing(fn, req, _, response, at, places) => |places| <= |FetchWrites(fn, req, response, at)|
    case _ => true
  }

  function Places(work: Work): seq<nat> {
    if work.Pushing? || work.Filing? then work.places else []
  }

  /**
    The writes made so far: for a push the URI list and then single URIs, for a fetch the fetched URI and then the
    list.
   */
  function MadeWrites(work: Work): (writes: seq<Write>)
    requires WellMade(work)
    ensures |writes| == |Places(work)|
  {
    match work
    case Pushing(push, times, _) => PushWrites(push, times)
    case Filing(fn, req, _, response, at, places) => FetchWrites(fn, req, response, at)[..|places|]
    case _ => []
  }

  /** The next write, if the request has one left; `at` stamps the asset of a push. */
  function NextWrite(work: Work, at: int): Option<Write>
    requires WellMade(work)
  {
    match work
    case Pushing(push, times, _) => if |times| < PushCount(push.uris) then Some(PushWrite(push, |times|, at)) else None
    case Filing(fn, req, _, response, stamp, places) =>
      var writes := FetchWrites(fn, req, response, stamp);
      if |places| < |writes| then Some(writes[|places|]) else None
    case _ => None
  }

  function Advance(work: Work, at: int, place: nat): Work {
    match work
    case Pushing(push, times, places) => Pushing(push, times + [at], places + [place])
    case Filing(fn, req, looks, response, stamp, places) => Filing(fn, req, looks, response, stamp, places + [place])
    case _ => work
  }

  lemma OneMorePlaced(work: Work, at: int, place: nat)
    requires WellMade(work) && NextWrite(work, at).Some?
    ensures WellMade(Advance(work, at, place)) && Places(Advance(work, at, place)) == Places(work) + [place]
    ensures MadeWrites(Advance(work, at, place)) == MadeWrites(work) + [NextWrite(work, at).value]
  {
  }

  // ---- Steps ----

  function AfterLook(found: Option<Asset>, seen: nat, work: Work, reading: Reading): Work
    requires work.LookingUp?
  {
    var looks := work.looks + [Look(reading, seen)];
    match found
    case None => LookingUp(work.fn, work.req, looks)
    case Some(data) => Hit(work.fn, work.req, looks, data)
  }

  ghost predicate Enabled(s: State, step: Step) {
    match step
    case BeginPush(push) => push.fn.Some? && push.uris != []
    case BeginFetch(_, _) => true
    case LookUp(p, _) =>
      && p < |s.processes| && !s.processes[p].stopped && s.processes[p].work.LookingUp?
      && |s.processes[p].work.looks| < |s.processes[p].work.req.uris|
    case Ask(p, _, _) =>
      && p < |s.processes| && !s.processes[p].stopped && s.processes[p].work.LookingUp?
      && |s.processes[p].work.looks| == |s.processes[p].work.req.uris|
    case Put(p, at) => MayWrite(s, p, at)
    case PutFault(p, at, _) => MayWrite(s, p, at)
  }

  ghost predicate MayWrite(s: State, p: nat, at: int) {
    && p < |s.processes| && !s.processes[p].stopped
    && WellMade(s.processes[p].work) && NextWrite(s.processes[p].work, at).Some?
  }

  /** A write takes effect: in the store, at the end of the log, and in the process that made it. */
  function Written(s: State, p: nat, at: int, stopped: bool): State
    requires p < |s.processes| && WellMade(s.processes[p].work) && NextWrite(s.processes[p].work, at).Some?
  {
    var work := s.processes[p].work;
    var w := NextWrite(work, at).value;
    State(s.entries[WriteKey(w) := w.data], s.log + [w],
          s.processes[p := Process(Advance(work, at, |s.log|), stopped)])
  }

  ghost function Apply(s: State, step: Step): State
    requires Enabled(s, step)
  {
    match step
    case BeginPush(push) => s.(processes := s.processes + [Process(Pushing(push, [], []), false)])
    case BeginFetch(fn, req) => s.(processes := s.processes + [Process(LookingUp(fn, req, []), false)])
    case LookUp(p, reading) =>
      var work := s.processes[p].work;
      var found := Found(s.entries, work.fn, work.req, |work.looks|, reading);
      s.(processes := s.processes[p := Process(AfterLook(found, |s.log|, work, reading), false)])
    case Ask(p, result, at) =>
      var work := s.processes[p].work;
      var after := if result.Failure? then Process(work, true)
                   else Process(Filing(work.fn, work.req, work.looks, result.value, at, []), false);
      s.(processes := s.processes[p := after])
    case Put(p, at) => Written(s, p, at, false)
    case PutFault(p, at, landed) =>
      if landed then Written(s, p, at, true)
      else s.(processes := s.processes[p := s.processes[p].(stopped := true)])
  }

  // ---- The invariant ----

  /** The writes stand at these positions of the log, in their order. */
  ghost predicate Placed(log: seq<Write>, writes: seq<Write>, places: seq<nat>) {
    && |writes| == |places|
    && (forall i :: 0 <= i < |places| ==> places[i] < |log| && log[places[i]] == writes[i])
    && (forall i, j :: 0 <= i < j < |places| ==> places[i] < places[j])
  }

  /** What the history at the time of the i-th lookup gives for it. */
  function LookedUp(log: seq<Write>, fn: Function, req: FetchRequest, looks: seq<Look>, i: nat): Option<Asset>
    requires i < |looks| <= |req.uris| && looks[i].seen <= |log|
  {
    FoundInHistory(log[..looks[i].seen], fn, req, i, looks[i].reading)
  }

  /** The lookups were made in order, and each of the first n found nothing in the history of its time. */
  ghost predicate Missed(log: seq<Write>, fn: Function, req: FetchRequest, looks: seq<Look>, n: nat) {
    && n <= |looks| <= |req.uris|
    && (forall i :: 0 <= i < |looks| ==> looks[i].seen <= |log|)
    && (forall i, j :: 0 <= i < j < |looks| ==> looks[i].seen <= looks[j].seen)
    && (forall i :: 0 <= i < n ==> LookedUp(log, fn, req, looks, i).None?)
  }

  ghost predicate WorkOk(log: seq<Write>, work: Work) {
    && WellMade(work) && Placed(log, MadeWrites(work), Places(work))
    && match work
       case Pushing(push, _, _) => push.uris != []
       case LookingUp(fn, req, looks) => Missed(log, fn, req, looks, |looks|)
       case Hit(fn, req, looks, data) =>
         && looks != [] && Missed(log, fn, req, looks, |looks| - 1)
         && LookedUp(log, fn, req, looks, |looks| - 1) == Some(data)
       case Filing(fn, req, looks, _, _, _) => Missed(log, fn, req, looks, |looks|) && |looks| == |req.uris|
  }

  /** The write at a position of the log was made by one of the processes. */
  ghost predicate MadeBySome(i: nat, processes: seq<Process>) {
    exists p :: 0 <= p < |processes| && i in Places(processes[p].work)
  }

  ghost predicate Inv(s: State) {
    && s.entries == ApplyWrites(map[], s.log)
    && (forall p :: 0 <= p < |s.processes| ==> WorkOk(s.log, s.processes[p].work))
    && (forall i :: 0 <= i < |s.log| ==> MadeBySome(i, s.processes))
  }

  // ---- Preservation ----

  lemma WorkOkGrows(log: seq<Write>, w: Write, work: Work)
    requires WorkOk(log, work)
    ensures WorkOk(log + [w], work)
  {
    if work.LookingUp? || work.Hit? || work.Filing? {
      forall i | 0 <= i < |work.looks|
        ensures LookedUp(log + [w], work.fn, work.req, work.looks, i) == LookedUp(log, work.fn, work.req, work.looks, i)
      {
        assert (log + [w])[..work.looks[i].seen] == log[..work.looks[i].seen];
      }
    }
  }

  lemma PlacedExtends(log: seq<Write>, writes: seq<Write>, places: seq<nat>, w: Write)
    requires Placed(log, writes, places)
    ensures Placed(log + [w], writes + [w], places + [|log|])
  {
  }

  lemma AdvancedOk(log: seq<Write>, work: Work, at: int)
    requires WorkOk(log, work) && NextWrite(work, at).Some?
    ensures WorkOk(log + [NextWrite(work, at).value], Advance(work, at, |log|))
  {
    var w := NextWrite(work, at).value;
    OneMorePlaced(work, at, |log|);
    PlacedExtends(log, MadeWrites(work), Places(work), w);
    WorkOkGrows(log, w, work);
    if work.Filing? {
      assert Missed(log + [w], work.fn, work.req, work.looks, |work.looks|);
    }
  }

  /** A further lookup, made now, sees the whole log. */
  lemma OneMoreLook(log: seq<Write>, fn: Function, req: FetchRequest, looks: seq<Look>, reading: Reading)
    requires Missed(log, fn, req, looks, |looks|) && |looks| < |req.uris|
    ensures var more := looks + [Look(reading, |log|)];
            && Missed(log, fn, req, more, |looks|)
            && LookedUp(log, fn, req, more, |looks|) == Found(ApplyWrites(map[], log), fn, req, |looks|, reading)
  {
    var more := looks + [Look(reading, |log|)];
    ReplayFinds(log, fn, req, |looks|, reading);
    assert log[..|log|] == log;
    forall i | 0 <= i < |looks| ensures LookedUp(log, fn, req, more, i).None? {
      assert LookedUp(log, fn, req, looks, i).None?;
    }
  }

  lemma LookOk(log: seq<Write>, work: Work, reading: Reading)
    requires WorkOk(log, work) && work.LookingUp? && |work.looks| < |work.req.uris|
    ensures WorkOk(log, AfterLook(Found(ApplyWrites(map[], log), work.fn, work.req, |work.looks|, reading),
                                  |log|, work, reading))
  {
    OneMoreLook(log, work.fn, work.req, work.looks, reading);
    LookedOk(log, work, reading, Found(ApplyWrites(map[], log), work.fn, work.req, |work.looks|, reading));
  }

  lemma LookedOk(log: seq<Write>, work: Work, reading: Reading, found: Option<Asset>)
    requires work.LookingUp? && |work.looks| < |work.req.uris|
    requires var more := work.looks + [Look(reading, |log|)];
             && Missed(log, work.fn, work.req, more, |work.looks|)
             && LookedUp(log, work.fn, work.req, more, |work.looks|) == found
    ensures WorkOk(log, AfterLook(found, |log|, work, reading))
  {
    var more := work.looks + [Look(reading, |log|)];
    assert |more| - 1 == |work.looks|;
  }

  lemma WrittenKeepsInv(s: State, p: nat, at: int, stopped: bool)
    requires Inv(s) && MayWrite(s, p, at)
    ensures Inv(Written(s, p, at, stopped))
  {
    var t, work := Written(s, p, at, stopped), s.processes[p].work;
    var w := NextWrite(work, at).value;
    ApplyOne(map[], s.log, w);
    OneMorePlaced(work, at, |s.log|);
    forall q | 0 <= q < |t.processes| ensures WorkOk(t.log, t.processes[q].work) {
      if q == p {
        AdvancedOk(s.log, work, at);
      } else {
        WorkOkGrows(s.log, w, s.processes[q].work);
      }
    }
    forall i | 0 <= i < |t.log| ensures MadeBySome(i, t.processes) {
      if i == |s.log| {
        assert i in Places(t.processes[p].work);
      } else {
        assert MadeBySome(i, s.processes);
        var q :| 0 <= q < |s.processes| && i in Places(s.processes[q].work);
        assert i in Places(t.processes[q].work);
      }
    }
  }

  lemma PlacesKept(s: State, processes: seq<Process>)
    requires Inv(s) && |s.processes| <= |processes|
    requires forall p :: 0 <= p < |s.processes| ==> Places(processes[p].work) == Places(s.processes[p].work)
    ensures forall i :: 0 <= i < |s.log| ==> MadeBySome(i, processes)
  {
    forall i | 0 <= i < |s.log| ensures MadeBySome(i, processes) {
      assert MadeBySome(i, s.processes);
      var p :| 0 <= p < |s.processes| && i in Places(s.processes[p].work);
      assert i in Places(processes[p].work);
    }
  }

  /** A process that goes on without writing keeps the invariant. */
  lemma MovedKeepsInv(s: State, p: nat, after: Process)
    requires Inv(s) && p < |s.processes|
    requires WorkOk(s.log, after.work) && Places(after.work) == Places(s.processes[p].work)
    ensures Inv(s.(processes := s.processes[p := after]))
  {
    PlacesKept(s, s.processes[p := after]);
  }

  lemma BegunKeepsInv(s: State, q: Process)
    requires Inv(s) && WorkOk(s.log, q.work)
    ensures Inv(s.(processes := s.processes + [q]))
  {
    PlacesKept(s, s.processes + [q]);
  }

  lemma AskedKeepsInv(s: State, p: nat, result: Result<FetchResponse>, at: int)
    requires Inv(s) && Enabled(s, Ask(p, result, at))
    ensures Inv(Apply(s, Ask(p, result, at)))
  {
    var work := s.processes[p].work;
    assert WorkOk(s.log, work);
    MovedKeepsInv(s, p, Apply(s, Ask(p, result, at)).processes[p]);
  }

  /** Every step of every request, failed or not, keeps the invariant; the log only grows. */
  lemma StepKeepsInv(s: State, step: Step)
    requires Inv(s) && Enabled(s, step)
    ensures Inv(Apply(s, step)) && s.log <= Apply(s, step).log
  {
    match step
    case BeginPush(push) => BegunKeepsInv(s, Process(Pushing(push, [], []), false));
    case BeginFetch(fn, req) => BegunKeepsInv(s, Process(LookingUp(fn, req, []), false));
    case LookUp(p, reading) =>
      LookOk(s.log, s.processes[p].work, reading);
      MovedKeepsInv(s, p, Apply(s, step).processes[p]);
    case Ask(p, result, at) => AskedKeepsInv(s, p, result, at);
    case Put(p, at) => WrittenKeepsInv(s, p, at, false);
    case PutFault(p, at, landed) =>
      if landed {
        WrittenKeepsInv(s, p, at, true);
      } else {
        MovedKeepsInv(s, p, s.processes[p].(stopped := true));
      }
  }

  ghost predicate IsRun(states: seq<State>, steps: seq<Step>) {
    && |states| == |steps| + 1 && states[0] == State(map[], [], [])
    && forall i :: 0 <= i < |steps| ==> Enabled(states[i], steps[i]) && states[i + 1] == Apply(states[i], steps[i])
  }

  /**
    Over every run, whatever is interleaved and whatever fails: the store is the replay of the writes that took
    effect; each of them is a push's or a fetch's own next write; a hit is what the last write under its key said when
    it was read, and all lookups before it, like all lookups before a call of the wrapped fetcher, found nothing fresh
    when they were made.
   */
  lemma {:induction false} RunsKeepInv(states: seq<State>, steps: seq<Step>, n: nat)
    requires IsRun(states, steps) && n < |states|
    ensures Inv(states[n])
  {
    if n > 0 {
      RunsKeepInv(states, steps, n - 1);
      StepKeepsInv(states[n - 1], steps[n - 1]);
    }
  }

  // ---- Pushing and fetching at the same time ----

  /** Nothing after the position was written for the URI by itself and the qualifiers. */
  ghost predicate LastMatchAt(log: seq<Write>, fn: Function, u: string, qualifiers: seq<Qualifier>, place: nat) {
    forall j :: place < j < |log| ==> !Matches(log[j], fn, [u], qualifiers)
  }

  /**
    A URI of a push whose writes are all made leads to the pushed asset while it is fresh, whatever else is going on, as
    long as nothing was written for the same URI and qualifiers after the last write of the push for it.
   */
  lemma PushedIsFound(s: State, p: nat, req: FetchRequest, i: nat, reading: Reading) returns (k: nat)
    requires Inv(s) && p < |s.processes| && s.processes[p].work.Pushing?
    requires var push := s.processes[p].work.push;
             && |s.processes[p].work.times| == PushCount(push.uris)
             && i < |req.uris| && req.uris[i] in push.uris && !reading.failed
             && (forall q :: q in push.qualifiers ==> !Volatile(q))
             && multiset(Stable(req.qualifiers)) == multiset(push.qualifiers)
    ensures k < |s.processes[p].work.times| == |s.processes[p].work.places|
    ensures var work, u := s.processes[p].work, req.uris[i];
            && Matches(s.log[work.places[k]], work.push.fn.value, [u], work.push.qualifiers)
            && (LastMatchAt(s.log, work.push.fn.value, u, work.push.qualifiers, work.places[k]) ==>
                  var expireAt := work.push.expireAt;
                  Found(s.entries, work.push.fn.value, req, i, reading) ==
                    if (expireAt.None? || expireAt == Some(0) || expireAt.value >= reading.now)
                       && (req.oldest.None? || work.times[k] >= req.oldest.value)
                    then Some(Asset(work.push.digest, expireAt, Some(work.times[k]), work.push.assetType))
                    else None)
  {
    var work := s.processes[p].work;
    var push, fn, u := work.push, work.push.fn.value, req.uris[i];
    assert WorkOk(s.log, work);
    var n := WriteOfUri(push, work.times, u);
    k := LastMatch(PushWrites(push, work.times), fn, [u], push.qualifiers, n);
    if LastMatchAt(s.log, fn, u, push.qualifiers, work.places[k]) {
      LastMatchWins(map[], s.log, fn, [u], push.qualifiers, work.places[k]);
      StableUnchangedIff(push.qualifiers);
      SameLookupKey(fn, u, req.qualifiers, push.qualifiers);
    }
  }
}
