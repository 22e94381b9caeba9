/** The fetcher that downloads by remote execution, and the unpacking of the Trees it gets. */
module RemoteExecution {
  import opened Common
  import opened Sorting
  import opened Qualifiers
  import opened Messages
  import opened BlobStores
  import opened DirectoryTrees
  import opened AssetReferences
  import opened Translator
  import opened Actions

  /** What a receive from the execution stream yields; the stream fails when it ends. */
  datatype Operation = Pending | Finished(result: Option<ActionResult>) | Garbled

  /** The first operation that is done decides. */
  function Receive(stream: seq<Operation>): Result<Option<ActionResult>> {
    if stream == [] then Failure(Unavailable)
    else match stream[0]
         case Pending => Receive(stream[1..])
         case Finished(result) => Success(result)
         case Garbled => Failure(Unknown)
  }

  /** The operation at n comes after pending ones only. */
  ghost predicate AfterPending(stream: seq<Operation>, n: int) {
    0 <= n < |stream| && forall k :: 0 <= k < n ==> stream[k].Pending?
  }

  /**
    A stream yields the result of its first operation that is done, and fails if that is garbled or if there is none.
   */
  ghost predicate Yields(stream: seq<Operation>, r: Result<Option<ActionResult>>) {
    match r
    case Success(result) => exists n :: AfterPending(stream, n) && stream[n] == Finished(result)
    case Failure(Unknown) => exists n :: AfterPending(stream, n) && stream[n].Garbled?
    case Failure(code) => code == Unavailable && forall k :: 0 <= k < |stream| ==> stream[k].Pending?
  }

  lemma {:induction false} ReceiveIffYields(stream: seq<Operation>, r: Result<Option<ActionResult>>)
    ensures Receive(stream) == r <==> Yields(stream, r)
  {
    if stream != [] && stream[0].Pending? {
      var rest := stream[1..];
      ReceiveIffYields(rest, r);
      assert forall k :: 0 < k < |stream| ==> stream[k] == rest[k - 1];
      forall n | AfterPending(rest, n) ensures AfterPending(stream, n + 1) && stream[n + 1] == rest[n] {}
      forall n | AfterPending(stream, n) && n > 0 ensures AfterPending(rest, n - 1) && rest[n - 1] == stream[n] {}
    } else if stream != [] {
      assert AfterPending(stream, 0);
      assert forall n :: AfterPending(stream, n) ==> n == 0 || stream[0].Pending?;
    }
  }

  /** An absent ActionResult counts as exit code zero. */
  function ExitCode(result: Option<ActionResult>): int {
    if result.Some? then result.value.exitCode else 0
  }

  /** One call of Execute: the CAS content it was made with and the answer. */
  datatype Execution = Execution(actionDigest: Digest, cas: Cas, reply: Result<seq<Operation>>)

  function OutcomeOf(e: Execution): Result<Option<ActionResult>> {
    if e.reply.Failure? then Failure(e.reply.code) else Receive(e.reply.value)
  }

  /** Executed to the end, with an exit code that is not zero. */
  predicate Unsuccessful(e: Execution) {
    var outcome := OutcomeOf(e);
    outcome.Success? && outcome.value.Some? && outcome.value.value.exitCode != 0
  }

  /** An execution is unsuccessful exactly if the first operation that is done reports an exit code other than zero. */
  lemma UnsuccessfulIff(e: Execution)
    ensures Unsuccessful(e) <==>
              e.reply.Success? && exists n, a ::
                AfterPending(e.reply.value, n) && e.reply.value[n] == Finished(Some(a)) && a.exitCode != 0
  {
    if e.reply.Success? {
      var outcome := OutcomeOf(e);
      ReceiveIffYields(e.reply.value, outcome);
      forall n, a | AfterPending(e.reply.value, n) && e.reply.value[n] == Finished(Some(a))
        ensures outcome == Success(Some(a))
      {
        ReceiveIffYields(e.reply.value, Success(Some(a)));
      }
    }
  }

  function FetchAction(command: Command, fn: Function): Action {
    Action(DigestOf(fn.algorithm, CommandWire(command)), EmptyDigest(fn.algorithm), None)
  }

  /** The execution of the Action for a Command, made when the CAS held both. */
  ghost predicate ExecutedFor(e: Execution, command: Command, fn: Function) {
    && e.actionDigest == DigestOf(fn.algorithm, ActionWire(FetchAction(command, fn)))
    && KeyOf(fn, ActionWire(FetchAction(command, fn))) in e.cas
    && KeyOf(fn, CommandWire(command)) in e.cas && ContentAddressed(e.cas)
  }

  /** Read from the CAS as it was then, the executed Action names the Command, an empty input root and no platform. */
  lemma ExecutedReadsBack(e: Execution, command: Command, fn: Function)
    requires ExecutedFor(e, command, fn) && command.outputPaths != []
    ensures exists d ::
              && Lookup(e.cas, fn, e.actionDigest) == Some(ActionWire(Action(d, EmptyDigest(fn.algorithm), None)))
              && Lookup(e.cas, fn, d) == Some(CommandWire(command))
  {
  }

  /** The execution service. Its workers may upload to the CAS while an Action runs. */
  class ExecutionClient {
    ghost var log: seq<Execution>

    constructor ()
      ensures log == []
    {
      log := [];
    }

    method Execute(fn: Function, actionDigest: Digest, cas: ContentAddressableStorage)
      returns (r: Result<seq<Operation>>)
      requires cas.Valid()
      modifies this, cas`blobs
      ensures log == old(log) + [Execution(actionDigest, old(cas.blobs), r)]
      ensures r != Failure(OK)
      ensures cas.Valid() && Grown(old(cas.blobs), cas.blobs)
    {
      r := *;
      if r == Failure(OK) {
        r := Failure(Unavailable);
      }
      log := log + [Execution(actionDigest, cas.blobs, r)];
      var outputs: seq<Wire> := *;
      StoreAllKeeps(cas.blobs, fn, outputs);
      cas.blobs := StoreAll(cas.blobs, fn, outputs);
    }
  }

  datatype Downloaded = Downloaded(result: Option<ActionResult>, uri: string, outputPath: string)

  /** The executions of a fetch: one per URI from the first on, each prepared, all but the last without success. */
  ghost predicate Attempts(executed: seq<Execution>, generate: string -> Command, uris: seq<string>, fn: Function) {
    && |executed| <= |uris|
    && (forall k :: 0 <= k < |executed| ==> ExecutedFor(executed[k], generate(uris[k]), fn))
    && (forall k :: 0 <= k < |executed| - 1 ==> Unsuccessful(executed[k]))
  }

  ghost predicate NoneSuccessful(executed: seq<Execution>) {
    forall k :: 0 <= k < |executed| ==> Unsuccessful(executed[k])
  }

  lemma AttemptsExtend(executed: seq<Execution>, made: seq<Execution>, generate: string -> Command, uris: seq<string>,
                       fn: Function)
    requires |executed| < |uris| && |made| <= 1
    requires Attempts(executed, generate, uris, fn)
    requires made != [] ==> ExecutedFor(made[0], generate(uris[|executed|]), fn)
    requires NoneSuccessful(executed)
    ensures Attempts(executed + made, generate, uris, fn)
  {
  }

  /** The last execution ended with exit code zero, and the download is its result, its URI and its output path. */
  ghost predicate SucceededLast(executed: seq<Execution>, generate: string -> Command, uris: seq<string>,
                                got: Downloaded) {
    && 1 <= |executed| <= |uris|
    && OutcomeOf(executed[|executed| - 1]) == Success(got.result)
    && (got.result.None? || got.result.value.exitCode == 0)
    && got.uri == uris[|executed| - 1]
    && generate(got.uri).outputPaths != [] && got.outputPath == generate(got.uri).outputPaths[0]
  }

  /** Either the last execution broke off with the code, or every URI was executed without success. */
  ghost predicate FailedWith(executed: seq<Execution>, uris: seq<string>, code: Code) {
    if executed != [] && OutcomeOf(executed[|executed| - 1]).Failure? then
      OutcomeOf(executed[|executed| - 1]) == Failure(code)
    else
      code == NotFound && |executed| == |uris| && NoneSuccessful(executed)
  }

  lemma LogExtends(log: seq<Execution>, before: seq<Execution>, made: seq<Execution>)
    ensures log + before + made == log + (before + made)
  {
  }

  lemma OneMoreUnsuccessful(executed: seq<Execution>, made: seq<Execution>, result: Result<Option<ActionResult>>)
    requires NoneSuccessful(executed) && |made| == 1 && OutcomeOf(made[0]) == result
    requires result.Success? && ExitCode(result.value) != 0
    ensures NoneSuccessful(executed + made)
  {
  }

  lemma AllTried(executed: seq<Execution>, uris: seq<string>)
    requires NoneSuccessful(executed) && |executed| == |uris|
    ensures FailedWith(executed, uris, NotFound)
  {
  }

  /** An attempt that breaks off decides the failure. */
  lemma BrokenOff(executed: seq<Execution>, made: seq<Execution>, uris: seq<string>,
                  result: Result<Option<ActionResult>>)
    requires |made| == 1 && OutcomeOf(made[0]) == result && result.Failure?
    ensures FailedWith(executed + made, uris, result.code)
  {
  }

  lemma Succeeded(executed: seq<Execution>, made: seq<Execution>, generate: string -> Command, uris: seq<string>,
                  outputPath: string, result: Result<Option<ActionResult>>)
    requires |made| == 1 && OutcomeOf(made[0]) == result && result.Success? && ExitCode(result.value) == 0
    requires |executed| < |uris|
    requires generate(uris[|executed|]).outputPaths != [] && outputPath == generate(uris[|executed|]).outputPaths[0]
    ensures SucceededLast(executed + made, generate, uris, Downloaded(result.value, uris[|executed|], outputPath))
  {
  }

  /** The contract of a fetch by execution: prepared attempts in order, and the outcome of the last one. */
  ghost predicate CommonSpec(executed: seq<Execution>, uris: seq<string>, qualifiers: seq<Qualifier>, fn: Function,
                             r: Result<Downloaded>, healthy: bool) {
    var generator := QualifiersToCommand(qualifiers);
    if generator.Failure? then r == Failure(Unknown) && executed == []
    else
      && ChecksumParses(generator.value)
      && Attempts(executed, Closure(generator.value), uris, fn)
      && (r.Success? ==> SucceededLast(executed, Closure(generator.value), uris, r.value))
      && (r.Failure? && healthy ==> FailedWith(executed, uris, r.code))
      && r != Failure(OK)
  }

  /** The CAS has a Tree under a digest. */
  predicate HoldsTree(cas: Cas, fn: Function, d: Digest) {
    match Lookup(cas, fn, d) case Some(TreeWire(_)) => true case _ => false
  }

  /** An absent ActionResult has no outputs. */
  function OutputFiles(result: Option<ActionResult>): seq<OutputFile> {
    if result.Some? then result.value.outputFiles else []
  }

  function OutputDirectories(result: Option<ActionResult>): seq<OutputDirectory> {
    if result.Some? then result.value.outputDirectories else []
  }

  /** A digest of anything but the empty blob. */
  predicate HasContent(d: Digest) {
    (d.Of? && d.wire != Blob("")) || (d.Opaque? && d.size != 0)
  }

  /** What FetchBlob makes of a download: its last file at the output path, if that is not empty. */
  ghost predicate BlobAnswer(got: Downloaded, qualifiers: seq<Qualifier>, response: Option<FetchResponse>, code: Code) {
    var file := LastFileNamed(OutputFiles(got.result), got.outputPath);
    if file.Some? && HasContent(file.value) then
      response == Some(FetchResponse(OK, got.uri, qualifiers, file.value)) && code == OK
    else if exists d :: d in OutputDirectories(got.result) && d.path == got.outputPath then
      response == Some(FetchResponse(Aborted, got.uri, qualifiers, NilDigest)) && code == Aborted
    else response == None && code == NotFound
  }

  /** What FetchDirectory makes of a download without a Tree at the output path. */
  ghost predicate NoTreeAnswer(got: Downloaded, qualifiers: seq<Qualifier>, response: Option<FetchResponse>,
                               code: Code) {
    if exists f :: f in OutputFiles(got.result) && f.path == got.outputPath then
      response == Some(FetchResponse(Aborted, got.uri, qualifiers, NilDigest)) && code == Aborted
    else response == None && code == NotFound
  }

  /** The digest of the last directory's Tree at the output path, if that is not empty. */
  ghost predicate WantsTree(got: Downloaded, wanted: Option<Digest>) {
    var tree := LastTreeNamed(OutputDirectories(got.result), got.outputPath);
    wanted == if tree.Some? && HasContent(tree.value) then tree else None
  }

  /** A last file with content is the answer. */
  lemma ContentIsAnswered(got: Downloaded, qualifiers: seq<Qualifier>, response: Option<FetchResponse>, code: Code,
                          i: int, content: string)
    requires BlobAnswer(got, qualifiers, response, code) && got.result.Some? && content != ""
    requires IsLast(got.result.value.outputFiles, FilePath, got.outputPath, i)
    requires exists a :: got.result.value.outputFiles[i].digest == DigestOf(a, Blob(content))
    ensures code == OK
    ensures response == Some(FetchResponse(OK, got.uri, qualifiers, got.result.value.outputFiles[i].digest))
  {
    LastNamedFinds(got.result.value.outputFiles, FilePath, FileDigest, got.outputPath);
  }

  /** A last directory whose Tree is not empty is the one that is unpacked. */
  lemma TreeIsWanted(got: Downloaded, wanted: Option<Digest>, i: int, tree: Tree)
    requires WantsTree(got, wanted) && got.result.Some?
    requires IsLast(got.result.value.outputDirectories, DirectoryPath, got.outputPath, i)
    requires exists a :: got.result.value.outputDirectories[i].treeDigest == DigestOf(a, TreeWire(tree))
    ensures wanted == Some(got.result.value.outputDirectories[i].treeDigest)
  {
    LastNamedFinds(got.result.value.outputDirectories, DirectoryPath, TreeDigest, got.outputPath);
  }

  class RemoteExecutionFetcher {
    const cas: ContentAddressableStorage
    const executionClient: ExecutionClient

    constructor (cas: ContentAddressableStorage, executionClient: ExecutionClient)
      ensures this.cas == cas && this.executionClient == executionClient
    {
      this.cas := cas;
      this.executionClient := executionClient;
    }

    /** Receives from the stream until an operation is done. */
    method Await(stream: seq<Operation>) returns (r: Result<Option<ActionResult>>)
      ensures r == Receive(stream) && Yields(stream, r)
    {
      ReceiveIffYields(stream, Receive(stream));
      var rest := stream;
      while true
        invariant Receive(rest) == Receive(stream)
        decreases rest
      {
        if rest == [] {
          return Failure(Unavailable);
        }
        match rest[0]
        case Pending => rest := rest[1..];
        case Finished(result) => return Success(result);
        case Garbled => return Failure(Unknown);
      }
    }

    /** Uploads Action and Command for one URI and executes the Action; `made` holds the execution if it came to one. */
    method Attempt(command: Command, fn: Function)
      returns (r: Result<Option<ActionResult>>, ghost made: seq<Execution>)
      requires cas.Valid()
      modifies executionClient, cas`blobs
      ensures cas.Valid() && Grown(old(cas.blobs), cas.blobs)
      ensures executionClient.log == old(executionClient.log) + made && |made| <= 1
      ensures made == [] ==> r == Failure(Unavailable)
      ensures made != [] ==> ExecutedFor(made[0], command, fn) && OutcomeOf(made[0]) == r
      ensures cas.healthy ==> made != []
      ensures r != Failure(OK)
    {
      ghost var before := cas.blobs;
      made := [];
      var action := FetchAction(command, fn);
      StoreKeeps(before, fn, ActionWire(action));
      var code := cas.Put(fn, ActionWire(action));
      if code != OK {
        return Failure(code), made;
      }
      StoreKeeps(cas.blobs, fn, CommandWire(command));
      assert KeyOf(fn, ActionWire(action)) in cas.blobs;
      code := cas.Put(fn, CommandWire(command));
      if code != OK {
        return Failure(code), made;
      }
      ghost var uploaded := cas.blobs;
      var actionDigest := DigestOf(fn.algorithm, ActionWire(action));
      var stream := executionClient.Execute(fn, actionDigest, cas);
      made := [Execution(actionDigest, uploaded, stream)];
      if stream.Failure? {
        return Failure(stream.code), made;
      }
      r := Await(stream.value);
    }

    /**
      Tries the URIs in order. Success belongs to the first URI whose execution ends with exit code zero; the fetch
      fails with NotFound when all were executed without success, and otherwise at the first attempt that breaks off.
     */
    method TryAll(generate: string -> Command, uris: seq<string>, fn: Function)
      returns (r: Result<Downloaded>, ghost executed: seq<Execution>)
      requires cas.Valid() && forall i :: 0 <= i < |uris| ==> generate(uris[i]).outputPaths != []
      modifies executionClient, cas`blobs
      ensures cas.Valid() && Grown(old(cas.blobs), cas.blobs)
      ensures executionClient.log == old(executionClient.log) + executed
      ensures Attempts(executed, generate, uris, fn)
      ensures r.Success? ==> SucceededLast(executed, generate, uris, r.value)
      ensures r.Failure? && cas.healthy ==> FailedWith(executed, uris, r.code)
      ensures r != Failure(OK)
    {
      executed := [];
      for i := 0 to |uris|
        invariant cas.Valid() && Grown(old(cas.blobs), cas.blobs)
        invariant executionClient.log == old(executionClient.log) + executed && |executed| == i
        invariant Attempts(executed, generate, uris, fn)
        invariant NoneSuccessful(executed)
      {
        var decided;
        decided, r, executed := TryUri(generate, uris, i, fn, old(executionClient.log), executed);
        if decided {
          return;
        }
      }
      AllTried(executed, uris);
      r := Failure(NotFound);
    }

    /** One round of the loop; an execution that broke off or ended with exit code zero decides the fetch. */
    method TryUri(generate: string -> Command, uris: seq<string>, i: nat, fn: Function, ghost log: seq<Execution>,
                  ghost before: seq<Execution>)
      returns (decided: bool, r: Result<Downloaded>, ghost executed: seq<Execution>)
      requires cas.Valid() && i < |uris| && |before| == i && generate(uris[i]).outputPaths != []
      requires Attempts(before, generate, uris, fn) && NoneSuccessful(before) && executionClient.log == log + before
      modifies executionClient, cas`blobs
      ensures cas.Valid() && Grown(old(cas.blobs), cas.blobs)
      ensures executionClient.log == log + executed && Attempts(executed, generate, uris, fn)
      ensures !decided ==> |executed| == i + 1 && NoneSuccessful(executed)
      ensures decided && r.Success? ==> SucceededLast(executed, generate, uris, r.value)
      ensures decided && r.Failure? && cas.healthy ==> FailedWith(executed, uris, r.code)
      ensures r != Failure(OK)
    {
      var command := generate(uris[i]);
      var result;
      ghost var made;
      result, made := Attempt(command, fn);
      AttemptsExtend(before, made, generate, uris, fn);
      executed := before + made;
      LogExtends(log, before, made);
      if result.Failure? {
        if made != [] {
          BrokenOff(before, made, uris, result);
        }
        return true, Failure(result.code), executed;
      }
      if ExitCode(result.value) == 0 {
        Succeeded(before, made, generate, uris, command.outputPaths[0], result);
        return true, Success(Downloaded(result.value, uris[i], command.outputPaths[0])), executed;
      }
      OneMoreUnsuccessful(before, made, result);
      decided, r := false, Failure(NotFound);
    }

    /** Generates the Command from the qualifiers and tries the URIs with it. */
    method FetchCommon(uris: seq<string>, qualifiers: seq<Qualifier>, fn: Function)
      returns (r: Result<Downloaded>, ghost executed: seq<Execution>)
      requires cas.Valid()
      requires QualifiersToCommand(qualifiers).Success? ==> ChecksumParses(QualifiersToCommand(qualifiers).value)
      modifies executionClient, cas`blobs
      ensures cas.Valid() && Grown(old(cas.blobs), cas.blobs)
      ensures executionClient.log == old(executionClient.log) + executed
      ensures CommonSpec(executed, uris, qualifiers, fn, r, cas.healthy)
      ensures QualifiersToCommand(qualifiers).Failure? ==> cas.blobs == old(cas.blobs)
    {
      executed := [];
      var generator := QualifiersToCommand(qualifiers);
      if generator.Failure? {
        return Failure(generator.code), executed;
      }
      r, executed := TryAll(Closure(generator.value), uris, fn);
    }

    /** The last output file at the wanted path, unless it is empty or missing. */
    method FetchBlob(uris: seq<string>, qualifiers: seq<Qualifier>, fn: Function)
      returns (response: Option<FetchResponse>, code: Code, ghost downloaded: Result<Downloaded>,
               ghost executed: seq<Execution>)
      requires cas.Valid()
      requires QualifiersToCommand(qualifiers).Success? ==> ChecksumParses(QualifiersToCommand(qualifiers).value)
      modifies executionClient, cas`blobs
      ensures cas.Valid() && Grown(old(cas.blobs), cas.blobs)
      ensures executionClient.log == old(executionClient.log) + executed
      ensures CommonSpec(executed, uris, qualifiers, fn, downloaded, cas.healthy)
      ensures downloaded.Failure? ==> response == None && code == downloaded.code
      ensures code == OK <==> response.Some? && response.value.status == OK
      ensures downloaded.Success? ==> BlobAnswer(downloaded.value, qualifiers, response, code)
    {
      var common;
      common, executed := FetchCommon(uris, qualifiers, fn);
      downloaded := common;
      if common.Failure? {
        return None, common.code, downloaded, executed;
      }
      response, code := FindBlob(common.value, qualifiers, fn);
    }

    /** Looks among the outputs of a download. */
    method FindBlob(got: Downloaded, qualifiers: seq<Qualifier>, fn: Function)
      returns (response: Option<FetchResponse>, code: Code)
      ensures BlobAnswer(got, qualifiers, response, code)
      ensures code == OK <==> response.Some? && response.value.status == OK
    {
      var files, empty := OutputFiles(got.result), EmptyDigest(fn.algorithm);
      var digest := FindDigest(files, FilePath, FileDigest, got.outputPath, empty);
      if ZeroSize(digest) {
        var directories := OutputDirectories(got.result);
        for i := 0 to |directories|
          invariant forall j :: 0 <= j < i ==> directories[j].path != got.outputPath
        {
          if directories[i].path == got.outputPath {
            return Some(FetchResponse(Aborted, got.uri, qualifiers, NilDigest)), Aborted;
          }
        }
        return None, NotFound;
      }
      return Some(FetchResponse(OK, got.uri, qualifiers, digest)), OK;
    }

    /** Uploads the Directories of a Tree, the root first. */
    method UploadTree(fn: Function, tree: Tree) returns (code: Code)
      requires cas.Valid()
      modifies cas`blobs
      ensures cas.Valid() && Grown(old(cas.blobs), cas.blobs)
      ensures code == OK ==> cas.blobs == Unpack(old(cas.blobs), fn, tree)
      ensures cas.healthy ==> code == OK
    {
      ghost var before := cas.blobs;
      ghost var wires := DirectoryWires(tree.children);
      StoreKeeps(before, fn, DirectoryWire(tree.root));
      code := cas.Put(fn, DirectoryWire(tree.root));
      if code != OK {
        return;
      }
      ghost var rooted := cas.blobs;
      assert wires[..0] == [];
      for i := 0 to |tree.children|
        invariant cas.Valid() && Grown(before, cas.blobs) && code == OK
        invariant cas.blobs == StoreAll(rooted, fn, wires[..i])
      {
        StoreKeeps(cas.blobs, fn, DirectoryWire(tree.children[i]));
        assert wires[..i + 1] == wires[..i] + [wires[i]] && [wires[i]][1..] == [];
        StoreAllAppend(rooted, fn, wires[..i], [wires[i]]);
        code := cas.Put(fn, DirectoryWire(tree.children[i]));
        if code != OK {
          return;
        }
      }
      assert wires[..|tree.children|] == wires;
    }

    /** Reads the Tree under a digest and uploads its Directories. */
    method UnpackTree(fn: Function, digest: Digest) returns (r: Result<Directory>, ghost tree: Tree)
      requires cas.Valid()
      modifies cas`blobs
      ensures cas.Valid() && Grown(old(cas.blobs), cas.blobs)
      ensures r.Success? ==>
                && WellFormed(fn, digest) && Lookup(old(cas.blobs), fn, digest) == Some(TreeWire(tree))
                && cas.blobs == Unpack(old(cas.blobs), fn, tree) && r.value == tree.root
      ensures r.Failure? ==> r.code != OK
      ensures cas.healthy ==> (r.Success? <==> WellFormed(fn, digest) && HoldsTree(old(cas.blobs), fn, digest))
    {
      tree := Tree(EMPTY_DIRECTORY, []);
      if !WellFormed(fn, digest) {
        return Failure(InvalidArgument), tree;
      }
      var blob := cas.Get(fn, digest);
      if blob.Failure? {
        return Failure(blob.code), tree;
      }
      var read := AsTree(blob.value);
      if read.None? {
        return Failure(InvalidArgument), tree;
      }
      tree := read.value;
      var code := UploadTree(fn, read.value);
      if code != OK {
        return Failure(code), tree;
      }
      r := Success(read.value.root);
    }

    /**
      Finds the Tree of the last output directory at the wanted path, uploads its Directories and answers with the
      digest of its root. `found` is the CAS in which the Tree was found.
     */
    method FetchDirectory(uris: seq<string>, qualifiers: seq<Qualifier>, fn: Function)
      returns (response: Option<FetchResponse>, code: Code, ghost downloaded: Result<Downloaded>,
               ghost executed: seq<Execution>, ghost wanted: Option<Digest>, ghost tree: Tree, ghost found: Cas)
      requires cas.Valid()
      requires QualifiersToCommand(qualifiers).Success? ==> ChecksumParses(QualifiersToCommand(qualifiers).value)
      modifies executionClient, cas`blobs
      ensures cas.Valid() && Grown(old(cas.blobs), cas.blobs)
      ensures executionClient.log == old(executionClient.log) + executed
      ensures CommonSpec(executed, uris, qualifiers, fn, downloaded, cas.healthy)
      ensures downloaded.Failure? ==> response == None && code == downloaded.code
      ensures code == OK <==> response.Some? && response.value.status == OK
      ensures downloaded.Success? ==> WantsTree(downloaded.value, wanted)
      ensures downloaded.Success? && wanted.None? ==> NoTreeAnswer(downloaded.value, qualifiers, response, code)
      ensures downloaded.Success? && wanted.Some? ==>
                && ContentAddressed(found) && Grown(old(cas.blobs), found)
                && (code == OK ==>
                      && WellFormed(fn, wanted.value) && Lookup(found, fn, wanted.value) == Some(TreeWire(tree))
                      && cas.blobs == Unpack(found, fn, tree)
                      && response == Some(FetchResponse(OK, downloaded.value.uri, qualifiers,
                                                        DigestOf(fn.algorithm, DirectoryWire(tree.root)))))
                && (code != OK ==> response == None)
                && (cas.healthy ==>
                      (code == OK <==> WellFormed(fn, wanted.value) && HoldsTree(found, fn, wanted.value)))
    {
      tree, wanted := Tree(EMPTY_DIRECTORY, []), None;
      var common;
      common, executed := FetchCommon(uris, qualifiers, fn);
      downloaded, found := common, cas.blobs;
      if common.Failure? {
        response, code := None, common.code;
        return;
      }
      var got := common.value;
      var digest := FindTree(got, fn);
      wanted := digest;
      if digest.None? {
        response, code := ExplainNoTree(got, qualifiers);
        return;
      }
      var root;
      root, tree := UnpackTree(fn, digest.value);
      if root.Failure? {
        response, code := None, root.code;
        return;
      }
      code := OK;
      response := Some(FetchResponse(OK, got.uri, qualifiers, DigestOf(fn.algorithm, DirectoryWire(root.value))));
    }

    method FindTree(got: Downloaded, fn: Function) returns (wanted: Option<Digest>)
      ensures WantsTree(got, wanted)
    {
      var directories, empty := OutputDirectories(got.result), EmptyDigest(fn.algorithm);
      var digest := FindDigest(directories, DirectoryPath, TreeDigest, got.outputPath, empty);
      wanted := if ZeroSize(digest) then None else Some(digest);
    }

    /** Tells a file at the output path from nothing at all. */
    method ExplainNoTree(got: Downloaded, qualifiers: seq<Qualifier>)
      returns (response: Option<FetchResponse>, code: Code)
      ensures NoTreeAnswer(got, qualifiers, response, code) && code != OK
      ensures response.Some? ==> response.value.status != OK
    {
      var files := OutputFiles(got.result);
      for i := 0 to |files|
        invariant forall j :: 0 <= j < i ==> files[j].path != got.outputPath
      {
        if files[i].path == got.outputPath {
          return Some(FetchResponse(Aborted, got.uri, qualifiers, NilDigest)), Aborted;
        }
      }
      return None, NotFound;
    }
  }

  // ---- The whole pipeline of a directory fetch ----

  function FetchedDirectory(fn: Function, tree: Tree, at: int): Asset {
    Asset(DigestOf(fn.algorithm, DirectoryWire(tree.root)), EPOCH, Some(at), DIRECTORY)
  }

  /**
    After a complete Tree was unpacked, the Action Cache Put of its root meets no missing digest, however the CAS grew
    since then, and the Tree that it stores has the meaning of the worker's.
   */
  lemma FetchedDirectoryIsStorable(found: Cas, after: Cas, fn: Function, tree: Tree, at: int)
    requires ContentAddressed(found) && ContentAddressed(after) && Grown(Unpack(found, fn, tree), after)
    requires CompleteTree(fn.algorithm, tree)
    ensures Storable(after, fn, FetchedDirectory(fn, tree, at))
    ensures
      var stored := Tree(tree.root, Preorder(tree.root.directories));
      && ResultFor(fn, FetchedDirectory(fn, tree, at)).value.outputDirectories ==
           [OutputDirectory("out", DigestOf(fn.algorithm, DirectoryWire(tree.root)),
                            DigestOf(fn.algorithm, TreeWire(stored)))]
      && Named(TreeResolver(fn.algorithm, stored.children)) && Named(TreeResolver(fn.algorithm, ChildPool(tree)))
      && HierarchyOf(TreeResolver(fn.algorithm, stored.children), stored.root) ==
           HierarchyOf(TreeResolver(fn.algorithm, ChildPool(tree)), tree.root)
  {
    var unpacked := Unpack(found, fn, tree);
    var r := CasResolver(unpacked, fn);
    UnpackKeeps(found, fn, tree);
    UnpackedReadable(found, fn, tree, tree.root);
    UnpackedKeepsMeaning(found, fn, tree);
    DirectoryDigestInjective(fn.algorithm, fn.algorithm, tree.root, tree.root);
    ExpansionPreservesMeaning(r, fn.algorithm, tree.root, Tree(tree.root, Preorder(tree.root.directories)));
    StorableGrows(unpacked, after, fn, FetchedDirectory(fn, tree, at));
  }

  /** Where no Directory was in the CAS before, completeness of the worker's Tree is also necessary. */
  lemma StorableIffComplete(found: Cas, fn: Function, tree: Tree, at: int)
    requires ContentAddressed(found) && HoldsNoDirectory(found)
    ensures ContentAddressed(Unpack(found, fn, tree))
    ensures Storable(Unpack(found, fn, tree), fn, FetchedDirectory(fn, tree, at)) <==> CompleteTree(fn.algorithm, tree)
  {
    UnpackKeeps(found, fn, tree);
    UnpackedReadable(found, fn, tree, tree.root);
    UnpackedExpandsIffComplete(found, fn, tree);
  }

  // ---- Executed Actions and looked-up Actions ----

  /** The Action executed for a URI is the one under which the Action Cache store looks up that URI. */
  ghost predicate SameAction(platform: Option<Platform>, qs: seq<Qualifier>, uri: string, fn: Function)
    requires QualifiersToCommand(qs).Success? && ChecksumParses(QualifiersToCommand(qs).value)
  {
    var ref := CanonicalReference([uri], Stable(qs));
    Convertible(ref) &&
    AssetReferenceToAction(platform, ref, fn).0 == FetchAction(Generate(QualifiersToCommand(qs).value, uri), fn)
  }

  /** Actions show the platform and the script; without a generated Command on the lookup side they always differ. */
  lemma SameActionIffScript(platform: Option<Platform>, qs: seq<Qualifier>, uri: string, fn: Function)
    requires QualifiersToCommand(qs).Success? && ChecksumParses(QualifiersToCommand(qs).value)
    ensures SameAction(platform, qs, uri, fn) <==>
              var sorted := QualifiersToCommand(SortQualifiers(Stable(qs)));
              && platform.None? && sorted.Success? && ChecksumParses(sorted.value)
              && Script(QualifiersToCommand(qs).value, uri) == Script(sorted.value, uri)
  {
    var ref, sorted := CanonicalReference([uri], Stable(qs)), SortQualifiers(Stable(qs));
    QualifierOrder();
    SortIdempotent(QualifierLess, Stable(qs));
    assert ref.uris == [uri] && SortQualifiers(ref.qualifiers) == sorted;
    if UrisAsArguments(ref) {
      ArgumentsAreNotFetched(platform, ref, Generate(QualifiersToCommand(qs).value, uri), fn);
    } else if Convertible(ref) {
      GeneratedIsFetchedIff(platform, ref, QualifiersToCommand(qs).value, fn);
    }
  }

  /** An executed Action has an empty input root, and one that passes URIs as arguments does not. */
  lemma ArgumentsAreNotFetched(platform: Option<Platform>, ref: AssetReference, executed: Command, fn: Function)
    requires UrisAsArguments(ref)
    ensures AssetReferenceToAction(platform, ref, fn).0 != FetchAction(executed, fn)
  {
    assert InputRoot(ref, fn) != EMPTY_DIRECTORY;
    assert AssetReferenceToAction(platform, ref, fn).0.inputRootDigest != FetchAction(executed, fn).inputRootDigest;
  }

  lemma GeneratedIsFetchedIff(platform: Option<Platform>, ref: AssetReference, g: CommandGenerator, fn: Function)
    requires Convertible(ref) && !UrisAsArguments(ref) && ChecksumParses(g)
    ensures AssetReferenceToAction(platform, ref, fn).0 == FetchAction(Generate(g, ref.uris[0]), fn) <==>
              && platform.None?
              && Script(g, ref.uris[0]) ==
                 Script(QualifiersToCommand(SortQualifiers(ref.qualifiers)).value, ref.uris[0])
  {
    var uri, h := ref.uris[0], QualifiersToCommand(SortQualifiers(ref.qualifiers)).value;
    assert CommandFor(platform, ref) == Generate(h, uri).(platform := platform);
    assert Generate(g, uri).arguments[2] == Script(g, uri) && Generate(h, uri).arguments[2] == Script(h, uri);
  }

  /** When sorting is harmless, the two Actions agree exactly when no platform is configured. */
  lemma ExecutedIsLookedUpWhenHarmless(platform: Option<Platform>, qs: seq<Qualifier>, uri: string, fn: Function)
    requires QualifiersToCommand(qs).Success? && ChecksumParses(QualifiersToCommand(qs).value)
    requires SortingIsHarmless(qs)
    ensures SameAction(platform, qs, uri, fn) <==> platform.None?
  {
    HarmlessIff(qs);
    SameActionIffScript(platform, qs, uri, fn);
  }

  /**
    For values without blanks, the Action executed for a URI is the one looked up for it exactly when no platform is
    configured and sorting is harmless.
   */
  lemma ExecutedIsLookedUpIff(platform: Option<Platform>, qs: seq<Qualifier>, uri: string, fn: Function)
    requires QualifiersToCommand(qs).Success? && ChecksumParses(QualifiersToCommand(qs).value)
    requires NoBlanks(qs)
    ensures SameAction(platform, qs, uri, fn) <==> platform.None? && SortingIsHarmless(qs)
  {
    HarmlessIff(qs);
    SameActionIffScript(platform, qs, uri, fn);
    NoBlanksInMap(qs);
    NoBlanksSorted(qs);
    NoBlanksInMap(SortQualifiers(Stable(qs)));
    var sorted := QualifiersToCommand(SortQualifiers(Stable(qs)));
    if sorted.Success? && ChecksumParses(sorted.value) {
      ScriptsEqualIff(QualifiersToCommand(qs).value, uri, sorted.value, uri);
    }
  }

  /** With distinct qualifier names sorting is harmless, whatever the values. */
  lemma ExecutedIsLookedUp(platform: Option<Platform>, qs: seq<Qualifier>, uri: string, fn: Function)
    requires DistinctNames(qs)
    requires QualifiersToCommand(qs).Success? && ChecksumParses(QualifiersToCommand(qs).value)
    ensures SortingIsHarmless(qs)
    ensures SameAction(platform, qs, uri, fn) <==> platform.None?
  {
    DistinctIsHarmless(qs);
    ExecutedIsLookedUpWhenHarmless(platform, qs, uri, fn);
  }

  // ---- Duplicate names for which the Actions differ ----

  /** The execution checks out branch `a`, which comes last, and the lookup asks for branch `b`. */
  lemma DuplicateBranches(platform: Option<Platform>, uri: string, fn: Function)
    ensures
      var qs := [Qualifier("resource_type", "application/x-git"), Qualifier("vcs.branch", "b"),
                 Qualifier("vcs.branch", "a")];
      QualifiersToCommand(qs).Success? && ChecksumParses(QualifiersToCommand(qs).value)
          && !SameAction(platform, qs, uri, fn)
  {
    var qs := [Qualifier("resource_type", "application/x-git"), Qualifier("vcs.branch", "b"),
               Qualifier("vcs.branch", "a")];
    TypeAndLast(qs[0], qs[1], qs[2]);
    assert qs[1] in qs && StringLess("a", "b");
    ExecutedIsLookedUpIff(platform, qs, uri, fn);
  }

  /** The execution runs a git command, and the lookup finds no generator for the resource type `zzz`. */
  lemma DuplicateResourceTypes(platform: Option<Platform>, uri: string, fn: Function)
    ensures
      var qs := [Qualifier("resource_type", "zzz"), Qualifier("resource_type", "application/x-git")];
      && QualifiersToCommand(qs).Success? && ChecksumParses(QualifiersToCommand(qs).value)
      && QualifiersToCommand(SortQualifiers(Stable(qs))).Failure? && !SameAction(platform, qs, uri, fn)
  {
    var qs := [Qualifier("resource_type", "zzz"), Qualifier("resource_type", "application/x-git")];
    assert StringLess("application/x-git", "zzz");
    LastAndGreatest(qs[0], qs[1]);
    SameActionIffScript(platform, qs, uri, fn);
  }

  /** Of two values of a name the request shows the last, and the sorted list the greatest. */
  lemma LastAndGreatest(q: Qualifier, r: Qualifier)
    requires q.name == r.name && Consulted(q.name) && StringLess(r.value, q.value)
    ensures AsMap([q, r]) == map[q.name := r.value]
    ensures var sorted := AsMap(SortQualifiers(Stable([q, r])));
            q.name in sorted && sorted[q.name] == q.value
  {
    OfTwo(q, r);
    StringLessIrreflexive(q.value);
    if StringLess(q.value, r.value) {
      StringLessTransitive(q.value, r.value, q.value);
    }
    var qs := [q, r];
    assert q in qs && forall x :: x in qs ==> x == q || x == r;
    SortedIsGreatest(qs, q.name, q.value);
  }

  lemma OfTwo(q: Qualifier, r: Qualifier)
    requires q.name == r.name
    ensures AsMap([q, r]) == map[q.name := r.value]
  {
    AsMapAppend([], q);
    AsMapAppend([q], r);
    assert [] + [q] == [q] && [q] + [r] == [q, r];
  }

  /**
    With blanks, sorting can change two values and leave the script as it was: here branch `a` and a commit that starts
    with the checkout option become a branch that ends with that option and commit `z`.
   */
  lemma BlanksCanHideDuplicates(uri: string, fn: Function)
    ensures
      var qs := BlankDuplicates();
      && QualifiersToCommand(qs).Success? && ChecksumParses(QualifiersToCommand(qs).value)
      && !SortingIsHarmless(qs) && SameAction(None, qs, uri, fn)
  {
    var qs := BlankDuplicates();
    var m, n := AsMap(qs), AsMap(SortQualifiers(Stable(qs)));
    BlankDuplicatesMap();
    BlankDuplicatesSorted();
    BlanksCanHideValues(m, n, uri);
    HarmlessIff(qs);
    SameActionIffScript(None, qs, uri, fn);
  }

  lemma BlankDuplicatesSorted()
    ensures
      var n := AsMap(SortQualifiers(Stable(BlankDuplicates())));
      && "resource_type" in n && n["resource_type"] == "application/x-git"
      && "vcs.branch" in n && n["vcs.branch"] == "a" + CHECKOUT
      && "vcs.commit" in n && n["vcs.commit"] == "z"
  {
    var qs := BlankDuplicates();
    BlankDuplicatesMap();
    OnlyValues(qs[0], qs[1], qs[2], qs[3], qs[4]);
    SortedIsGreatest(qs, "resource_type", qs[0].value);
    SortedIsGreatest(qs, "vcs.branch", qs[1].value);
    SortedIsGreatest(qs, "vcs.commit", qs[2].value);
  }

  lemma OnlyValues(t: Qualifier, b: Qualifier, c: Qualifier, d: Qualifier, e: Qualifier)
    requires t.name != b.name == d.name && t.name != c.name == e.name && b.name != c.name
    requires !StringLess(b.value, d.value) && !StringLess(c.value, e.value)
    ensures var qs := [t, b, c, d, e];
            IsGreatest(qs, t.name, t.value) && IsGreatest(qs, b.name, b.value) && IsGreatest(qs, c.name, c.value)
  {
    StringLessIrreflexive(t.value);
    StringLessIrreflexive(b.value);
    StringLessIrreflexive(c.value);
    assert t in [t, b, c, d, e] && b in [t, b, c, d, e] && c in [t, b, c, d, e];
  }

  function BlankDuplicates(): seq<Qualifier> {
    [Qualifier("resource_type", "application/x-git"),
     Qualifier("vcs.branch", "a" + CHECKOUT), Qualifier("vcs.commit", "z"),
     Qualifier("vcs.branch", "a"), Qualifier("vcs.commit", CHECKOUT + "z")]
  }

  lemma BlankDuplicatesMap()
    ensures AsMap(BlankDuplicates()) ==
              map["resource_type" := "application/x-git", "vcs.branch" := "a", "vcs.commit" := CHECKOUT + "z"]
  {
    var qs := BlankDuplicates();
    assert qs == [] + [qs[0]] + [qs[1]] + [qs[2]] + [qs[3]] + [qs[4]];
    AsMapAppend([], qs[0]);
    AsMapAppend([] + [qs[0]], qs[1]);
    AsMapAppend([] + [qs[0]] + [qs[1]], qs[2]);
    AsMapAppend([] + [qs[0]] + [qs[1]] + [qs[2]], qs[3]);
    AsMapAppend([] + [qs[0]] + [qs[1]] + [qs[2]] + [qs[3]], qs[4]);
  }

  lemma TypeAndLast(q: Qualifier, r: Qualifier, s: Qualifier)
    requires r.name == s.name != q.name
    ensures AsMap([q, r, s]) == map[q.name := q.value, s.name := s.value]
  {
    var none: seq<Qualifier> := [];
    var one := none + [q];
    var two := one + [r];
    AsMapAppend(none, q);
    AsMapAppend(one, r);
    AsMapAppend(two, s);
    assert two + [s] == [q, r, s];
    assert map[q.name := q.value][r.name := r.value][s.name := s.value] == map[q.name := q.value, s.name := s.value];
  }
}
