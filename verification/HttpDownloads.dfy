/** The HTTP fetcher: downloads through temporary files, with one fallback per URI. */
module HttpDownloads {
  import opened Common
  import opened Qualifiers
  import opened Messages
  import opened BlobStores
  import opened AuthorizationHeaders
  import opened Checksums

  const STATUS_OK := 200

  /** An answer may break off before its body is complete, and closing the body may fail. */
  datatype Answer = Unreachable | Answer(status: int, content: Wire, complete: bool, closes: bool)
  datatype Exchange = Exchange(uri: string, header: map<string, string>, answer: Answer)

  class HttpClient {
    ghost var log: seq<Exchange>
    const parses: string -> bool
    const canonical: string -> string

    constructor (parses: string -> bool, canonical: string -> string)
      ensures log == [] && this.parses == parses && this.canonical == canonical
    {
      this.log := [];
      this.parses := parses;
      this.canonical := canonical;
    }

    method Do(uri: string, req: Request) returns (answer: Answer)
      modifies this
      ensures log == old(log) + [Exchange(uri, req.header, answer)]
    {
      answer := *;
      log := log + [Exchange(uri, req.header, answer)];
    }
  }

  /**
    The temporary files: what the open ones hold, and which were closed. A file can be read and closed while it is
    open.
   */
  class TempFiles {
    var created: nat
    var open: map<nat, Wire>
    ghost var closed: seq<nat>
    const healthy: bool

    ghost predicate Valid()
      reads this
    {
      forall f :: f in open ==> f < created
    }

    constructor (healthy: bool)
      ensures Valid() && created == 0 && open == map[] && closed == [] && this.healthy == healthy
    {
      this.created, this.open, this.closed, this.healthy := 0, map[], [], healthy;
    }

    method Create() returns (file: Option<nat>)
      requires Valid()
      modifies this
      ensures Valid() && closed == old(closed)
      ensures file.None? ==> !healthy && created == old(created) && open == old(open)
      ensures file.Some? ==>
          file.value == old(created) && created == old(created) + 1 && open == old(open)[file.value := EMPTY_BLOB]
    {
      if !healthy {
        if * {
          return None;
        }
      }
      file := Some(created);
      open := open[created := EMPTY_BLOB];
      created := created + 1;
    }

    method Write(file: nat, content: Wire)
      requires Valid() && file in open
      modifies this`open
      ensures Valid() && open == old(open)[file := content]
    {
      open := open[file := content];
    }

    method Close(file: nat)
      requires Valid() && file in open
      modifies this`open, this`closed
      ensures Valid() && open == old(open) - {file} && closed == old(closed) + [file]
    {
      open := open - {file};
      closed := closed + [file];
    }
  }

  /** Reading an errored buffer fails; the other kind owns an open temporary file. */
  datatype Buffer = Errored | FromFile(file: nat)

  /**
    How far the download of a URI came: the exchange, if the URI parses, and the file, if one was made for its body.
   */
  datatype Download = Download(exchange: Option<Exchange>, file: Option<nat>)

  /** What was downloaded, if all of it arrived. */
  function Content(d: Download): Option<Wire> {
    if d.exchange.Some? && d.exchange.value.answer.Answer? && d.file.Some?
       && d.exchange.value.answer.complete && d.exchange.value.answer.closes then Some(d.exchange.value.answer.content)
    else None
  }

  /** The request carries exactly the headers of its URI, and its body is stored when the status is 200. */
  ghost predicate Proper(d: Download, uri: string, headers: Headers, client: HttpClient, files: TempFiles) {
    match d.exchange
    case None => !client.parses(uri) && d.file.None?
    case Some(Exchange(to, header, answer)) =>
      && client.parses(uri) && to == uri
      && (if uri in headers then Applied(map[], header, headers[uri].Keys, headers[uri], client.canonical)
        else header == map[])
      && (d.file.Some? ==> answer.Answer? && answer.status == 200)
      && (d.file.None? && files.healthy ==> answer.Unreachable? || answer.status != 200)
  }

  /** Each download went to the URI of the same position, with that URI's headers. */
  ghost predicate InOrder(downloads: seq<Download>, uris: seq<string>, headers: Headers, client: HttpClient,
                          files: TempFiles) {
    && |downloads| <= |uris|
    && forall k :: 0 <= k < |downloads| ==> Proper(downloads[k], uris[k], headers, client, files)
  }

  /** When files can be made, a download has content exactly if its URI parses and sends all of that with status 200. */
  lemma ContentIff(d: Download, uri: string, headers: Headers, client: HttpClient, files: TempFiles, content: Wire)
    requires Proper(d, uri, headers, client, files) && files.healthy
    ensures Content(d) == Some(content) <==>
              && client.parses(uri)
              && d.exchange.Some? && d.exchange.value.uri == uri
              && d.exchange.value.answer == Answer(200, content, true, true)
  {
  }

  function Exchanges(downloads: seq<Download>): seq<Exchange> {
    if downloads == [] then []
    else
      var n := |downloads| - 1;
      Exchanges(downloads[..n]) + (if downloads[n].exchange.Some? then [downloads[n].exchange.value] else [])
  }

  function Files(downloads: seq<Download>): seq<nat> {
    if downloads == [] then []
    else
      var n := |downloads| - 1;
      Files(downloads[..n]) + (if downloads[n].file.Some? then [downloads[n].file.value] else [])
  }

  lemma OneMore(downloads: seq<Download>, d: Download)
    ensures Exchanges(downloads + [d]) == Exchanges(downloads) + (if d.exchange.Some? then [d.exchange.value] else [])
    ensures Files(downloads + [d]) == Files(downloads) + (if d.file.Some? then [d.file.value] else [])
  {
  }

  /** The files made from one count up to another. */
  function Range(first: nat, end: nat): (r: seq<nat>)
    requires first <= end
    ensures |r| == end - first
    ensures forall i :: 0 <= i < |r| ==> r[i] == first + i
  {
    if first == end then [] else Range(first, end - 1) + [end - 1]
  }

  /** Downloaded content is stored and named in the response if it meets the checksum and storing succeeds. */
  ghost predicate Delivered(content: Wire, uri: string, qualifiers: seq<Qualifier>, fn: Function,
                            checksum: Option<Checksum>, hash: (Algorithm, Wire) -> seq<Byte>, before: Cas, after: Cas,
                            response: Option<FetchResponse>, code: Code, healthy: bool) {
    if !Meets(checksum, content, hash) then response == None && code == Internal && after == before
    else
      || (&& response == Some(FetchResponse(OK, uri, qualifiers, DigestOf(fn.algorithm, content)))
          && code == OK && after == Store(before, fn, content))
      || (!healthy && response == None && code == Internal && after == before)
  }

  /** The outcome of a fetch: the first URI that downloads completely decides, and no further URI is tried after it. */
  ghost predicate Outcome(downloads: seq<Download>, uris: seq<string>, qualifiers: seq<Qualifier>, fn: Function,
                          checksum: Option<Checksum>, hash: (Algorithm, Wire) -> seq<Byte>, before: Cas, after: Cas,
                          response: Option<FetchResponse>, code: Code, healthy: bool) {
    var n := |downloads| - 1;
    && |downloads| <= |uris|
    && (forall k :: 0 <= k < n ==> Content(downloads[k]).None?)
    && if n >= 0 && Content(downloads[n]).Some? then
         Delivered(Content(downloads[n]).value, uris[n], qualifiers, fn, checksum, hash, before, after, response, code,
                   healthy)
       else
         |downloads| == |uris| && response == None && code == NotFound && after == before
  }

  lemma Decided(downloads: seq<Download>, d: Download, uris: seq<string>, qualifiers: seq<Qualifier>, fn: Function,
                checksum: Option<Checksum>, hash: (Algorithm, Wire) -> seq<Byte>, before: Cas, after: Cas,
                response: Option<FetchResponse>, code: Code, healthy: bool)
    requires |downloads| < |uris| && (forall k :: 0 <= k < |downloads| ==> Content(downloads[k]).None?)
        && Content(d).Some?
    requires Delivered(Content(d).value, uris[|downloads|], qualifiers, fn, checksum, hash, before, after, response,
                       code, healthy)
    ensures Outcome(downloads + [d], uris, qualifiers, fn, checksum, hash, before, after, response, code, healthy)
  {
  }

  lemma OutcomeHasResponse(downloads: seq<Download>, uris: seq<string>, qualifiers: seq<Qualifier>, fn: Function,
                           checksum: Option<Checksum>, hash: (Algorithm, Wire) -> seq<Byte>, before: Cas, after: Cas,
                           response: Option<FetchResponse>, code: Code, healthy: bool)
    requires Outcome(downloads, uris, qualifiers, fn, checksum, hash, before, after, response, code, healthy)
    ensures code == OK <==> response.Some?
  {
  }

  class HttpFetcher {
    const client: HttpClient
    const files: TempFiles
    const cas: ContentAddressableStorage
    const decoders: Decoders
    const hash: (Algorithm, Wire) -> seq<Byte>
    const parseHeaders: string -> Option<Headers>

    constructor (client: HttpClient, files: TempFiles, cas: ContentAddressableStorage, decoders: Decoders,
                 hash: (Algorithm, Wire) -> seq<Byte>, parseHeaders: string -> Option<Headers>)
      ensures this.client == client && this.files == files && this.cas == cas
      ensures this.decoders == decoders && this.hash == hash && this.parseHeaders == parseHeaders
    {
      this.client, this.files, this.cas := client, files, cas;
      this.decoders, this.hash, this.parseHeaders := decoders, hash, parseHeaders;
    }

    /** Streams a body into a new file. The file is closed here unless the buffer that is returned owns it. */
    method Stream(answer: Answer) returns (buffer: Buffer, ghost file: Option<nat>)
      requires files.Valid() && answer.Answer?
      modifies files
      ensures files.Valid()
      ensures file.None? ==> !files.healthy && buffer == Errored && files.created == old(files.created)
                             && files.open == old(files.open) && files.closed == old(files.closed)
      ensures file.Some? ==> file.value == old(files.created) && files.created == old(files.created) + 1
      ensures file.Some? && answer.complete && answer.closes ==>
                buffer == FromFile(file.value) && files.open == old(files.open)[file.value := answer.content]
                    && files.closed == old(files.closed)
      ensures file.Some? && !(answer.complete && answer.closes) ==>
                buffer == Errored && files.open == old(files.open) && files.closed == old(files.closed) + [file.value]
    {
      var handle := files.Create();
      file := handle;
      buffer := Errored;
      if handle.None? {
        return;
      }
      var shouldCloseTempFile := true;
      if answer.complete {
        files.Write(handle.value, answer.content);
        if answer.closes {
          shouldCloseTempFile := false;
          buffer := FromFile(handle.value);
        }
      } else {
        var partial: Wire := *;
        files.Write(handle.value, partial);
      }
      if shouldCloseTempFile {
        files.Close(handle.value);
      }
    }

    /** Downloads one URI; a buffer that is not errored owns the open file with the content. */
    method DownloadBlob(uri: string, fn: Function, checksum: Option<Checksum>, auth: AuthHeaders)
      returns (buffer: Buffer, digest: Digest, sum: string, ghost d: Download)
      requires files.Valid()
      modifies client, files
      ensures files.Valid() && Proper(d, uri, auth.headers, client, files)
      ensures client.log == old(client.log) + if d.exchange.Some? then [d.exchange.value] else []
      ensures files.created == old(files.created) + if d.file.Some? then 1 else 0
      ensures d.file.Some? ==> d.file.value == old(files.created)
      ensures match Content(d)
              case Some(content) =>
                && buffer == FromFile(d.file.value) && digest == DigestOf(fn.algorithm, content)
                && sum == (if checksum.Some? && checksum.value.expected != "" then
                             EncodeHex(hash(checksum.value.algorithm, content))
                           else "")
                && files.open == old(files.open)[d.file.value := content] && files.closed == old(files.closed)
              case None =>
                && buffer == Errored && files.open == old(files.open)
                && files.closed == old(files.closed) + if d.file.Some? then [d.file.value] else []
    {
      buffer, digest, sum, d := Errored, NilDigest, "", Download(None, None);
      if !client.parses(uri) {
        return;
      }
      var req := new Request();
      auth.ApplyHeaders(uri, req, client.canonical);
      var answer := client.Do(uri, req);
      d := d.(exchange := Some(Exchange(uri, req.header, answer)));
      if answer.Unreachable? || answer.status != STATUS_OK {
        return;
      }
      ghost var file;
      buffer, file := Stream(answer);
      d := d.(file := file);
      if buffer.FromFile? {
        digest := DigestOf(fn.algorithm, answer.content);
        if checksum.Some? && checksum.value.expected != "" {
          sum := EncodeHex(hash(checksum.value.algorithm, answer.content));
        }
      }
    }

    /** Moves the content of a buffer into the CAS. The buffer's file is closed whether or not that succeeds. */
    method PutBuffer(fn: Function, digest: Digest, buffer: Buffer) returns (code: Code)
      requires cas.Valid() && files.Valid() && buffer.FromFile? && buffer.file in files.open
      requires digest == DigestOf(fn.algorithm, files.open[buffer.file])
      modifies files`open, files`closed, cas`blobs
      ensures cas.Valid() && files.Valid()
      ensures files.open == old(files.open) - {buffer.file} && files.closed == old(files.closed) + [buffer.file]
      ensures code == OK ==> cas.blobs == Store(old(cas.blobs), fn, old(files.open)[buffer.file])
      ensures code != OK ==> cas.blobs == old(cas.blobs)
      ensures cas.healthy ==> code == OK
    {
      code := cas.Put(fn, files.open[buffer.file]);
      files.Close(buffer.file);
    }

    /** Compares the checksums and stores the content. The buffer's file is closed either way. */
    method Deliver(uri: string, qualifiers: seq<Qualifier>, fn: Function, checksum: Option<Checksum>,
                   buffer: Buffer, digest: Digest, sum: string)
      returns (response: Option<FetchResponse>, code: Code)
      requires cas.Valid() && files.Valid() && buffer.FromFile? && buffer.file in files.open
      requires digest == DigestOf(fn.algorithm, files.open[buffer.file])
      requires checksum.Some? && checksum.value.expected != "" ==>
                 sum == EncodeHex(hash(checksum.value.algorithm, files.open[buffer.file]))
      modifies files`open, files`closed, cas`blobs
      ensures cas.Valid() && files.Valid()
      ensures files.open == old(files.open) - {buffer.file} && files.closed == old(files.closed) + [buffer.file]
      ensures Delivered(old(files.open)[buffer.file], uri, qualifiers, fn, checksum, hash,
                        old(cas.blobs), cas.blobs, response, code, cas.healthy)
    {
      if checksum.Some? && checksum.value.expected != "" && sum != checksum.value.expected {
        files.Close(buffer.file);
        return None, Internal;
      }
      code := PutBuffer(fn, digest, buffer);
      if code != OK {
        return None, Internal;
      }
      response := Some(FetchResponse(OK, uri, qualifiers, digest));
    }

    /** One round of the loop; it decides the fetch when the download is complete. */
    method TryUri(uri: string, qualifiers: seq<Qualifier>, fn: Function, checksum: Option<Checksum>, auth: AuthHeaders)
      returns (decided: bool, response: Option<FetchResponse>, code: Code, ghost d: Download)
      requires cas.Valid() && files.Valid()
      modifies client, files, cas`blobs
      ensures cas.Valid() && files.Valid() && files.open == old(files.open)
      ensures files.closed == old(files.closed) + if d.file.Some? then [d.file.value] else []
      ensures files.created == old(files.created) + if d.file.Some? then 1 else 0
      ensures d.file.Some? ==> d.file.value == old(files.created)
      ensures client.log == old(client.log) + if d.exchange.Some? then [d.exchange.value] else []
      ensures Proper(d, uri, auth.headers, client, files) && decided == Content(d).Some?
      ensures !decided ==> response == None && code == NotFound && cas.blobs == old(cas.blobs)
      ensures decided ==> Delivered(Content(d).value, uri, qualifiers, fn, checksum, hash,
                                    old(cas.blobs), cas.blobs, response, code, cas.healthy)
    {
      decided, response, code := false, None, NotFound;
      var buffer, digest, sum;
      buffer, digest, sum, d := DownloadBlob(uri, fn, checksum, auth);
      if buffer != Errored {
        decided := true;
        response, code := Deliver(uri, qualifiers, fn, checksum, buffer, digest, sum);
        assert files.open == old(files.open);
      }
    }

    /** The loop over the URIs. Every file that it makes is closed exactly once. */
    method TryUris(uris: seq<string>, qualifiers: seq<Qualifier>, fn: Function, checksum: Option<Checksum>,
                   auth: AuthHeaders)
      returns (response: Option<FetchResponse>, code: Code, ghost downloads: seq<Download>)
      requires cas.Valid() && files.Valid()
      modifies client, files, cas`blobs
      ensures cas.Valid() && files.Valid()
      ensures files.open == old(files.open) && files.created >= old(files.created)
      ensures files.closed == old(files.closed) + Files(downloads)
          && Files(downloads) == Range(old(files.created), files.created)
      ensures client.log == old(client.log) + Exchanges(downloads)
      ensures InOrder(downloads, uris, auth.headers, client, files)
      ensures Outcome(downloads, uris, qualifiers, fn, checksum, hash, old(cas.blobs), cas.blobs, response, code,
                      cas.healthy)
    {
      response, code, downloads := None, NotFound, [];
      for i := 0 to |uris|
        invariant cas.Valid() && files.Valid() && |downloads| == i
        invariant files.open == old(files.open) && files.created >= old(files.created)
        invariant files.closed == old(files.closed) + Files(downloads)
            && Files(downloads) == Range(old(files.created), files.created)
        invariant client.log == old(client.log) + Exchanges(downloads)
        invariant InOrder(downloads, uris, auth.headers, client, files)
        invariant forall k :: 0 <= k < i ==> Content(downloads[k]).None?
        invariant cas.blobs == old(cas.blobs) && response == None && code == NotFound
      {
        var decided;
        ghost var d;
        decided, response, code, d := TryUri(uris[i], qualifiers, fn, checksum, auth);
        OneMore(downloads, d);
        if decided {
          Decided(downloads, d, uris, qualifiers, fn, checksum, hash, old(cas.blobs), cas.blobs, response, code,
                  cas.healthy);
          downloads := downloads + [d];
          return;
        }
        downloads := downloads + [d];
      }
    }

    /**
      How FetchBlob answers: an unresolved digest function, a bad checksum and bad headers refuse the request in this
      order and before any download; otherwise the downloads decide.
     */
    ghost predicate Answered(fn: Option<Function>, uris: seq<string>, qualifiers: seq<Qualifier>, order: seq<string>,
                             downloads: seq<Download>, before: Cas, after: Cas, r: Result<FetchResponse>) {
      var checksum := ChecksumOutcome(qualifiers, decoders);
      var headers := HeaderOutcome(uris, qualifiers, order, parseHeaders);
      if fn.None? then downloads == [] && after == before && r == Failure(InvalidArgument)
      else if checksum.Failure? then downloads == [] && after == before && r == Failure(checksum.code)
      else if headers.Failure? then downloads == [] && after == before && r == Failure(headers.code)
      else
        && (FirstNamed(qualifiers, LEGACY_AUTH_HEADERS).None? ==> IsOrder(order, PerUrl(qualifiers).Keys))
        && InOrder(downloads, uris, headers.value, client, files)
        && Outcome(downloads, uris, qualifiers, fn.value, checksum.value, hash, before, after,
                   if r.Success? then Some(r.value) else None, if r.Success? then OK else r.code, cas.healthy)
    }

    /** `fn` is None when instance name and digest function do not resolve. The first obstacle found ends the fetch. */
    method FetchBlob(fn: Option<Function>, uris: seq<string>, qualifiers: seq<Qualifier>)
      returns (response: Option<FetchResponse>, code: Code, ghost downloads: seq<Download>, ghost order: seq<string>)
      requires cas.Valid() && files.Valid()
      modifies client, files, cas`blobs
      ensures cas.Valid() && files.Valid()
      ensures files.open == old(files.open) && files.created >= old(files.created)
      ensures files.closed == old(files.closed) + Files(downloads)
          && Files(downloads) == Range(old(files.created), files.created)
      ensures client.log == old(client.log) + Exchanges(downloads)
      ensures Answered(fn, uris, qualifiers, order, downloads, old(cas.blobs), cas.blobs,
                       if response.Some? then Success(response.value) else Failure(code))
      ensures code == OK <==> response.Some?
    {
      response, downloads, order := None, [], [];
      if fn.None? {
        code := InvalidArgument;
        return;
      }
      var checksum := GetChecksumSri(qualifiers, decoders);
      if checksum.Failure? {
        code := checksum.code;
        return;
      }
      var auth;
      auth, code, order := GetAuthHeaders(uris, qualifiers, parseHeaders);
      if auth.None? {
        return;
      }
      ghost var before := cas.blobs;
      response, code, downloads := TryUris(uris, qualifiers, fn.value, checksum.value, auth.value);
      OutcomeHasResponse(downloads, uris, qualifiers, fn.value, checksum.value, hash, before, cas.blobs, response, code,
                         cas.healthy);
    }
  }

  // ---- What a fetch guarantees ----

  /** A URI from which a whole body can be had, when each URI is answered in its own way. */
  predicate Served(uri: string, client: HttpClient, serve: string -> Answer) {
    var answer := serve(uri);
    client.parses(uri) && answer.Answer? && answer.status == 200 && answer.complete && answer.closes
  }

  function FirstServed(uris: seq<string>, client: HttpClient, serve: string -> Answer): (first: Option<nat>)
    ensures first.Some? ==> first.value < |uris| && Served(uris[first.value], client, serve)
  {
    if uris == [] then None
    else if Served(uris[0], client, serve) then Some(0)
    else match FirstServed(uris[1..], client, serve) case None => None case Some(i) => Some(i + 1)
  }

  lemma {:induction false} FirstServedIff(uris: seq<string>, client: HttpClient, serve: string -> Answer, i: nat)
    ensures FirstServed(uris, client, serve) == Some(i) <==>
              i < |uris| && Served(uris[i], client, serve) && forall k :: 0 <= k < i ==> !Served(uris[k], client, serve)
  {
    if uris != [] && !Served(uris[0], client, serve) && i > 0 {
      FirstServedIff(uris[1..], client, serve, i - 1);
      assert forall k :: 0 < k < |uris| ==> uris[k] == uris[1..][k - 1];
      assert i < |uris| ==> uris[i] == uris[1..][i - 1];
      assert forall k :: 0 <= k < |uris| - 1 ==> uris[1..][k] == uris[k + 1];
    }
  }

  /** A fetch as one would write it with the answers known beforehand: response, code and CAS. */
  function FetchFrom(uris: seq<string>, qualifiers: seq<Qualifier>, fn: Function, checksum: Option<Checksum>,
                     hash: (Algorithm, Wire) -> seq<Byte>, client: HttpClient, serve: string -> Answer, before: Cas)
    : (Option<FetchResponse>, Code, Cas)
  {
    match FirstServed(uris, client, serve)
    case None => (None, NotFound, before)
    case Some(i) =>
      var content := serve(uris[i]).content;
      if Meets(checksum, content, hash) then
        (Some(FetchResponse(OK, uris[i], qualifiers, DigestOf(fn.algorithm, content))), OK, Store(before, fn, content))
      else (None, Internal, before)
  }

  /**
    Without faults of the stores, the loop with its files and early exits gives what FetchFrom gives, and no URI after
    the first served one is tried.
   */
  lemma FetchIsFetchFrom(downloads: seq<Download>, uris: seq<string>, qualifiers: seq<Qualifier>, fn: Function,
                         checksum: Option<Checksum>, hash: (Algorithm, Wire) -> seq<Byte>, before: Cas, after: Cas,
                         response: Option<FetchResponse>, code: Code,
                         headers: Headers, client: HttpClient, files: TempFiles, serve: string -> Answer)
    requires Outcome(downloads, uris, qualifiers, fn, checksum, hash, before, after, response, code, true)
    requires files.healthy
    requires InOrder(downloads, uris, headers, client, files)
    requires forall k :: 0 <= k < |downloads| && downloads[k].exchange.Some? ==>
               downloads[k].exchange.value.answer == serve(uris[k])
    ensures (response, code, after) == FetchFrom(uris, qualifiers, fn, checksum, hash, client, serve, before)
    ensures |downloads| == match FirstServed(uris, client, serve) case None => |uris| case Some(i) => i + 1
  {
    forall k | 0 <= k < |downloads|
      ensures Content(downloads[k]) == if Served(uris[k], client, serve) then Some(serve(uris[k]).content) else None
    {
      assert Proper(downloads[k], uris[k], headers, client, files);
    }
    var n := |downloads| - 1;
    if n >= 0 && Content(downloads[n]).Some? {
      FirstServedIff(uris, client, serve, n);
    }
  }

  /**
    With a checksum qualifier, a successful fetch stored content that its URI served, whose hash is the requested one
    byte for byte unless no bytes were requested, and that can be read under the digest in the response.
   */
  lemma StoredIsRequested(downloads: seq<Download>, uris: seq<string>, qualifiers: seq<Qualifier>, fn: Function,
                          decoders: Decoders, hash: (Algorithm, Wire) -> seq<Byte>, before: Cas, after: Cas,
                          response: Option<FetchResponse>, code: Code, healthy: bool)
    requires ContentAddressed(before)
    requires FirstNamed(qualifiers, CHECKSUM_SRI).Some? && ChecksumOutcome(qualifiers, decoders).Success?
    requires Outcome(downloads, uris, qualifiers, fn, ChecksumOutcome(qualifiers, decoders).value, hash, before, after,
                     response, code, healthy)
    requires response.Some?
    ensures ParseSri(FirstNamed(qualifiers, CHECKSUM_SRI).value, decoders).Some? && 1 <= |downloads| <= |uris|
    ensures response.value.status == OK && response.value.qualifiers == qualifiers
    ensures response.value.uri == uris[|downloads| - 1] && Content(downloads[|downloads| - 1]).Some?
    ensures var content := Content(downloads[|downloads| - 1]).value;
            && Lookup(after, fn, response.value.digest) == Some(Encode(content))
            && var (algorithm, bytes) := ParseSri(FirstNamed(qualifiers, CHECKSUM_SRI).value, decoders).value;
               bytes == [] || hash(algorithm, content) == bytes
  {
    var content := Content(downloads[|downloads| - 1]).value;
    MeetsIffSameBytes(qualifiers, content, decoders, hash);
    StoreKeeps(before, fn, content);
    LookupStored(after, fn, content);
  }

  /** No header of the URI has the canonical name of another one with another value. */
  ghost predicate NoClash(headers: Headers, uri: string, header: string, canonical: string -> string) {
    forall h :: ValueOf(headers, uri, h).Some? && canonical(h) == canonical(header) ==>
      ValueOf(headers, uri, h) == ValueOf(headers, uri, header)
  }

  /** The request to the i-th URI carries the value of each per-URL qualifier with index i, unless names clash. */
  ghost predicate CarriesIndexed(d: Download, uris: seq<string>, qs: seq<Qualifier>, headers: Headers,
                                 client: HttpClient, i: nat)
    requires i < |uris|
  {
    d.exchange.Some? ==>
      forall key, header ::
        key in PerUrl(qs) && Target(key, |uris|) == Some((i, header))
            && NoClash(headers, uris[i], header, client.canonical) ==>
          client.canonical(header) in d.exchange.value.header
          && d.exchange.value.header[client.canonical(header)] == PerUrl(qs)[key]
  }

  /**
    A request to the client's i-th URI carries the values of the per-URL qualifiers with index i, if they are
    unambiguous.
   */
  lemma IndexedHeadersAreSent(d: Download, uris: seq<string>, qs: seq<Qualifier>, order: seq<string>,
                              parse: string -> Option<Headers>,
                              client: HttpClient, files: TempFiles, i: nat)
    requires FirstNamed(qs, LEGACY_AUTH_HEADERS).None? && IsOrder(order, PerUrl(qs).Keys)
    requires HeaderOutcome(uris, qs, order, parse).Success? && Unambiguous(PerUrl(qs), uris)
    requires i < |uris| && Proper(d, uris[i], HeaderOutcome(uris, qs, order, parse).value, client, files)
    ensures CarriesIndexed(d, uris, qs, HeaderOutcome(uris, qs, order, parse).value, client, i)
  {
    var headers := HeaderOutcome(uris, qs, order, parse).value;
    if d.exchange.Some? {
      forall key, header | key in PerUrl(qs) && Target(key, |uris|) == Some((i, header))
          && NoClash(headers, uris[i], header, client.canonical)
        ensures client.canonical(header) in d.exchange.value.header
        ensures d.exchange.value.header[client.canonical(header)] == PerUrl(qs)[key]
      {
        HeaderGiven(uris, qs, order, parse, uris[i], header);
        assert Hits(key, PerUrl(qs), uris, uris[i], header);
        assert ValueOf(headers, uris[i], header) == Some(PerUrl(qs)[key]);
        SentValue(d, uris[i], headers, client, files, header);
      }
    }
  }

  /** A header of a URI is sent with its value unless its canonical name clashes. */
  lemma SentValue(d: Download, uri: string, headers: Headers, client: HttpClient, files: TempFiles, header: string)
    requires Proper(d, uri, headers, client, files) && d.exchange.Some?
    requires ValueOf(headers, uri, header).Some? && NoClash(headers, uri, header, client.canonical)
    ensures client.canonical(header) in d.exchange.value.header
    ensures d.exchange.value.header[client.canonical(header)] == ValueOf(headers, uri, header).value
  {
    var sent, name := d.exchange.value.header, client.canonical(header);
    assert header in headers[uri].Keys;
    var h :| h in headers[uri].Keys && client.canonical(h) == name && sent[name] == headers[uri][h];
    assert ValueOf(headers, uri, h) == Some(sent[name]);
  }
}
