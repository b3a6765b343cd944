/**
 * The distribution client: an authenticated wrapper over the Docker Registry
 * HTTP API V2 bound to one registry base URL. It builds request paths, attaches
 * Authorization headers, and uploads blobs either in one PUT or in chunks
 * ("Chunked upload" and "Completed upload" of that API).
 */
module Distribution {
  import opened Common
  import opened Manifests
  import opened Http

  /** The smallest buffer the chunked upload sends in a PATCH: 1 MiB. */
  const MinChunkSize: nat := 1024 * 1024

  const OctetStream: string := "application/octet-stream"

  /** What the client throws. */
  datatype ClientError =
    | ApiClientError   // fetch could not send the request or get an answer
    | CannotUpload     // putBlob: the upload-start POST was not ok
    | MissingLocation  // a response had no Location header where one was dereferenced
    | StartFailed      // putBlobV2: the upload-start POST did not answer 202
    | UploadFailed     // putBlobV2: a PATCH answered neither ok nor 416
    | CompleteFailed   // putBlobV2: the completing PUT did not answer 201

  /** What `fetch` accepts: a path string, or a URL object. */
  datatype Input = Path(path: string) | Absolute(url: Url)

  /** JavaScript truthiness of a `string | null` credential: set and non-empty. */
  predicate Truthy(credential: Option<string>)
  {
    credential.Some? && credential.value != ""
  }

  predicate StartsWithSlash(s: string)
  {
    |s| > 0 && s[0] == '/'
  }

  // Request paths, relative to the registry base URL.

  function ManifestPath(repository: string, reference: string): string
  {
    "./v2/" + repository + "/manifests/" + reference
  }

  function BlobPath(repository: string, digest: string): string
  {
    "./v2/" + repository + "/blobs/" + digest
  }

  function UploadPath(repository: string): string
  {
    "./v2/" + repository + "/blobs/uploads/"
  }

  /** The Accept headers of a manifest request: the three manifest media types. */
  const ManifestAccept: seq<Header> :=
    [Accept(OciImageIndexV1), Accept(OciImageManifestV1), Accept(DockerDistributionManifestV2)]

  /** The Accept headers `fetchBlob` sends. */
  const BlobAccept: seq<Header> := [Accept(OciImageManifestV1), Accept(DockerDistributionManifestV2)]

  /** The headers of a PATCH or completing PUT carrying `length` bytes from `offset`. */
  function ChunkHeaders(offset: int, length: nat): seq<Header>
  {
    [ContentLength(length), ContentRange(offset, offset + length - 1), ContentType(OctetStream)]
  }

  // A one-request exchange with the server oracle.

  /** What `fetch` returns when the server's next answers are `replies`. */
  function Answer(replies: seq<Response>): Result<Response, ClientError>
  {
    if replies == [] then Err(ApiClientError) else Ok(replies[0])
  }

  /** The server's record after it is sent `request` with `replies` still to come. */
  function Record(exchanges: seq<Exchange>, request: Request, replies: seq<Response>): seq<Exchange>
  {
    if replies == [] then exchanges else exchanges + [Exchange(request, replies[0])]
  }

  /** The answers left after one request. */
  function Rest(replies: seq<Response>): seq<Response>
  {
    if replies == [] then [] else replies[1..]
  }

  /** The state of a chunked upload between chunks: bytes acknowledged, bytes held back, where to send next. */
  datatype Upload = Upload(offset: nat, buffer: seq<Byte>, location: Url)

  /** A run of requests: what was exchanged, the answers left, and how it ended. */
  datatype Run<T> = Run(sent: seq<Exchange>, replies: seq<Response>, outcome: Result<T, ClientError>)

  /** `run` preceded by the exchanges `before`. */
  function After<T>(before: seq<Exchange>, run: Run<T>): Run<T>
  {
    Run(before + run.sent, run.replies, run.outcome)
  }

  /** The bytes of the exchanges the server acknowledged (ok replies), in order. */
  function Accepted(sent: seq<Exchange>): seq<Byte>
  {
    if sent == [] then []
    else (if sent[0].response.Ok() then sent[0].request.body else []) + Accepted(sent[1..])
  }

  class DistributionClient {
    const url: string
    var basic: Option<string>
    var bearer: Option<string>

    constructor (url: string)
      ensures this.url == url && basic == None && bearer == None
    {
      this.url := url;
      basic := None;
      bearer := None;
    }

    /** Stores the encoding (`btoa`, passed in) of `username:password`; the bearer token is untouched. */
    method SetBasic(username: string, password: string, btoa: string -> string)
      modifies this
      ensures basic == Some(btoa(username + ":" + password))
      ensures bearer == old(bearer)
    {
      basic := Some(btoa(username + ":" + password));
    }

    /** Stores the bearer token; the basic credential is untouched. */
    method SetBearer(token: string)
      modifies this
      ensures bearer == Some(token)
      ensures basic == old(basic)
    {
      bearer := Some(token);
    }

    /**
     * The Authorization headers `fetch` appends: one per truthy credential,
     * Basic first, then Bearer. Both are sent when both are set.
     */
    function AuthorizationHeaders(): (headers: seq<Header>)
      reads this
      ensures |headers| == (if Truthy(basic) then 1 else 0) + (if Truthy(bearer) then 1 else 0)
      ensures Truthy(basic) ==> headers[0] == Authorization("Basic " + basic.value)
      ensures Truthy(bearer) ==> headers[|headers| - 1] == Authorization("Bearer " + bearer.value)
      ensures forall h :: h in headers ==> h.Authorization?
    {
      (if Truthy(basic) then [Authorization("Basic " + basic.value)] else [])
      + (if Truthy(bearer) then [Authorization("Bearer " + bearer.value)] else [])
    }

    /** The URL of a request: a path resolves against the client's URL; a full URL stays as it is. */
    function Endpoint(input: Input): Url
    {
      match input
      case Path(p) => Url(p, url, [])
      case Absolute(u) => u
    }

    /**
     * `resolve`: a path starting with `/` gets a `.` in front, so it resolves
     * below the base URL's path; anything else resolves unchanged.
     */
    function Resolve(urlOrPath: string): (u: Url)
      ensures u.base == url && u.query == []
      ensures !StartsWithSlash(u.reference)
      ensures !StartsWithSlash(urlOrPath) ==> u == Endpoint(Path(urlOrPath))
      ensures StartsWithSlash(urlOrPath) ==> u.reference == "." + urlOrPath
    {
      if StartsWithSlash(urlOrPath) then Url("." + urlOrPath, url, []) else Url(urlOrPath, url, [])
    }

    /** The request `fetch` sends: the caller's method, headers and body, then the Authorization headers. */
    function Prepare(input: Input, verb: Method, headers: seq<Header>, body: seq<Byte>): (request: Request)
      reads this
      ensures request.verb == verb && request.url == Endpoint(input) && request.body == body
      ensures |request.headers| == |headers| + |AuthorizationHeaders()|
      ensures request.headers[..|headers|] == headers
      ensures request.headers[|headers|..] == AuthorizationHeaders()
    {
      Request(verb, Endpoint(input), headers + AuthorizationHeaders(), body)
    }

    /** `fetch`: sends the prepared request; never fails on a non-2xx status. */
    method Fetch(input: Input, verb: Method, headers: seq<Header>, body: seq<Byte>, server: Server)
      returns (r: Result<Response, ClientError>)
      modifies server
      ensures r == Answer(old(server.replies))
      ensures server.exchanges == Record(old(server.exchanges), Prepare(input, verb, headers, body), old(server.replies))
      ensures server.replies == Rest(old(server.replies))
    {
      var response := server.Send(Prepare(input, verb, headers, body));
      if response.None? {
        return Err(ApiClientError);
      }
      return Ok(response.value);
    }

    /** The request of `fetchManifest` with the given method. */
    function ManifestRequest(repository: string, reference: string, verb: Method): Request
      reads this
    {
      Prepare(Path(ManifestPath(repository, reference)), verb, ManifestAccept, [])
    }

    /** `headManifest`: whether a HEAD of the manifest answered ok. */
    method HeadManifest(repository: string, reference: string, server: Server) returns (r: Result<bool, ClientError>)
      modifies server
      ensures r == (if old(server.replies) == [] then Err(ApiClientError) else Ok(old(server.replies)[0].Ok()))
      ensures server.exchanges == Record(old(server.exchanges), ManifestRequest(repository, reference, HEAD), old(server.replies))
      ensures server.replies == Rest(old(server.replies))
    {
      var res := Fetch(Path(ManifestPath(repository, reference)), HEAD, ManifestAccept, [], server);
      if res.Err? {
        return Err(res.error);
      }
      return Ok(res.value.Ok());
    }

    /** `putManifest`: PUTs the manifest bytes unchanged, with the manifest's media type as Content-Type. */
    method PutManifest(repository: string, reference: string, mediaType: string, body: seq<Byte>, server: Server)
      returns (r: Result<Response, ClientError>)
      modifies server
      ensures r == Answer(old(server.replies))
      ensures server.exchanges == Record(old(server.exchanges),
        Prepare(Path(ManifestPath(repository, reference)), PUT, [ContentType(mediaType)], body), old(server.replies))
      ensures server.replies == Rest(old(server.replies))
    {
      r := Fetch(Path(ManifestPath(repository, reference)), PUT, [ContentType(mediaType)], body, server);
    }

    /** The request `fetchBlob` sends. Its `init` argument is dropped, so this is always a GET. */
    function BlobRequest(repository: string, digest: string): (request: Request)
      reads this
      ensures request.verb == GET
    {
      Prepare(Path(BlobPath(repository, digest)), GET, BlobAccept, [])
    }

    /** `fetchBlob`: the requested method is ignored. */
    method FetchBlob(repository: string, digest: string, verb: Method, server: Server)
      returns (r: Result<Response, ClientError>)
      modifies server
      ensures r == Answer(old(server.replies))
      ensures server.exchanges == Record(old(server.exchanges), BlobRequest(repository, digest), old(server.replies))
      ensures server.replies == Rest(old(server.replies))
    {
      r := Fetch(Path(BlobPath(repository, digest)), GET, BlobAccept, [], server);
    }

    /** `headBlob`: asks for HEAD but, through `fetchBlob`, sends a GET; answers whether it was ok. */
    method HeadBlob(repository: string, digest: string, server: Server) returns (r: Result<bool, ClientError>)
      modifies server
      ensures r == (if old(server.replies) == [] then Err(ApiClientError) else Ok(old(server.replies)[0].Ok()))
      ensures server.exchanges == Record(old(server.exchanges), BlobRequest(repository, digest), old(server.replies))
      ensures server.replies == Rest(old(server.replies))
      ensures old(server.replies) != [] ==> server.exchanges[|server.exchanges| - 1].request.verb == GET
    {
      var res := FetchBlob(repository, digest, HEAD, server);
      if res.Err? {
        return Err(res.error);
      }
      return Ok(res.value.Ok());
    }

    /** The POST that `putBlob` sends to open an upload session. */
    function UploadStartRequest(repository: string): Request
      reads this
    {
      Prepare(Path(UploadPath(repository)), POST, [], [])
    }

    /** The PUT that `putBlob` sends to the session `location`. */
    function MonolithicPutRequest(location: string, desc: Descriptor, body: seq<Byte>): (request: Request)
      reads this
      ensures request.verb == PUT && request.body == body
      ensures request.url.reference == Resolve(location).reference && request.url.base == url
      ensures ValuesOf(request.url.query, "digest") == [desc.digest]
      ensures forall name :: name != "digest" ==> ValuesOf(request.url.query, name) == []
      ensures |request.headers| >= 2 && request.headers[..2] == [ContentLength(desc.size), ContentType(OctetStream)]
    {
      Prepare(Absolute(SetParam(Resolve(location), "digest", desc.digest)), PUT,
              [ContentLength(desc.size), ContentType(OctetStream)], body)
    }

    /**
     * `putBlob`, the monolithic upload: a POST opens the session (a reply that is
     * not ok throws), then one PUT of the whole body, with the digest as query
     * parameter and the descriptor's size as Content-Length. Answers the PUT's ok.
     */
    method PutBlob(repository: string, desc: Descriptor, body: seq<Byte>, server: Server)
      returns (r: Result<bool, ClientError>)
      modifies server
      ensures old(server.replies) == [] ==> r == Err(ApiClientError) && server.exchanges == old(server.exchanges)
      ensures var replies := old(server.replies);
        replies != [] ==>
        var start := Exchange(UploadStartRequest(repository), replies[0]);
        && (!replies[0].Ok() ==> r == Err(CannotUpload) && server.exchanges == old(server.exchanges) + [start])
        && (replies[0].Ok() && replies[0].location.None? ==>
              r == Err(MissingLocation) && server.exchanges == old(server.exchanges) + [start])
        && (replies[0].Ok() && replies[0].location.Some? ==>
              var put := MonolithicPutRequest(replies[0].location.value, desc, body);
              && r == (if |replies| == 1 then Err(ApiClientError) else Ok(replies[1].Ok()))
              && server.exchanges == Record(old(server.exchanges) + [start], put, replies[1..]))
      ensures var replies := old(server.replies);
        server.replies ==
          (if replies == [] || !replies[0].Ok() || replies[0].location.None? then Rest(replies) else Rest(replies[1..]))
    {
      var start := Fetch(Path(UploadPath(repository)), POST, [], [], server);
      if start.Err? {
        return Err(start.error);
      }
      if !start.value.Ok() {
        return Err(CannotUpload);
      }
      if start.value.location.None? {
        return Err(MissingLocation);
      }
      var location := SetParam(Resolve(start.value.location.value), "digest", desc.digest);
      var upload := Fetch(Absolute(location), PUT, [ContentLength(desc.size), ContentType(OctetStream)], body, server);
      if upload.Err? {
        return Err(upload.error);
      }
      return Ok(upload.value.Ok());
    }

    /** The POST of `mountBlob`: the upload path with `mount` and `from` query parameters. */
    function MountRequest(repository: string, desc: Descriptor, otherRepository: string): (request: Request)
      reads this
      ensures request.verb == POST
      ensures request.url.reference == UploadPath(repository)
      ensures ValuesOf(request.url.query, "mount") == [desc.digest]
      ensures ValuesOf(request.url.query, "from") == [otherRepository]
    {
      var endpoint := SetParam(SetParam(Resolve(UploadPath(repository)), "mount", desc.digest), "from", otherRepository);
      Prepare(Absolute(endpoint), POST, [ContentLength(0)], [])
    }

    /** `mountBlob`: asks the registry to mount a blob from another repository; answers whether it was ok. */
    method MountBlob(repository: string, desc: Descriptor, otherRepository: string, server: Server)
      returns (r: Result<bool, ClientError>)
      modifies server
      ensures r == (if old(server.replies) == [] then Err(ApiClientError) else Ok(old(server.replies)[0].Ok()))
      ensures server.exchanges == Record(old(server.exchanges), MountRequest(repository, desc, otherRepository), old(server.replies))
      ensures server.replies == Rest(old(server.replies))
    {
      var endpoint := Resolve(UploadPath(repository));
      endpoint := SetParam(endpoint, "mount", desc.digest);
      endpoint := SetParam(endpoint, "from", otherRepository);
      var res := Fetch(Absolute(endpoint), POST, [ContentLength(0)], [], server);
      if res.Err? {
        return Err(res.error);
      }
      return Ok(res.value.Ok());
    }

    // The chunked upload (`putBlobV2`) as a state machine over chunks and server answers.

    /** The POST that opens a chunked upload. */
    function ChunkedStartRequest(repository: string): Request
      reads this
    {
      Prepare(Path(UploadPath(repository)), POST, [ContentLength(0)], [])
    }

    /** The PATCH that sends the whole buffer to the current location. */
    function PatchRequest(st: Upload): Request
      reads this
    {
      Prepare(Absolute(st.location), PATCH, ChunkHeaders(st.offset, |st.buffer|), st.buffer)
    }

    /** The PUT that completes the upload with what is left in the buffer. */
    function CompleteRequest(st: Upload, digest: string): Request
      reads this
    {
      Prepare(Absolute(SetParam(st.location, "digest", digest)), PUT, ChunkHeaders(st.offset, |st.buffer|), st.buffer)
    }

    /**
     * The state after a PATCH of the whole buffer is answered: a 416 changes
     * nothing (the offset is not resynchronised), another non-ok answer throws,
     * and an ok answer advances the offset past the buffer, empties the buffer
     * and moves to the Location the server returned.
     */
    function AfterPatch(st: Upload, reply: Response): (r: Result<Upload, ClientError>)
      ensures reply.status == 416 ==> r == Ok(st)
      ensures reply.status != 416 && !reply.Ok() ==> r == Err(UploadFailed)
      ensures reply.Ok() && reply.location.None? ==> r == Err(MissingLocation)
      ensures reply.Ok() && reply.location.Some? ==>
        r == Ok(Upload(st.offset + |st.buffer|, [], Resolve(reply.location.value)))
    {
      if reply.status == 416 then Ok(st)
      else if !reply.Ok() then Err(UploadFailed)
      else if reply.location.None? then Err(MissingLocation)
      else Ok(Upload(st.offset + |st.buffer|, [], Resolve(reply.location.value)))
    }

    /**
     * The loop of `putBlobV2` over the remaining `chunks`: each chunk is merged
     * into the buffer; a buffer still under `MinChunkSize` waits for the next
     * chunk; otherwise it is PATCHed and the answer decides the next state.
     */
    function Drive(st: Upload, chunks: seq<seq<Byte>>, replies: seq<Response>): Run<Upload>
      reads this
      decreases |chunks|
    {
      if chunks == [] then Run([], replies, Ok(st))
      else
        var merged := st.(buffer := st.buffer + chunks[0]);
        if |merged.buffer| < MinChunkSize then Drive(merged, chunks[1..], replies)
        else if replies == [] then Run([], [], Err(ApiClientError))
        else
          var patch := Exchange(PatchRequest(merged), replies[0]);
          match AfterPatch(merged, replies[0])
          case Err(e) => Run([patch], replies[1..], Err(e))
          case Ok(next) => After([patch], Drive(next, chunks[1..], replies[1..]))
    }

    /** One chunk of the loop: what `Drive` does with `chunk` before going on to the next. */
    function Step(st: Upload, chunk: seq<Byte>, replies: seq<Response>): Run<Upload>
      reads this
    {
      var merged := st.(buffer := st.buffer + chunk);
      if |merged.buffer| < MinChunkSize then Run([], replies, Ok(merged))
      else if replies == [] then Run([], [], Err(ApiClientError))
      else Run([Exchange(PatchRequest(merged), replies[0])], replies[1..], AfterPatch(merged, replies[0]))
    }

    /** `Drive` is one `Step`, then the rest of the chunks unless the step threw. */
    lemma DriveUnfold(st: Upload, chunks: seq<seq<Byte>>, replies: seq<Response>)
      requires chunks != []
      ensures Drive(st, chunks, replies) ==
        var step := Step(st, chunks[0], replies);
        if step.outcome.Err? then step else After(step.sent, Drive(step.outcome.value, chunks[1..], step.replies))
    {
      var merged := st.(buffer := st.buffer + chunks[0]);
      if |merged.buffer| < MinChunkSize {
        var rest := Drive(merged, chunks[1..], replies);
        assert [] + rest.sent == rest.sent;
      }
    }

    /** Runs preceded by exchanges, twice, are preceded by both. */
    lemma AfterAfter<T>(a: seq<Exchange>, b: seq<Exchange>, run: Run<T>)
      ensures After(a, After(b, run)) == After(a + b, run)
    {
      assert a + (b + run.sent) == (a + b) + run.sent;
    }

    /** The whole of `putBlobV2`: open the session (exactly 202), drive the chunks, complete (exactly 201). */
    function ChunkedUpload(repository: string, desc: Descriptor, body: seq<seq<Byte>>, replies: seq<Response>): Run<()>
      reads this
    {
      if replies == [] then Run([], [], Err(ApiClientError))
      else
        var start := Exchange(ChunkedStartRequest(repository), replies[0]);
        if replies[0].status != 202 then Run([start], replies[1..], Err(StartFailed))
        else if replies[0].location.None? then Run([start], replies[1..], Err(MissingLocation))
        else
          var loop := Drive(Upload(0, [], Resolve(replies[0].location.value)), body, replies[1..]);
          if loop.outcome.Err? then Run([start] + loop.sent, loop.replies, Err(loop.outcome.error))
          else if loop.replies == [] then Run([start] + loop.sent, [], Err(ApiClientError))
          else
            var complete := Exchange(CompleteRequest(loop.outcome.value, desc.digest), loop.replies[0]);
            Run([start] + loop.sent + [complete], loop.replies[1..],
                if loop.replies[0].status == 201 then Ok(()) else Err(CompleteFailed))
    }

    /** Opening the session: the POST must answer exactly 202 with a Location. */
    function Open(repository: string, replies: seq<Response>): Run<Url>
      reads this
    {
      if replies == [] then Run([], [], Err(ApiClientError))
      else
        var start := Exchange(ChunkedStartRequest(repository), replies[0]);
        if replies[0].status != 202 then Run([start], replies[1..], Err(StartFailed))
        else if replies[0].location.None? then Run([start], replies[1..], Err(MissingLocation))
        else Run([start], replies[1..], Ok(Resolve(replies[0].location.value)))
    }

    /** Closing the session from state `st`: the PUT must answer exactly 201. */
    function Close(st: Upload, digest: string, replies: seq<Response>): Run<()>
      reads this
    {
      if replies == [] then Run([], [], Err(ApiClientError))
      else
        Run([Exchange(CompleteRequest(st, digest), replies[0])], replies[1..],
            if replies[0].status == 201 then Ok(()) else Err(CompleteFailed))
    }

    /** `ChunkedUpload` is `Open`, then `Drive` from the opened location, then `Close`, each stopping the run when it throws. */
    lemma ChunkedUploadSplit(repository: string, desc: Descriptor, body: seq<seq<Byte>>, replies: seq<Response>)
      ensures ChunkedUpload(repository, desc, body, replies) ==
        var open := Open(repository, replies);
        if open.outcome.Err? then Run(open.sent, open.replies, Err(open.outcome.error)) else
        var loop := Drive(Upload(0, [], open.outcome.value), body, open.replies);
        if loop.outcome.Err? then Run(open.sent + loop.sent, loop.replies, Err(loop.outcome.error)) else
        var close := Close(loop.outcome.value, desc.digest, loop.replies);
        Run(open.sent + loop.sent + close.sent, close.replies, close.outcome)
    {
      var open := Open(repository, replies);
      if open.outcome.Ok? {
        var loop := Drive(Upload(0, [], open.outcome.value), body, open.replies);
        if loop.outcome.Ok? && loop.replies == [] {
          assert open.sent + loop.sent + [] == open.sent + loop.sent;
        }
      }
    }

    /** Where the upload session is after `sent`: each ok answer with a Location moves it there. */
    function LatestLocation(location: Url, sent: seq<Exchange>): Url
      decreases |sent|
    {
      if sent == [] then location
      else
        var reply := sent[0].response;
        LatestLocation(if reply.Ok() && reply.location.Some? then Resolve(reply.location.value) else location, sent[1..])
    }

    /**
     * The PATCH exchanges of a chunked upload that starts at `offset` and
     * `location`, holding back `pending`: every PATCH carries at least
     * `MinChunkSize` bytes, starting with the bytes held back, to the current
     * location with the Content-Range of the current offset; a 416 keeps the
     * offset and location and holds the whole body back; an ok answer with a
     * Location moves past the body and to that Location; any other answer is
     * the last exchange.
     */
    predicate Protocol(offset: nat, location: Url, pending: seq<Byte>, sent: seq<Exchange>)
      reads this
      decreases |sent|
    {
      sent == [] ||
      var body := sent[0].request.body;
      var reply := sent[0].response;
      && |body| >= MinChunkSize
      && pending <= body
      && sent[0].request == PatchRequest(Upload(offset, body, location))
      && (reply.status == 416 ==> Protocol(offset, location, body, sent[1..]))
      && (reply.Ok() && reply.location.Some? ==>
            Protocol(offset + |body|, Resolve(reply.location.value), [], sent[1..]))
      && (reply.status != 416 && !(reply.Ok() && reply.location.Some?) ==> sent[1..] == [])
    }

    /** Holding back fewer bytes is a weaker demand. */
    lemma ProtocolWeaken(offset: nat, location: Url, pending: seq<Byte>, more: seq<Byte>, sent: seq<Exchange>)
      requires pending <= more
      requires Protocol(offset, location, more, sent)
      ensures Protocol(offset, location, pending, sent)
    {
    }

    /** Every exchange of the protocol is a PATCH. */
    lemma {:induction false} ProtocolPatches(offset: nat, location: Url, pending: seq<Byte>, sent: seq<Exchange>)
      requires Protocol(offset, location, pending, sent)
      ensures forall k :: 0 <= k < |sent| ==> sent[k].request.verb == PATCH
      decreases |sent|
    {
      if sent != [] {
        var body := sent[0].request.body;
        var reply := sent[0].response;
        if reply.status == 416 {
          ProtocolPatches(offset, location, body, sent[1..]);
        } else if reply.Ok() && reply.location.Some? {
          ProtocolPatches(offset + |body|, Resolve(reply.location.value), [], sent[1..]);
        }
        forall k | 0 <= k < |sent|
          ensures sent[k].request.verb == PATCH
        {
          if k > 0 {
            assert sent[k] == sent[1..][k - 1];
          }
        }
      }
    }

    /** The chunk loop only ever sends PATCHes that follow the protocol. */
    lemma {:induction false} DriveFollowsProtocol(st: Upload, chunks: seq<seq<Byte>>, replies: seq<Response>)
      ensures Protocol(st.offset, st.location, st.buffer, Drive(st, chunks, replies).sent)
      decreases |chunks|
    {
      if chunks != [] {
        var merged := st.(buffer := st.buffer + chunks[0]);
        if |merged.buffer| < MinChunkSize {
          DriveFollowsProtocol(merged, chunks[1..], replies);
          ProtocolWeaken(st.offset, st.location, st.buffer, merged.buffer, Drive(merged, chunks[1..], replies).sent);
        } else if replies != [] {
          var patch := Exchange(PatchRequest(merged), replies[0]);
          match AfterPatch(merged, replies[0])
          case Err(e) =>
            assert Drive(st, chunks, replies).sent == [patch];
          case Ok(next) =>
            var rest := Drive(next, chunks[1..], replies[1..]);
            DriveFollowsProtocol(next, chunks[1..], replies[1..]);
            var sent := [patch] + rest.sent;
            assert Drive(st, chunks, replies).sent == sent;
            assert sent[1..] == rest.sent;
        }
      }
    }

    /** The byte accounting holds whenever the chunk loop has consumed `chunks` without failing. */
    lemma {:induction false} DriveAccounting(st: Upload, chunks: seq<seq<Byte>>, replies: seq<Response>)
      ensures var run := Drive(st, chunks, replies);
        run.outcome.Ok? ==> Accounted(st, chunks, run.sent, run.outcome.value)
      decreases |chunks|
    {
      if chunks != [] {
        var merged := st.(buffer := st.buffer + chunks[0]);
        ConcatCons(chunks[0], chunks[1..]);
        assert [chunks[0]] + chunks[1..] == chunks;
        if |merged.buffer| < MinChunkSize {
          DriveAccounting(merged, chunks[1..], replies);
        } else if replies != [] && AfterPatch(merged, replies[0]).Ok? {
          var next := AfterPatch(merged, replies[0]).value;
          DriveAccounting(next, chunks[1..], replies[1..]);
          PatchAccounting(st, chunks, merged, Exchange(PatchRequest(merged), replies[0]), next, Drive(next, chunks[1..], replies[1..]));
        }
      }
    }

    /**
     * A buffer that reaches `MinChunkSize` is PATCHed: when the chunk loop ends
     * without throwing, what it holds back is under `MinChunkSize`, unless it
     * is exactly the body of its last PATCH, answered 416, or the loop sent
     * nothing and holds what it started with.
     */
    lemma {:induction false} DriveFlushes(st: Upload, chunks: seq<seq<Byte>>, replies: seq<Response>)
      ensures var run := Drive(st, chunks, replies);
        run.outcome.Ok? ==>
          || |run.outcome.value.buffer| < MinChunkSize
          || (run.sent == [] && run.outcome.value == st)
          || (&& run.sent != []
              && run.sent[|run.sent| - 1].response.status == 416
              && run.sent[|run.sent| - 1].request.body == run.outcome.value.buffer)
      decreases |chunks|
    {
      if chunks != [] {
        var merged := st.(buffer := st.buffer + chunks[0]);
        if |merged.buffer| < MinChunkSize {
          DriveFlushes(merged, chunks[1..], replies);
        } else if replies != [] && AfterPatch(merged, replies[0]).Ok? {
          var next := AfterPatch(merged, replies[0]).value;
          var patch := Exchange(PatchRequest(merged), replies[0]);
          var rest := Drive(next, chunks[1..], replies[1..]);
          DriveFlushes(next, chunks[1..], replies[1..]);
          var sent := [patch] + rest.sent;
          assert Drive(st, chunks, replies).sent == sent;
          if rest.sent != [] {
            assert sent[|sent| - 1] == rest.sent[|rest.sent| - 1];
          }
        }
      }
    }

    /** A loop that starts under `MinChunkSize` ends under it, or holding the body of a PATCH answered 416. */
    lemma DriveEndsUnderChunk(st: Upload, chunks: seq<seq<Byte>>, replies: seq<Response>)
      requires |st.buffer| < MinChunkSize
      ensures var run := Drive(st, chunks, replies);
        run.outcome.Ok? ==>
          || |run.outcome.value.buffer| < MinChunkSize
          || (&& run.sent != []
              && run.sent[|run.sent| - 1].response.status == 416
              && run.sent[|run.sent| - 1].request.body == run.outcome.value.buffer)
    {
      DriveFlushes(st, chunks, replies);
    }

    /**
     * The accounting of a loop run from `st` over `chunks` that ended in `last`
     * after `sent`: acknowledged bytes then the buffer are the held-back bytes
     * then the chunks; the offset moved past exactly the acknowledged bytes, so
     * offset plus buffer length counts every byte consumed; the location is
     * the latest one an ok answer gave.
     */
    predicate Accounted(st: Upload, chunks: seq<seq<Byte>>, sent: seq<Exchange>, last: Upload)
    {
      && Accepted(sent) + last.buffer == st.buffer + Concat(chunks)
      && last.offset == st.offset + |Accepted(sent)|
      && last.offset + |last.buffer| == st.offset + |st.buffer| + |Concat(chunks)|
      && last.location == LatestLocation(st.location, sent)
    }

    /** One PATCH step of `DriveAccounting`: the step's exchange in front of an accounted rest. */
    lemma PatchAccounting(st: Upload, chunks: seq<seq<Byte>>, merged: Upload, patch: Exchange, next: Upload, rest: Run<Upload>)
      requires chunks != [] && merged == st.(buffer := st.buffer + chunks[0])
      requires Concat(chunks) == chunks[0] + Concat(chunks[1..])
      requires patch.request.body == merged.buffer
      requires AfterPatch(merged, patch.response) == Ok(next)
      requires rest.outcome.Ok? ==> Accounted(next, chunks[1..], rest.sent, rest.outcome.value)
      ensures rest.outcome.Ok? ==> Accounted(st, chunks, [patch] + rest.sent, rest.outcome.value)
    {
      if rest.outcome.Ok? {
        var last := rest.outcome.value;
        AcceptedCons(patch, rest.sent);
        LatestLocationCons(st.location, patch, rest.sent);
        if patch.response.Ok() {
          OkStepBytes(st.buffer, chunks[0], Accepted(rest.sent), last.buffer, Concat(chunks[1..]));
        } else {
          RejectedStepBytes(st.buffer, chunks[0], Accepted(rest.sent), last.buffer, Concat(chunks[1..]));
        }
      }
    }

    /** The bytes of an acknowledged PATCH: they come first, and the rest follows. */
    lemma OkStepBytes(held: seq<Byte>, chunk: seq<Byte>, later: seq<Byte>, last: seq<Byte>, rest: seq<Byte>)
      requires later + last == [] + rest
      ensures ((held + chunk) + later) + last == held + (chunk + rest)
    {
      assert [] + rest == rest;
    }

    /** The bytes of a PATCH answered 416: nothing is acknowledged, and they are sent again later. */
    lemma RejectedStepBytes(held: seq<Byte>, chunk: seq<Byte>, later: seq<Byte>, last: seq<Byte>, rest: seq<Byte>)
      requires later + last == (held + chunk) + rest
      ensures ([] + later) + last == held + (chunk + rest)
    {
      assert [] + later == later;
    }

    lemma AcceptedCons(x: Exchange, sent: seq<Exchange>)
      ensures Accepted([x] + sent) == (if x.response.Ok() then x.request.body else []) + Accepted(sent)
    {
      assert ([x] + sent)[0] == x && ([x] + sent)[1..] == sent;
    }

    lemma LatestLocationCons(location: Url, x: Exchange, sent: seq<Exchange>)
      ensures LatestLocation(location, [x] + sent) ==
        LatestLocation(if x.response.Ok() && x.response.location.Some? then Resolve(x.response.location.value) else location, sent)
    {
      assert ([x] + sent)[0] == x && ([x] + sent)[1..] == sent;
    }

    /**
     * What a successful chunked upload did: a POST answered 202 with a
     * Location, PATCHes following the protocol from offset 0, then one PUT
     * answered 201 that carries the rest of the bytes, so that the acknowledged
     * PATCH bodies followed by the PUT's body are the whole stream. The PUT goes
     * to the latest location with the `digest` parameter, and its Content-Range
     * starts at the number of bytes acknowledged. The PUT carries less than
     * `MinChunkSize`, unless the last PATCH, of those same bytes, was answered 416.
     */
    lemma ChunkedUploadCompletes(repository: string, desc: Descriptor, body: seq<seq<Byte>>, replies: seq<Response>)
      requires ChunkedUpload(repository, desc, body, replies).outcome.Ok?
      ensures var run := ChunkedUpload(repository, desc, body, replies);
        && |run.sent| >= 2 && replies != []
        && replies[0].status == 202 && replies[0].location.Some?
        && run.sent[0] == Exchange(ChunkedStartRequest(repository), replies[0])
        && var patches := run.sent[1..|run.sent| - 1];
           var complete := run.sent[|run.sent| - 1];
           var location := LatestLocation(Resolve(replies[0].location.value), patches);
        && Protocol(0, Resolve(replies[0].location.value), [], patches)
        && Accepted(patches) + complete.request.body == Concat(body)
        && complete.response.status == 201
        && complete.request == Prepare(Absolute(SetParam(location, "digest", desc.digest)), PUT,
             ChunkHeaders(|Accepted(patches)|, |complete.request.body|), complete.request.body)
        && (|| |complete.request.body| < MinChunkSize
            || (&& patches != []
                && patches[|patches| - 1].response.status == 416
                && patches[|patches| - 1].request.body == complete.request.body))
    {
      var st0 := Upload(0, [], Resolve(replies[0].location.value));
      var loop := Drive(st0, body, replies[1..]);
      DriveFollowsProtocol(st0, body, replies[1..]);
      DriveAccounting(st0, body, replies[1..]);
      DriveEndsUnderChunk(st0, body, replies[1..]);
      var run := ChunkedUpload(repository, desc, body, replies);
      assert run.sent[1..|run.sent| - 1] == loop.sent;
    }

    /**
     * A chunked upload succeeds exactly when its last exchange is a PUT
     * answered 201; an answer other than 202 to the opening POST throws
     * "failed to start upload" after that one exchange, before any PATCH.
     */
    lemma ChunkedUploadOutcome(repository: string, desc: Descriptor, body: seq<seq<Byte>>, replies: seq<Response>)
      ensures var run := ChunkedUpload(repository, desc, body, replies);
        run.outcome.Ok? <==>
        (|run.sent| >= 2 && run.sent[|run.sent| - 1].request.verb == PUT && run.sent[|run.sent| - 1].response.status == 201)
      ensures replies != [] && replies[0].status != 202 ==>
        var run := ChunkedUpload(repository, desc, body, replies);
        run.sent == [Exchange(ChunkedStartRequest(repository), replies[0])] && run.outcome == Err(StartFailed)
    {
      if replies != [] && replies[0].status == 202 && replies[0].location.Some? {
        var st0 := Upload(0, [], Resolve(replies[0].location.value));
        var loop := Drive(st0, body, replies[1..]);
        DriveFollowsProtocol(st0, body, replies[1..]);
        ProtocolPatches(st0.offset, st0.location, st0.buffer, loop.sent);
        var run := ChunkedUpload(repository, desc, body, replies);
        if loop.outcome.Err? || loop.replies == [] {
          assert run.sent == [Exchange(ChunkedStartRequest(repository), replies[0])] + loop.sent;
          if loop.sent != [] {
            assert run.sent[|run.sent| - 1] == loop.sent[|loop.sent| - 1];
          }
        }
      }
    }

    /**
     * `putBlobV2`: the chunked upload of a stream of byte chunks. The exchanges
     * it has with the server and its outcome are those of `ChunkedUpload`.
     */
    method PutBlobV2(repository: string, desc: Descriptor, body: seq<seq<Byte>>, server: Server)
      returns (r: Result<(), ClientError>)
      modifies server
      ensures var run := ChunkedUpload(repository, desc, body, old(server.replies));
        && server.exchanges == old(server.exchanges) + run.sent
        && server.replies == run.replies
        && r == run.outcome
    {
      ghost var replies0 := server.replies;
      ghost var exchanges0 := server.exchanges;
      ChunkedUploadSplit(repository, desc, body, replies0);
      ghost var run := ChunkedUpload(repository, desc, body, replies0);
      ghost var open := Open(repository, replies0);
      var session := OpenSession(repository, server);
      if session.Err? {
        return Err(session.error);
      }
      ghost var loopRun := Drive(Upload(0, [], session.value), body, open.replies);
      var loop, offset, buffer := SendChunks(session.value, body, server);
      Regroup(exchanges0, open.sent, loopRun.sent);
      if loop.Err? {
        return Err(loop.error);
      }
      ghost var close := Close(loopRun.outcome.value, desc.digest, loopRun.replies);
      r := CloseSession(loop.value, offset, buffer, desc.digest, server);
      Regroup(exchanges0, open.sent + loopRun.sent, close.sent);
    }

    /** The POST that opens the upload session: exactly 202 with a Location, which is resolved. */
    method OpenSession(repository: string, server: Server) returns (r: Result<Url, ClientError>)
      modifies server
      ensures var open := Open(repository, old(server.replies));
        && server.exchanges == old(server.exchanges) + open.sent
        && server.replies == open.replies
        && r == open.outcome
    {
      var start := Fetch(Path(UploadPath(repository)), POST, [ContentLength(0)], [], server);
      if start.Err? {
        assert old(server.exchanges) + [] == old(server.exchanges);
        return Err(start.error);
      }
      if start.value.status != 202 {
        return Err(StartFailed);
      }
      if start.value.location.None? {
        return Err(MissingLocation);
      }
      return Ok(Resolve(start.value.location.value));
    }

    /** The PUT with the digest that closes the session with the bytes still buffered: exactly 201. */
    method CloseSession(location: Url, offset: nat, buffer: array<Byte>, digest: string, server: Server)
      returns (r: Result<(), ClientError>)
      modifies server
      ensures var close := Close(Upload(offset, buffer[..], location), digest, old(server.replies));
        && server.exchanges == old(server.exchanges) + close.sent
        && server.replies == close.replies
        && r == close.outcome
    {
      var completeUrl := SetParam(location, "digest", digest);
      var complete := Fetch(Absolute(completeUrl), PUT, ChunkHeaders(offset, buffer.Length), buffer[..], server);
      if complete.Err? {
        assert old(server.exchanges) + [] == old(server.exchanges);
        return Err(complete.error);
      }
      if complete.value.status != 201 {
        return Err(CompleteFailed);
      }
      return Ok(());
    }

    /**
     * The `for await` loop of `putBlobV2`, from the session's first location:
     * its exchanges and outcome are those of `Drive`; when it finishes, it
     * hands back the offset, the bytes still buffered and the current location.
     */
    method SendChunks(location0: Url, body: seq<seq<Byte>>, server: Server)
      returns (r: Result<Url, ClientError>, offset: nat, buffer: array<Byte>)
      modifies server
      ensures var run := Drive(Upload(0, [], location0), body, old(server.replies));
        && server.exchanges == old(server.exchanges) + run.sent
        && server.replies == run.replies
        && (r.Ok? <==> run.outcome.Ok?)
        && (r.Ok? ==> run.outcome.value == Upload(offset, buffer[..], r.value))
        && (r.Err? ==> run.outcome.error == r.error)
    {
      var location := location0;
      offset := 0;
      buffer := new Byte[0];
      ghost var st0 := Upload(0, [], location);
      ghost var replies1 := server.replies;
      ghost var exchanges1 := server.exchanges;
      ghost var sent: seq<Exchange> := [];
      var i := 0;
      while i < |body|
        invariant 0 <= i <= |body|
        invariant server.exchanges == exchanges1 + sent
        invariant Drive(st0, body, replies1) ==
          After(sent, Drive(Upload(offset, buffer[..], location), body[i..], server.replies))
      {
        ghost var before := Upload(offset, buffer[..], location);
        ghost var replies := server.replies;
        assert body[i..][0] == body[i] && body[i..][1..] == body[i + 1..];
        DriveUnfold(before, body[i..], replies);
        ghost var step := Step(before, body[i], replies);
        var done;
        done, location, offset, buffer := SendChunk(location, offset, buffer, body[i], server);
        AfterAfter(sent, step.sent, Drive(Upload(offset, buffer[..], location), body[i + 1..], server.replies));
        Regroup(exchanges1, sent, step.sent);
        sent := sent + step.sent;
        if done.Err? {
          return Err(done.error), offset, buffer;
        }
        i := i + 1;
      }
      assert body[i..] == [];
      r := Ok(location);
    }

    /**
     * One pass of the `for await` loop: merge the chunk into the buffer; when
     * the buffer has reached `MinChunkSize`, PATCH it and act on the answer as
     * `Step` says.
     */
    method SendChunk(location: Url, offset: nat, buffer: array<Byte>, chunk: seq<Byte>, server: Server)
      returns (r: Result<(), ClientError>, location': Url, offset': nat, buffer': array<Byte>)
      modifies server
      ensures var step := Step(Upload(offset, old(buffer[..]), location), chunk, old(server.replies));
        && server.exchanges == old(server.exchanges) + step.sent
        && server.replies == step.replies
        && (r.Ok? <==> step.outcome.Ok?)
        && (r.Ok? ==> step.outcome.value == Upload(offset', buffer'[..], location'))
        && (r.Err? ==> step.outcome.error == r.error)
    {
      location', offset' := location, offset;
      buffer' := MergeBytes([buffer[..], chunk]);
      ConcatPair(buffer[..], chunk);
      r := Ok(());
      if buffer'.Length < MinChunkSize {
        assert old(server.exchanges) + [] == old(server.exchanges);
        return;
      }
      var upload := Fetch(Absolute(location), PATCH, ChunkHeaders(offset, buffer'.Length), buffer'[..], server);
      if upload.Err? {
        r := Err(upload.error);
        return;
      }
      if upload.value.status == 416 {
        return;
      }
      if !upload.value.Ok() {
        r := Err(UploadFailed);
        return;
      }
      if upload.value.location.None? {
        r := Err(MissingLocation);
        return;
      }
      location' := Resolve(upload.value.location.value);
      offset' := offset + buffer'.Length;
      buffer' := new Byte[0];
    }
  }

  /** Appending two runs of exchanges one after the other. */
  lemma Regroup(before: seq<Exchange>, first: seq<Exchange>, second: seq<Exchange>)
    ensures (before + first) + second == before + (first + second)
  {
  }

  /** Concatenating a first chunk in front of the rest. */
  lemma {:induction false} ConcatCons(c: seq<Byte>, rest: seq<seq<Byte>>)
    ensures Concat([c] + rest) == c + Concat(rest)
    decreases |rest|
  {
    if rest == [] {
      assert [c] + rest == [] + [c];
      ConcatSnoc([], c);
    } else {
      var init := rest[..|rest| - 1];
      var last := rest[|rest| - 1];
      assert [c] + rest == ([c] + init) + [last];
      assert rest == init + [last];
      ConcatSnoc([c] + init, last);
      ConcatSnoc(init, last);
      ConcatCons(c, init);
    }
  }

  lemma ConcatPair(a: seq<Byte>, b: seq<Byte>)
    ensures Concat([a, b]) == a + b
  {
    ConcatSnoc([], a);
    assert [] + [a] == [a];
    ConcatSnoc([a], b);
    assert [a] + [b] == [a, b];
  }

  /**
   * `mergeBytes`: allocates an array as long as all inputs together and copies
   * each input into it at a running offset.
   */
  method MergeBytes(arrays: seq<seq<Byte>>) returns (output: array<Byte>)
    ensures fresh(output)
    ensures output[..] == Concat(arrays)
  {
    ConcatLength(arrays);
    output := new Byte[TotalLength(arrays)];
    var offset := 0;
    var k := 0;
    while k < |arrays|
      invariant 0 <= k <= |arrays|
      invariant offset == |Concat(arrays[..k])|
      invariant offset <= output.Length
      invariant output[..offset] == Concat(arrays[..k])
    {
      var arr := arrays[k];
      ConcatPrefixSnoc(arrays, k);
      ConcatPrefixLength(arrays, k + 1);
      forall j | 0 <= j < |arr| {
        output[offset + j] := arr[j];
      }
      assert output[..offset + |arr|] == output[..offset] + arr;
      offset := offset + |arr|;
      k := k + 1;
    }
    assert arrays[..k] == arrays;
  }

  /** A prefix of the chunks concatenates to no more than all of them. */
  lemma {:induction false} ConcatPrefixLength(chunks: seq<seq<Byte>>, k: nat)
    requires k <= |chunks|
    ensures |Concat(chunks[..k])| <= |Concat(chunks)|
    decreases |chunks| - k
  {
    if k < |chunks| {
      ConcatPrefixSnoc(chunks, k);
      ConcatPrefixLength(chunks, k + 1);
    } else {
      assert chunks[..k] == chunks;
    }
  }
}
