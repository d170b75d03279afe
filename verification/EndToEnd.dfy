/** Client and server together: discovery, and single and batch evaluations through the retrying client, the
    middleware and the handlers. */
module EndToEnd {
  import opened Wrappers
  import opened Wire
  import Batch
  import Cedar
  import ErrorTree
  import Equivalence
  import Evaluation
  import Metadata
  import MetadataClient
  import Middleware
  import Retry
  import Server
  import T = TodoScenario
  import Text
  import TodoPdp
  import Urls

  // ----- Discovery -----

  /** A validating client accepts the document a server built exactly when both mean the same PDP modulo trailing
      slashes; and then every advertised endpoint is the URL that the client itself would call. */
  lemma DiscoveryAgrees(c: MetadataClient.Config, m: Metadata.Document, pdpUrl: string, d: Server.Decider,
                        cacheControl: string, e: Metadata.Endpoint)
    requires c.base.Valid() && !c.relaxed && Server.Describes(m, pdpUrl, d)
    ensures MetadataClient.Judge(c, MetadataClient.Answered(200, cacheControl, Some(m))).Ok? <==>
            Urls.SamePdp(c.base.ToString(), pdpUrl)
    ensures Server.Probed(d, e) ==>
              (Metadata.Advertised(m, e) == Urls.EndpointUrl(c.base, Metadata.PathOf(e)) <==>
               Urls.SamePdp(c.base.ToString(), pdpUrl))
  {
    Urls.EndpointAgreement(c.base, pdpUrl, Metadata.PathOf(e));
    assert Metadata.Advertised(m, e) == Server.FieldFor(pdpUrl, d, e);
  }

  /** A client's call is routed to the endpoint it means if and only if the base URL has no path but slashes. On a
      subpath the mux does not know it, and it redirects when the path is not clean. */
  lemma CallIsRouted(base: Urls.Url, e: Metadata.Endpoint)
    requires base.Valid()
    ensures Urls.EndpointUrl(base, Metadata.PathOf(e)) == base.Origin() + CallPath(base, e)
    ensures Server.Route("POST", CallPath(base, e)) ==
            if Rooted(base) then Server.ToEndpoint(e)
            else if Server.Clean(CallPath(base, e)) then Server.NoRoute(ErrorTree.NOT_FOUND)
            else Server.Redirected
  {
    var prefix := Text.TrimRight(base.path, '/');
    if prefix == "" {
      assert CallPath(base, e) == Metadata.PathOf(e);
    } else {
      forall f
        ensures CallPath(base, e) != Metadata.PathOf(f)
      {
        NoPathInside(prefix, e, f);
      }
    }
  }

  function CallPath(base: Urls.Url, e: Metadata.Endpoint): string {
    Text.TrimRight(base.path, '/') + Metadata.PathOf(e)
  }

  predicate Rooted(base: Urls.Url) {
    Text.TrimRight(base.path, '/') == ""
  }

  /** No endpoint path ends in another one: it would begin at most five characters further on, where there is no
      slash. */
  lemma NoPathInside(prefix: string, e: Metadata.Endpoint, f: Metadata.Endpoint)
    requires prefix != ""
    ensures prefix + Metadata.PathOf(e) != Metadata.PathOf(f)
  {
    var n, path := |prefix|, prefix + Metadata.PathOf(e);
    assert path[n] == Metadata.PathOf(e)[..6][0] == '/';
    if n <= 5 {
      assert Metadata.PathOf(f)[n] == Metadata.PathOf(f)[..6][n] != '/';
    }
  }

  // ----- Bodies -----

  /** A text as a JSON decoder finds it; the value of JSON null is None. */
  datatype Decoding<A> = NotJson | Json(value: Option<A>)

  /** How client and server write and read the bodies of one endpoint. Not every request has an encoding. */
  datatype Codec<!Q, !A> = Codec(
    encodeRequest: Q -> Option<string>, decodeRequest: string -> Server.Incoming<Q>,
    encodeReply: Option<A> -> string, decodeReply: string -> Decoding<A>)

  /** The text is what the client writes for req, and the server reads req from it. */
  predicate CarriesRequest<Q(==), A>(codec: Codec<Q, A>, req: Q, text: string) {
    codec.encodeRequest(req) == Some(text) && codec.decodeRequest(text) == Server.Decoded(req)
  }

  /** The client reads what the server writes for the answer. */
  predicate CarriesAnswer<Q, A(==)>(codec: Codec<Q, A>, answer: Server.Answer<A>) {
    answer.Ok? ==> codec.decodeReply(codec.encodeReply(answer.value)) == Json(answer.value)
  }

  // ----- One client call -----

  datatype ClientError =
    | Refused(error: ValidationError)        // not sent: invalid
    | Unencodable                            // not sent: no JSON for it
    | Transport(msg: string)                 // the doer failed
    | Unreadable                             // the response body could not be read
    | Status(code: int)                      // StatusError
    | Undecodable(code: int)                 // a 2xx body that does not decode

  /** What a call returns to its caller, and what it does on the transport. */
  datatype Exchange<A> = Exchange(result: Result<A, ClientError>, trace: seq<Retry.Event>)

  /** postJSON on what the doer returned. */
  function Classify<A>(r: Retry.DoResult, decode: string -> Decoding<A>, zero: A): (out: Result<A, ClientError>)
    requires r != Retry.NIL_NIL
    ensures out.Ok? <==>
            r.err.None? && 200 <= r.resp.value.status < 300 && r.resp.value.body.Some? &&
            decode(r.resp.value.body.value).Json?
  {
    if r.err.Some? then Err(Transport(r.err.value))
    else
      var resp := r.resp.value;
      if resp.body.None? then Err(Unreadable)
      else if resp.status < 200 || resp.status >= 300 then Err(Status(resp.status))
      else
        match decode(resp.body.value)
        case NotJson => Err(Undecodable(resp.status))
        case Json(value) => Ok(value.GetOr(zero))
  }

  /** Each way for a call to fail has its one cause, and carries what it was. */
  lemma ClassifyExact<A>(r: Retry.DoResult, decode: string -> Decoding<A>, zero: A)
    requires r != Retry.NIL_NIL
    ensures var out := Classify(r, decode, zero);
            if r.err.Some? then out == Err(Transport(r.err.value))
            else
              var resp := r.resp.value;
              && (resp.body.None? <==> out == Err(Unreadable))
              && (resp.body.Some? && !(200 <= resp.status < 300) <==> out == Err(Status(resp.status)))
              && (resp.body.Some? && 200 <= resp.status < 300 && decode(resp.body.value).NotJson? <==>
                  out == Err(Undecodable(resp.status)))
              && (out.Ok? ==> Json(Some(out.value)) == decode(resp.body.value) ||
                              (decode(resp.body.value) == Json(None) && out.value == zero))
  {
  }

  /** Reading a returned response, as far as its body goes, and closing it. */
  function Release(r: Retry.DoResult): seq<Retry.Event> {
    if r.err.Some? || r.resp.None? then []
    else [Retry.Drained(r.resp.value.attempt)] + [Retry.Closed(r.resp.value.attempt)]
  }

  function Post<Q, A>(c: Retry.UsableConfig, w: Retry.World, codec: Codec<Q, A>, req: Q, zero: A): Exchange<A> {
    match codec.encodeRequest(req)
    case None => Exchange(Err(Unencodable), [])
    case Some(body) =>
      Retry.AttemptsBounded(c, w, body);
      var f := Retry.Loop(c, w, 1, Retry.NIL_NIL, body, []);
      Exchange(Classify(f.result, codec.decodeReply, zero), f.trace + Release(f.result))
  }

  /** A call whose validation found this problem. */
  function Call<Q, A>(c: Retry.UsableConfig, w: Retry.World, codec: Codec<Q, A>, problem: Option<ValidationError>,
                      req: Option<Q>, zero: A): Exchange<A>
    requires problem.None? ==> req.Some?
  {
    if problem.Some? then Exchange(Err(Refused(problem.value)), []) else Post(c, w, codec, req.value, zero)
  }

  /** postJSON over a retrying doer. */
  method PostJson<Q, A>(doer: Retry.RetryDoer, codec: Codec<Q, A>, req: Q, zero: A)
    returns (out: Result<A, ClientError>)
    modifies doer.inner`trace
    ensures var x := Post(doer.cfg, doer.inner.world, codec, req, zero);
            out == x.result && doer.inner.trace == old(doer.inner.trace) + x.trace
  {
    var encoded := codec.encodeRequest(req);
    if encoded.None? {
      return Err(Unencodable);
    }
    var request := new Retry.Request(encoded.value);
    ghost var before := doer.inner.trace;
    var r := doer.Do(request);
    ghost var sent := Retry.Loop(doer.cfg, doer.inner.world, 1, Retry.NIL_NIL, encoded.value, []).trace;
    Retry.AttemptsBounded(doer.cfg, doer.inner.world, encoded.value);
    out := ReadReply(doer.inner, codec.decodeReply, r, zero);
    assert before + (sent + Release(r)) == before + sent + Release(r);
  }

  /** The rest of postJSON, once the doer has returned. */
  method ReadReply<A>(inner: Retry.Transport, decode: string -> Decoding<A>, r: Retry.DoResult, zero: A)
    returns (out: Result<A, ClientError>)
    requires r != Retry.NIL_NIL
    modifies inner`trace
    ensures out == Classify(r, decode, zero) && inner.trace == old(inner.trace) + Release(r)
  {
    if r.err.Some? {
      return Err(Transport(r.err.value));
    }
    var resp := r.resp.value;
    inner.Drain(resp.attempt);
    inner.Close(resp.attempt);
    if resp.body.None? {
      return Err(Unreadable);
    }
    if resp.status < 200 || resp.status >= 300 {
      return Err(Status(resp.status));
    }
    match decode(resp.body.value) {
      case NotJson => return Err(Undecodable(resp.status));
      case Json(value) => return Ok(value.GetOr(zero));
    }
  }

  const DENY := EvaluationResponse(false)

  /** Client.Evaluate over a retrying doer. */
  method Evaluate(doer: Retry.RetryDoer, codec: Codec<EvaluationRequest, EvaluationResponse>,
                  req: Option<EvaluationRequest>)
    returns (out: Result<EvaluationResponse, ClientError>)
    modifies doer.inner`trace
    ensures var x := Call(doer.cfg, doer.inner.world, codec, Evaluation.Validate(req), req, DENY);
            out == x.result && doer.inner.trace == old(doer.inner.trace) + x.trace
    ensures Evaluation.Validate(req).Some? ==>
              out == Err(Refused(Evaluation.Validate(req).value)) && doer.inner.trace == old(doer.inner.trace)
    ensures req.Some? && Evaluation.Validate(req).None? && codec.encodeRequest(req.value).None? ==>
              out == Err(Unencodable) && doer.inner.trace == old(doer.inner.trace)
  {
    var problem := Evaluation.Validate(req);
    if problem.Some? {
      return Err(Refused(problem.value));
    }
    out := PostJson(doer, codec, req.value, DENY);
  }

  /** Client.Evaluations over a retrying doer. */
  method Evaluations(doer: Retry.RetryDoer, codec: Codec<EvaluationsRequest, seq<EvaluationResponse>>,
                     req: Option<EvaluationsRequest>)
    returns (out: Result<seq<EvaluationResponse>, ClientError>)
    modifies doer.inner`trace
    ensures forall problem | Evaluation.BatchVerdict(req, problem) ::
              var x := Call(doer.cfg, doer.inner.world, codec, problem, req, []);
              out == x.result && doer.inner.trace == old(doer.inner.trace) + x.trace
    ensures forall problem | Evaluation.BatchVerdict(req, problem) && problem.Some? ::
              out == Err(Refused(problem.value)) && doer.inner.trace == old(doer.inner.trace)
    ensures req.Some? && Evaluation.BatchVerdict(req, None) && codec.encodeRequest(req.value).None? ==>
              out == Err(Unencodable) && doer.inner.trace == old(doer.inner.trace)
  {
    var found := Evaluation.ValidateBatch(req);
    forall problem | Evaluation.BatchVerdict(req, problem)
      ensures problem == found
    {
      Evaluation.BatchVerdictUnique(req, problem, found);
    }
    if found.Some? {
      return Err(Refused(found.value));
    }
    out := PostJson(doer, codec, req.value, []);
  }

  // ----- The handlers on a writer -----

  const JSON_TYPE := "application/json"
  const TEXT_TYPE := "text/plain; charset=utf-8"

  /** writeJSON. */
  method WriteJson(w: Middleware.ResponseWriter, status: int, text: string)
    modifies w
    ensures w.Value() == Middleware.PerformAll(old(w.Value()), WriteReply(status, JSON_TYPE, text))
  {
    PerformThree(w.Value(), status, JSON_TYPE, text);
    w.Do(Middleware.SetHeader("Content-Type", JSON_TYPE));
    w.Do(Middleware.WriteHeader(status));
    w.Do(Middleware.Write(text));
  }

  /** writeError. */
  method WriteError(w: Middleware.ResponseWriter, e: ErrorTree.Err, text: string)
    modifies w
    ensures w.Value() == Middleware.PerformAll(old(w.Value()), WriteReply(ErrorTree.Status(e), TEXT_TYPE, text))
  {
    var status := ErrorTree.INTERNAL_ERROR;
    if ErrorTree.AsValidation(e) {
      status := ErrorTree.BAD_REQUEST;
    } else if ErrorTree.IsNotImplemented(e) {
      status := ErrorTree.NOT_IMPLEMENTED;
    }
    PerformThree(w.Value(), status, TEXT_TYPE, text);
    w.Do(Middleware.SetHeader("Content-Type", TEXT_TYPE));
    w.Do(Middleware.WriteHeader(status));
    w.Do(Middleware.Write(text));
  }

  lemma PerformThree(o: Middleware.Output, status: int, contentType: string, text: string)
    ensures Middleware.PerformAll(o, WriteReply(status, contentType, text)) ==
            var headed := Middleware.Perform(o, Middleware.SetHeader("Content-Type", contentType));
            Middleware.Perform(Middleware.Perform(headed, Middleware.WriteHeader(status)), Middleware.Write(text))
  {
    var ops := WriteReply(status, contentType, text);
    assert ops[1..] == [Middleware.WriteHeader(status), Middleware.Write(text)];
    assert ops[1..][1..] == [Middleware.Write(text)] && ops[1..][1..][1..] == [];
    var one := Middleware.Perform(o, ops[0]);
    var two := Middleware.Perform(one, ops[1..][0]);
    assert Middleware.PerformAll(o, ops) == Middleware.PerformAll(one, ops[1..]);
    assert Middleware.PerformAll(one, ops[1..]) == Middleware.PerformAll(two, ops[1..][1..]);
  }

  /** The error a request ends in, if any. */
  function Failure<R, A>(ask: R -> Server.Answer<A>, body: Server.Incoming<R>): Option<ErrorTree.Err> {
    if body.Garbage? then Some(Server.BAD_BODY)
    else if ask(body.req).Err? then Some(ask(body.req).error)
    else None
  }

  /** What an endpoint handler does to its writer. */
  function ReplyOps<R, A>(ask: R -> Server.Answer<A>, body: Server.Incoming<R>, encode: Option<A> -> string,
                          render: ErrorTree.Err -> string): seq<Middleware.Op>
  {
    var reply, failure := Server.Handle(ask, body), Failure(ask, body);
    if failure.Some? then WriteReply(reply.status, TEXT_TYPE, render(failure.value))
    else WriteReply(reply.status, JSON_TYPE, encode(reply.body))
  }

  /** A call of a decider's method. */
  datatype DeciderCall =
    | Evaluated(single: EvaluationRequest)
    | BatchEvaluated(batch: EvaluationsRequest)
    | Searched(e: Metadata.Endpoint, search: Server.SearchRequest)

  class DeciderLog {
    var calls: seq<DeciderCall>

    constructor ()
      ensures calls == []
    {
      calls := [];
    }
  }

  /** A body that decodes makes one call, and another one none. */
  function CallsFor<R>(body: Server.Incoming<R>, call: R -> DeciderCall): seq<DeciderCall> {
    if body.Garbage? then [] else [call(body.req)]
  }

  /** One endpoint handler on a writer, with the calls it makes to its decider. */
  method HandleRequest<R, A>(w: Middleware.ResponseWriter, log: DeciderLog, ask: R -> Server.Answer<A>,
                             call: R -> DeciderCall, body: Server.Incoming<R>, encode: Option<A> -> string,
                             render: ErrorTree.Err -> string)
    modifies w, log
    ensures w.Value() == Middleware.PerformAll(old(w.Value()), ReplyOps(ask, body, encode, render))
    ensures log.calls == old(log.calls) + CallsFor(body, call)
  {
    if body.Garbage? {
      WriteError(w, Server.BAD_BODY, render(Server.BAD_BODY));
      return;
    }
    var answer := ask(body.req);
    log.calls := log.calls + [call(body.req)];
    if answer.Err? {
      WriteError(w, answer.error, render(answer.error));
      return;
    }
    WriteJson(w, ErrorTree.OK, encode(answer.value));
  }

  /** What writeJSON and writeError do to the writer: a content type, one status, a body. */
  function WriteReply(status: int, contentType: string, text: string): seq<Middleware.Op> {
    [Middleware.SetHeader("Content-Type", contentType), Middleware.WriteHeader(status), Middleware.Write(text)]
  }

  /** A header as it was sent. */
  function Header(o: Middleware.Output, key: string): Option<string> {
    if o.sent.Some? && key in o.sent.value.headers then Some(o.sent.value.headers[key]) else None
  }

  /** Whatever options the server is built with, the caller receives the status, the content type and the body that
      the handler writes, and the request's own ID if an option echoes it; and every hook hears that status. */
  lemma MiddlewareKeepsReply(opts: seq<Middleware.HandlerOption>, r: Middleware.Request,
                             status: int, contentType: string, text: string)
    ensures var ops := WriteReply(status, contentType, text);
            var out := Middleware.PerformAll(Middleware.Echo(Middleware.EMPTY, Middleware.WrapAll(opts), r), ops);
            && out.sent.Some? && Middleware.StatusOf(out) == status && out.body == text
            && Header(out, "Content-Type") == Some(contentType)
            && Header(out, "X-Request-ID") ==
               (if Middleware.WithRequestIDEcho in opts && r.requestID != "" then Some(r.requestID) else None)
            && Middleware.Fired(Middleware.WrapAll(opts), r, Middleware.LastCode(ops, 200)) ==
               Middleware.Promised(opts, r, status)
  {
    var ops := WriteReply(status, contentType, text);
    PerformThree(Middleware.Echo(Middleware.EMPTY, Middleware.WrapAll(opts), r), status, contentType, text);
    var tail := ops[1..];
    assert tail == [Middleware.WriteHeader(status), Middleware.Write(text)] && tail[1..] == [Middleware.Write(text)];
    assert "Content-Type"[0] != Middleware.REQUEST_ID[0];
    assert Middleware.Disciplined(tail, status);
    Middleware.Transparent(opts, r, ops, status);
    Middleware.DisciplinedOutput(Middleware.EMPTY, ops, status, 200);
    assert Middleware.Text(tail[1..]) == text + Middleware.Text(tail[1..][1..]) == text;
  }

  // ----- The whole stack -----

  type RedirectCode = code: int | 300 <= code < 400 witness 301

  /** A server: its middleware options; its decider, which may answer differently from call to call; the coding of
      bodies; the texts of errors and of the mux's own replies; and how the mux redirects, which depends on the Go
      release. */
  datatype Stack = Stack(
    opts: seq<Middleware.HandlerOption>, deciders: nat -> Server.Decider,
    single: Codec<EvaluationRequest, EvaluationResponse>,
    batch: Codec<EvaluationsRequest, seq<EvaluationResponse>>,
    search: Codec<Server.SearchRequest, Server.SearchResponse>,
    render: ErrorTree.Err -> string, muxText: string, moved: RedirectCode, location: string -> string)

  function EndpointOps<Q, A>(codec: Codec<Q, A>, ask: Q -> Server.Answer<A>, render: ErrorTree.Err -> string,
                             text: string): seq<Middleware.Op>
  {
    ReplyOps(ask, codec.decodeRequest(text), codec.encodeReply, render)
  }

  /** What the mux does when r arrives as the k-th call, with this text as its body. */
  function MuxOps(s: Stack, k: nat, r: Middleware.Request, text: string): seq<Middleware.Op> {
    var d := s.deciders(k);
    match Server.Route(r.httpMethod, r.path)
    case Redirected => RedirectOps(s, r)
    case NoRoute(status) => WriteReply(status, TEXT_TYPE, s.muxText)
    case ToEndpoint(Evaluation) => EndpointOps(s.single, d.evaluate, s.render, text)
    case ToEndpoint(Evaluations) => EndpointOps(s.batch, d.evaluations, s.render, text)
    case ToEndpoint(SearchSubject) => EndpointOps(s.search, d.searchSubject, s.render, text)
    case ToEndpoint(SearchResource) => EndpointOps(s.search, d.searchResource, s.render, text)
    case ToEndpoint(SearchAction) => EndpointOps(s.search, d.searchAction, s.render, text)
  }

  function RedirectOps(s: Stack, r: Middleware.Request): seq<Middleware.Op> {
    [Middleware.SetHeader("Location", s.location(r.path)), Middleware.WriteHeader(s.moved)]
  }

  /** The calls that serving r makes to the decider. */
  function MuxCalls(s: Stack, r: Middleware.Request, text: string): seq<DeciderCall> {
    match Server.Route(r.httpMethod, r.path)
    case Redirected => []
    case NoRoute(_) => []
    case ToEndpoint(Evaluation) => CallsFor(s.single.decodeRequest(text), q => Evaluated(q))
    case ToEndpoint(Evaluations) => CallsFor(s.batch.decodeRequest(text), q => BatchEvaluated(q))
    case ToEndpoint(e) => CallsFor(s.search.decodeRequest(text), q => Searched(e, q))
  }

  /** The mux on a writer. */
  method ServeMux(s: Stack, k: nat, r: Middleware.Request, text: string, w: Middleware.ResponseWriter, log: DeciderLog)
    modifies w, log
    ensures w.Value() == Middleware.PerformAll(old(w.Value()), MuxOps(s, k, r, text))
    ensures log.calls == old(log.calls) + MuxCalls(s, r, text)
  {
    var d := s.deciders(k);
    match Server.Route(r.httpMethod, r.path) {
      case Redirected =>
        PerformTwo(w.Value(), s.location(r.path), s.moved);
        w.Do(Middleware.SetHeader("Location", s.location(r.path)));
        w.Do(Middleware.WriteHeader(s.moved));
      case NoRoute(status) =>
        PerformThree(w.Value(), status, TEXT_TYPE, s.muxText);
        w.Do(Middleware.SetHeader("Content-Type", TEXT_TYPE));
        w.Do(Middleware.WriteHeader(status));
        w.Do(Middleware.Write(s.muxText));
      case ToEndpoint(Evaluation) => ServeEndpoint(w, log, s.single, d.evaluate, q => Evaluated(q), s.render, text);
      case ToEndpoint(Evaluations) =>
        ServeEndpoint(w, log, s.batch, d.evaluations, q => BatchEvaluated(q), s.render, text);
      case ToEndpoint(SearchSubject) =>
        ServeEndpoint(w, log, s.search, d.searchSubject, q => Searched(Metadata.SearchSubject, q), s.render, text);
      case ToEndpoint(SearchResource) =>
        ServeEndpoint(w, log, s.search, d.searchResource, q => Searched(Metadata.SearchResource, q), s.render, text);
      case ToEndpoint(SearchAction) =>
        ServeEndpoint(w, log, s.search, d.searchAction, q => Searched(Metadata.SearchAction, q), s.render, text);
    }
  }

  method ServeEndpoint<Q, A>(w: Middleware.ResponseWriter, log: DeciderLog, codec: Codec<Q, A>,
                             ask: Q -> Server.Answer<A>, call: Q -> DeciderCall, render: ErrorTree.Err -> string,
                             text: string)
    modifies w, log
    ensures w.Value() == Middleware.PerformAll(old(w.Value()), EndpointOps(codec, ask, render, text))
    ensures log.calls == old(log.calls) + CallsFor(codec.decodeRequest(text), call)
  {
    HandleRequest(w, log, ask, call, codec.decodeRequest(text), codec.encodeReply, render);
  }

  lemma PerformTwo(o: Middleware.Output, location: string, code: int)
    ensures Middleware.PerformAll(o, [Middleware.SetHeader("Location", location), Middleware.WriteHeader(code)]) ==
            Middleware.Perform(Middleware.Perform(o, Middleware.SetHeader("Location", location)),
                               Middleware.WriteHeader(code))
  {
    var ops := [Middleware.SetHeader("Location", location), Middleware.WriteHeader(code)];
    assert ops[1..] == [Middleware.WriteHeader(code)] && ops[1..][1..] == [];
    var one := Middleware.Perform(o, ops[0]);
    assert Middleware.PerformAll(one, ops[1..]) == Middleware.PerformAll(Middleware.Perform(one, ops[1..][0]), []);
  }

  /** What the server sends in reply. */
  function Served(s: Stack, k: nat, r: Middleware.Request, text: string): Middleware.Output {
    Middleware.PerformAll(Middleware.Echo(Middleware.EMPTY, Middleware.WrapAll(s.opts), r), MuxOps(s, k, r, text))
  }

  /** The outcome is this reply, with the whole body or one that breaks off. */
  predicate Brings(outcome: Retry.Outcome, o: Middleware.Output) {
    && outcome.Answered? && outcome.status == Middleware.StatusOf(o)
    && (outcome.body.Some? ==> outcome.body.value == o.body)
  }

  /** The inner doer of w takes every attempt to this server; it brings back what the server sends, perhaps broken
      off, or fails. */
  ghost predicate ServedBy(w: Retry.World, s: Stack, r: Middleware.Request, body: string) {
    forall k: nat | k >= 1 :: w.inner(k).Failed? || Brings(w.inner(k), Served(s, k, r, Retry.BodyAt(w, body, k)))
  }

  /** Attempt k gets a whole reply. */
  predicate GetsThrough(w: Retry.World, k: nat) {
    w.inner(k).Answered? && w.inner(k).body.Some?
  }

  /** What comes back from an endpoint is what its handler writes, and is never retried. */
  lemma EndpointServed<Q, A>(opts: seq<Middleware.HandlerOption>, r: Middleware.Request, codec: Codec<Q, A>,
                             ask: Q -> Server.Answer<A>, render: ErrorTree.Err -> string, text: string)
    ensures var before := Middleware.Echo(Middleware.EMPTY, Middleware.WrapAll(opts), r);
            var out := Middleware.PerformAll(before, EndpointOps(codec, ask, render, text));
            var incoming := codec.decodeRequest(text);
            && Middleware.StatusOf(out) == Server.Handle(ask, incoming).status
            && !Retry.ShouldRetryStatus(Middleware.StatusOf(out))
            && out.body == if Failure(ask, incoming).Some? then render(Failure(ask, incoming).value)
                           else codec.encodeReply(Server.Handle(ask, incoming).body)
  {
    var reply, failure := Server.Handle(ask, codec.decodeRequest(text)), Failure(ask, codec.decodeRequest(text));
    if failure.Some? {
      MiddlewareKeepsReply(opts, r, reply.status, TEXT_TYPE, render(failure.value));
    } else {
      MiddlewareKeepsReply(opts, r, reply.status, JSON_TYPE, codec.encodeReply(reply.body));
    }
  }

  lemma RedirectServed(s: Stack, r: Middleware.Request)
    ensures var before := Middleware.Echo(Middleware.EMPTY, Middleware.WrapAll(s.opts), r);
            Middleware.StatusOf(Middleware.PerformAll(before, RedirectOps(s, r))) == s.moved
  {
    var ops := RedirectOps(s, r);
    assert "Location"[0] != Middleware.REQUEST_ID[0];
    assert ops[1..] == [Middleware.WriteHeader(s.moved)] && ops[1..][1..] == [];
    assert Middleware.Disciplined(ops[1..], s.moved);
    Middleware.Transparent(s.opts, r, ops, s.moved);
  }

  /** Nothing that the server ever sends is retried, to whatever path, method and body. */
  lemma ServerNeverRetried(s: Stack, k: nat, r: Middleware.Request, text: string)
    ensures !Retry.ShouldRetryStatus(Middleware.StatusOf(Served(s, k, r, text)))
  {
    var d := s.deciders(k);
    match Server.Route(r.httpMethod, r.path)
    case Redirected => RedirectServed(s, r);
    case NoRoute(status) => MiddlewareKeepsReply(s.opts, r, status, TEXT_TYPE, s.muxText);
    case ToEndpoint(Evaluation) => EndpointServed(s.opts, r, s.single, d.evaluate, s.render, text);
    case ToEndpoint(Evaluations) => EndpointServed(s.opts, r, s.batch, d.evaluations, s.render, text);
    case ToEndpoint(SearchSubject) => EndpointServed(s.opts, r, s.search, d.searchSubject, s.render, text);
    case ToEndpoint(SearchResource) => EndpointServed(s.opts, r, s.search, d.searchResource, s.render, text);
    case ToEndpoint(SearchAction) => EndpointServed(s.opts, r, s.search, d.searchAction, s.render, text);
  }

  /** What the caller should get for a decider's answer. */
  function Expected<A>(answer: Server.Answer<A>, zero: A): Result<A, ClientError> {
    match answer
    case Ok(response) => Ok(response.GetOr(zero))
    case Err(e) => Err(Status(ErrorTree.Status(e)))
  }

  /** The request that reaches the server when a client with this base URL calls an endpoint. */
  function RequestTo(base: Urls.Url, e: Metadata.Endpoint, requestID: string): Middleware.Request {
    Middleware.Request("POST", CallPath(base, e), requestID)
  }

  /** What the caller should get, depending on where the client's base URL points. */
  function Promised<A>(s: Stack, base: Urls.Url, e: Metadata.Endpoint, answer: Server.Answer<A>, zero: A)
    : Result<A, ClientError>
  {
    if Rooted(base) then Expected(answer, zero)
    else Err(Status(if Server.Clean(CallPath(base, e)) then ErrorTree.NOT_FOUND else s.moved))
  }

  /** A call ends after n attempts: all but the last failed in transport, every attempt was sent once and in order,
      and no response is left open. */
  ghost predicate Settled(w: Retry.World, body: string, n: nat, trace: seq<Retry.Event>) {
    var a := Retry.AuditAll(w, trace);
    && a.conn == Retry.Free && a.sent == Retry.Count(n) && a.bodies == Retry.Bodies(w, body, n)
    && forall k: nat | 1 <= k < n :: w.inner(k).Failed?
  }

  /** A call to the server stops at the first attempt that is answered. */
  lemma PostSettles<Q, A>(c: Retry.UsableConfig, w: Retry.World, s: Stack, r: Middleware.Request,
                          codec: Codec<Q, A>, req: Q, body: string, zero: A, n: nat)
    requires codec.encodeRequest(req) == Some(body) && ServedBy(w, s, r, body) && Retry.StopsAt(c, w, 1, n)
    ensures var x := Post(c, w, codec, req, zero);
            && Settled(w, body, n, x.trace)
            && (w.inner(n).Failed? ==> x.result.Err? && x.result.error.Transport?)
            && (w.inner(n).Answered? ==>
                  var status := Middleware.StatusOf(Served(s, n, r, Retry.BodyAt(w, body, n)));
                  x.result == Classify(Retry.DoResult(Some(Retry.Response(n, status, w.inner(n).body)), None),
                                       codec.decodeReply, zero))
  {
    forall k: nat | 1 <= k <= n && w.inner(k).Answered?
      ensures !Retry.ShouldRetryStatus(w.inner(k).status)
    {
      ServerNeverRetried(s, k, r, Retry.BodyAt(w, body, k));
    }
    Retry.FirstAnswerWins(c, w, body, n);
    ReleaseFrees(w, Retry.Loop(c, w, 1, Retry.NIL_NIL, body, []), n);
  }

  /** Reading and closing the returned response frees the connection, and changes nothing else in the audit. */
  lemma ReleaseFrees(w: Retry.World, f: Retry.Finish, n: nat)
    requires f.result.err.None? ==> f.result.resp.Some?
    requires f.result.resp.Some? ==> f.result.resp.value.attempt == n
    requires Retry.AuditAll(w, f.trace).conn == if f.result.err.Some? then Retry.Free else Retry.Open(n)
    ensures Retry.AuditAll(w, f.trace + Release(f.result)) == Retry.AuditAll(w, f.trace).(conn := Retry.Free)
  {
    if f.result.err.Some? {
      assert f.trace + Release(f.result) == f.trace;
    } else {
      var once, twice := f.trace + [Retry.Drained(n)], f.trace + Release(f.result);
      assert twice == once + [Retry.Closed(n)];
      assert twice[..|twice| - 1] == once && once[..|once| - 1] == f.trace;
    }
  }

  /** A request that the server reads, at an endpoint that writes an answer that the client reads: the caller gets
      the answer of the decider, to that very request, at the one attempt that got through. */
  lemma AnswerArrives<Q, A>(c: Retry.UsableConfig, w: Retry.World, s: Stack, r: Middleware.Request,
                            codec: Codec<Q, A>, ask: Q -> Server.Answer<A>, req: Q, body: string, zero: A, n: nat)
    requires ServedBy(w, s, r, body) && Retry.StopsAt(c, w, 1, n) && GetsThrough(w, n)
    requires CarriesRequest(codec, req, body) && CarriesAnswer(codec, ask(req)) && Retry.BodyAt(w, body, n) == body
    requires MuxOps(s, n, r, body) == EndpointOps(codec, ask, s.render, body)
    ensures Post(c, w, codec, req, zero).result == Expected(ask(req), zero)
  {
    PostSettles(c, w, s, r, codec, req, body, zero, n);
    EndpointServed(s.opts, r, codec, ask, s.render, body);
  }

  /** What a call to a base URL with a path comes back with. */
  lemma ElsewhereArrives<Q, A>(c: Retry.UsableConfig, w: Retry.World, s: Stack, base: Urls.Url, e: Metadata.Endpoint,
                               id: string, codec: Codec<Q, A>, req: Q, body: string, zero: A, n: nat)
    requires base.Valid() && !Rooted(base) && codec.encodeRequest(req) == Some(body)
    requires ServedBy(w, s, RequestTo(base, e, id), body) && Retry.StopsAt(c, w, 1, n) && GetsThrough(w, n)
    ensures Post(c, w, codec, req, zero).result ==
            Err(Status(if Server.Clean(CallPath(base, e)) then ErrorTree.NOT_FOUND else s.moved))
  {
    var r := RequestTo(base, e, id);
    CallIsRouted(base, e);
    PostSettles(c, w, s, r, codec, req, body, zero, n);
    MiddlewareKeepsReply(s.opts, r, ErrorTree.NOT_FOUND, TEXT_TYPE, s.muxText);
    RedirectServed(s, r);
  }

  /** Client.Evaluate against the server, whatever the retry options, the middleware options, the transport failures,
      the broken responses, the cancellations and GetBody: the caller gets a transport or a read error, or else what
      the decider answers to this very request -- permit and deny alike without error (null as the zero response), an
      error as its mapped status. Only the last attempt brings back a response, and it is not left open. When the base
      URL has a path the answer is 404, or a redirect if that path is not clean. The last attempt must have sent the
      full body; it does when it is the first, and when GetBody yields that body. */
  lemma DecisionArrives(c: Retry.UsableConfig, w: Retry.World, s: Stack, base: Urls.Url, id: string,
                        req: EvaluationRequest, body: string, n: nat)
    requires base.Valid() && Evaluation.Validate(Some(req)).None? && Retry.StopsAt(c, w, 1, n)
    requires ServedBy(w, s, RequestTo(base, Metadata.Evaluation, id), body) && Retry.BodyAt(w, body, n) == body
    requires CarriesRequest(s.single, req, body) && CarriesAnswer(s.single, s.deciders(n).evaluate(req))
    ensures var x := Call(c, w, s.single, Evaluation.Validate(Some(req)), Some(req), DENY);
            && Settled(w, body, n, x.trace)
            && (w.inner(n).Failed? ==> x.result.Err? && x.result.error.Transport?)
            && (w.inner(n).Answered? && !GetsThrough(w, n) ==> x.result == Err(Unreadable))
            && (GetsThrough(w, n) ==>
                  x.result == Promised(s, base, Metadata.Evaluation, s.deciders(n).evaluate(req), DENY))
            && (GetsThrough(w, n) && Rooted(base) && s.deciders(n).evaluate(req) == Ok(None) ==>
                  x.result == Ok(EvaluationResponse(false)))
  {
    var r := RequestTo(base, Metadata.Evaluation, id);
    CallIsRouted(base, Metadata.Evaluation);
    PostSettles(c, w, s, r, s.single, req, body, DENY, n);
    if GetsThrough(w, n) {
      if Rooted(base) {
        AnswerArrives(c, w, s, r, s.single, s.deciders(n).evaluate, req, body, DENY, n);
      } else {
        ElsewhereArrives(c, w, s, base, Metadata.Evaluation, id, s.single, req, body, DENY, n);
      }
    }
  }

  /** The same for Client.Evaluations and a batch that passes validation. */
  lemma BatchArrives(c: Retry.UsableConfig, w: Retry.World, s: Stack, base: Urls.Url, id: string,
                     b: EvaluationsRequest, body: string, n: nat)
    requires base.Valid() && Evaluation.BatchVerdict(Some(b), None) && Retry.StopsAt(c, w, 1, n)
    requires ServedBy(w, s, RequestTo(base, Metadata.Evaluations, id), body) && Retry.BodyAt(w, body, n) == body
    requires CarriesRequest(s.batch, b, body) && CarriesAnswer(s.batch, s.deciders(n).evaluations(b))
    ensures var x := Call(c, w, s.batch, None, Some(b), []);
            && Settled(w, body, n, x.trace)
            && (w.inner(n).Failed? ==> x.result.Err? && x.result.error.Transport?)
            && (w.inner(n).Answered? && !GetsThrough(w, n) ==> x.result == Err(Unreadable))
            && (GetsThrough(w, n) ==>
                  x.result == Promised(s, base, Metadata.Evaluations, s.deciders(n).evaluations(b), []))
  {
    var r, zero: seq<EvaluationResponse> := RequestTo(base, Metadata.Evaluations, id), [];
    CallIsRouted(base, Metadata.Evaluations);
    PostSettles(c, w, s, r, s.batch, b, body, zero, n);
    if GetsThrough(w, n) {
      if Rooted(base) {
        AnswerArrives(c, w, s, r, s.batch, s.deciders(n).evaluations, b, body, zero, n);
      } else {
        ElsewhereArrives(c, w, s, base, Metadata.Evaluations, id, s.batch, b, body, zero, n);
      }
    }
  }

  // ----- How often the decider is asked -----

  /** Attempt k is served: it is answered, or it is lost, that is, fails after the server has served it. */
  predicate Reaches(w: Retry.World, lost: nat -> bool, k: nat) {
    w.inner(k).Answered? || lost(k)
  }

  /** The calls that serving r with a given body makes to the decider. */
  function Serving(s: Stack, r: Middleware.Request): string -> seq<DeciderCall> {
    (text: string) => MuxCalls(s, r, text)
  }

  /** The calls that the attempts of a trace make to the decider. */
  function DeciderCalls(serve: string -> seq<DeciderCall>, w: Retry.World, lost: nat -> bool,
                        trace: seq<Retry.Event>): seq<DeciderCall>
  {
    if trace == [] then []
    else
      var before, last := DeciderCalls(serve, w, lost, trace[..|trace| - 1]), trace[|trace| - 1];
      if last.Sent? && Reaches(w, lost, last.attempt) then before + serve(last.body) else before
  }

  /** The same from the audit of the trace. */
  function CallsOver(serve: string -> seq<DeciderCall>, w: Retry.World, lost: nat -> bool, sent: seq<nat>,
                     bodies: seq<string>): seq<DeciderCall>
    requires |sent| == |bodies|
  {
    if sent == [] then []
    else
      var m := |sent| - 1;
      var before := CallsOver(serve, w, lost, sent[..m], bodies[..m]);
      if Reaches(w, lost, sent[m]) then before + serve(bodies[m]) else before
  }

  lemma {:induction false} CallsAudited(serve: string -> seq<DeciderCall>, w: Retry.World, lost: nat -> bool,
                                        trace: seq<Retry.Event>)
    ensures var a := Retry.AuditAll(w, trace);
            && |a.sent| == |a.bodies|
            && DeciderCalls(serve, w, lost, trace) == CallsOver(serve, w, lost, a.sent, a.bodies)
  {
    if trace == [] {
    } else {
      var init, last := trace[..|trace| - 1], trace[|trace| - 1];
      var a, b := Retry.AuditAll(w, init), Retry.AuditAll(w, trace);
      CallsAudited(serve, w, lost, init);
      if last.Sent? {
        assert b.sent[..|a.sent|] == a.sent && b.bodies[..|a.sent|] == a.bodies;
      }
    }
  }

  /** How many of these attempts the server serves. */
  function Arrivals(w: Retry.World, lost: nat -> bool, sent: seq<nat>): nat {
    if sent == [] then 0
    else Arrivals(w, lost, sent[..|sent| - 1]) + if Reaches(w, lost, sent[|sent| - 1]) then 1 else 0
  }

  function Copies(call: DeciderCall, n: nat): (calls: seq<DeciderCall>)
    ensures |calls| == n && forall k | 0 <= k < n :: calls[k] == call
    ensures n == 1 ==> calls == [call]
  {
    seq(n, _ => call)
  }

  /** When every attempt sends the same body, which makes one call. */
  lemma {:induction false} CallsCounted(serve: string -> seq<DeciderCall>, w: Retry.World, lost: nat -> bool,
                                        sent: seq<nat>, bodies: seq<string>, body: string, call: DeciderCall)
    requires |sent| == |bodies| && (forall i | 0 <= i < |bodies| :: bodies[i] == body) && serve(body) == [call]
    ensures CallsOver(serve, w, lost, sent, bodies) == Copies(call, Arrivals(w, lost, sent))
  {
    if sent == [] {
    } else {
      var m := |sent| - 1;
      CallsCounted(serve, w, lost, sent[..m], bodies[..m], body, call);
    }
  }

  lemma {:induction false} ArrivalsExact(w: Retry.World, lost: nat -> bool, sent: seq<nat>)
    ensures Arrivals(w, lost, sent) == 0 <==> forall k | k in sent :: !Reaches(w, lost, k)
  {
    if sent == [] {
    } else {
      ArrivalsExact(w, lost, sent[..|sent| - 1]);
      assert sent == sent[..|sent| - 1] + [sent[|sent| - 1]];
    }
  }

  lemma {:induction false} BodiesAt(w: Retry.World, body: string, n: nat)
    ensures |Retry.Bodies(w, body, n)| == n
    ensures forall i | 0 <= i < n :: Retry.Bodies(w, body, n)[i] == Retry.BodyAt(w, body, i + 1)
  {
    if n == 0 {
    } else {
      BodiesAt(w, body, n - 1);
    }
  }

  /** A settled exchange whose every attempt sends the same body. */
  lemma SettledCalls(serve: string -> seq<DeciderCall>, w: Retry.World, lost: nat -> bool, body: string,
                     call: DeciderCall, n: nat, trace: seq<Retry.Event>)
    requires Settled(w, body, n, trace) && serve(body) == [call]
    requires forall k: nat | 1 <= k <= n :: Retry.BodyAt(w, body, k) == body
    ensures DeciderCalls(serve, w, lost, trace) == Copies(call, Arrivals(w, lost, Retry.Count(n)))
  {
    CallsAudited(serve, w, lost, trace);
    BodiesAt(w, body, n);
    CallsCounted(serve, w, lost, Retry.Count(n), Retry.Bodies(w, body, n), body, call);
  }

  /** An answered call is served exactly once if and only if none of its failed attempts was lost. */
  lemma ServedOnce(w: Retry.World, lost: nat -> bool, n: nat)
    requires n >= 1 && w.inner(n).Answered? && forall k: nat | 1 <= k < n :: w.inner(k).Failed?
    ensures Arrivals(w, lost, Retry.Count(n)) == 1 <==> forall k: nat | 1 <= k < n :: !lost(k)
  {
    var earlier := Retry.Count(n - 1);
    Retry.CountLength(n - 1);
    assert Retry.Count(n)[..n - 1] == earlier;
    ArrivalsExact(w, lost, earlier);
    forall k: nat | 1 <= k < n
      ensures k in earlier && (lost(k) <==> Reaches(w, lost, k))
    {
      assert earlier[k - 1] == k;
    }
  }

  /** The decider is asked this very request, and nothing else, once for each attempt that the server serves; when the
      call is answered, that is exactly once if and only if no earlier attempt failed after being served. */
  lemma DecisionsMade(c: Retry.UsableConfig, w: Retry.World, s: Stack, base: Urls.Url, id: string,
                      req: EvaluationRequest, body: string, lost: nat -> bool, n: nat)
    requires base.Valid() && Rooted(base) && Evaluation.Validate(Some(req)).None? && Retry.StopsAt(c, w, 1, n)
    requires ServedBy(w, s, RequestTo(base, Metadata.Evaluation, id), body)
    requires forall k: nat | 1 <= k <= n :: Retry.BodyAt(w, body, k) == body
    requires CarriesRequest(s.single, req, body)
    ensures var x := Call(c, w, s.single, Evaluation.Validate(Some(req)), Some(req), DENY);
            var calls := DeciderCalls(Serving(s, RequestTo(base, Metadata.Evaluation, id)), w, lost, x.trace);
            && calls == Copies(Evaluated(req), Arrivals(w, lost, Retry.Count(n)))
            && (w.inner(n).Answered? ==> (calls == [Evaluated(req)] <==> forall k: nat | 1 <= k < n :: !lost(k)))
  {
    var r := RequestTo(base, Metadata.Evaluation, id);
    CallIsRouted(base, Metadata.Evaluation);
    PostSettles(c, w, s, r, s.single, req, body, DENY, n);
    SettledCalls(Serving(s, r), w, lost, body, Evaluated(req), n, Post(c, w, s.single, req, DENY).trace);
    if w.inner(n).Answered? {
      ServedOnce(w, lost, n);
    }
  }

  /** The same for a batch. */
  lemma BatchDecisionsMade(c: Retry.UsableConfig, w: Retry.World, s: Stack, base: Urls.Url, id: string,
                           b: EvaluationsRequest, body: string, lost: nat -> bool, n: nat)
    requires base.Valid() && Rooted(base) && Evaluation.BatchVerdict(Some(b), None) && Retry.StopsAt(c, w, 1, n)
    requires ServedBy(w, s, RequestTo(base, Metadata.Evaluations, id), body)
    requires forall k: nat | 1 <= k <= n :: Retry.BodyAt(w, body, k) == body
    requires CarriesRequest(s.batch, b, body)
    ensures var x := Call(c, w, s.batch, None, Some(b), []);
            var calls := DeciderCalls(Serving(s, RequestTo(base, Metadata.Evaluations, id)), w, lost, x.trace);
            && calls == Copies(BatchEvaluated(b), Arrivals(w, lost, Retry.Count(n)))
            && (w.inner(n).Answered? ==> (calls == [BatchEvaluated(b)] <==> forall k: nat | 1 <= k < n :: !lost(k)))
  {
    var r, zero: seq<EvaluationResponse> := RequestTo(base, Metadata.Evaluations, id), [];
    CallIsRouted(base, Metadata.Evaluations);
    PostSettles(c, w, s, r, s.batch, b, body, zero, n);
    SettledCalls(Serving(s, r), w, lost, body, BatchEvaluated(b), n, Post(c, w, s.batch, b, zero).trace);
    if w.inner(n).Answered? {
      ServedOnce(w, lost, n);
    }
  }

  /** A first attempt that is answered for good is the only one. */
  lemma FirstExchange<Q, A>(c: Retry.UsableConfig, w: Retry.World, codec: Codec<Q, A>, req: Q, body: string, zero: A)
    requires codec.encodeRequest(req) == Some(body) && !Retry.Retryable(w.inner(1))
    ensures Post(c, w, codec, req, zero).trace == [Retry.Sent(1, body), Retry.Drained(1), Retry.Closed(1)]
  {
    Retry.FinalAtOnce(c, w, body);
  }

  /** When the first attempt is answered: one request on the wire, whose response is read and closed; one call of the
      decider; and its answer, unless the response breaks off. */
  lemma OneCallOneDecision(c: Retry.UsableConfig, w: Retry.World, s: Stack, base: Urls.Url, id: string,
                           req: EvaluationRequest, body: string, lost: nat -> bool)
    requires base.Valid() && Rooted(base) && Evaluation.Validate(Some(req)).None? && w.inner(1).Answered?
    requires ServedBy(w, s, RequestTo(base, Metadata.Evaluation, id), body)
    requires CarriesRequest(s.single, req, body) && CarriesAnswer(s.single, s.deciders(1).evaluate(req))
    ensures var x := Call(c, w, s.single, Evaluation.Validate(Some(req)), Some(req), DENY);
            && x.trace == [Retry.Sent(1, body), Retry.Drained(1), Retry.Closed(1)]
            && DeciderCalls(Serving(s, RequestTo(base, Metadata.Evaluation, id)), w, lost, x.trace) == [Evaluated(req)]
            && x.result == if GetsThrough(w, 1) then Expected(s.deciders(1).evaluate(req), DENY) else Err(Unreadable)
  {
    ServerNeverRetried(s, 1, RequestTo(base, Metadata.Evaluation, id), body);
    Retry.StopsAtOnce(c, w);
    FirstExchange(c, w, s.single, req, body, DENY);
    DecisionArrives(c, w, s, base, id, req, body, 1);
    DecisionsMade(c, w, s, base, id, req, body, lost, 1);
  }

  // ----- The two PDPs on the wire -----

  function ReferenceDecider(dir: T.Directory): Server.Decider {
    Server.NOT_IMPLEMENTED_DECIDER.(
      evaluate := (r: EvaluationRequest) => Ok(Some(EvaluationResponse(Equivalence.Decide(dir, r)))),
      evaluations := (b: EvaluationsRequest) => Ok(Some(Batch.ReferenceBatch(dir, b))))
  }

  function CedarEvaluate(entities: Cedar.Store): EvaluationRequest -> Server.Answer<EvaluationResponse> {
    (r: EvaluationRequest) =>
      match TodoPdp.Evaluate(entities, r)
      case Ok(response) => Ok(Some(response))
      case Err(e) => Err(e)
  }

  /** The reference PDP's document lists the two evaluation endpoints and no search endpoint; and it is right: whatever
      is asked, an endpoint is listed if and only if the answer is not 501. */
  lemma ReferenceAdvertises(m: Metadata.Document, pdpUrl: string, dir: T.Directory, e: Metadata.Endpoint,
                            asked: Server.Asked)
    requires Server.Describes(m, pdpUrl, ReferenceDecider(dir))
    ensures Metadata.Advertised(m, e) != "" <==> e == Metadata.Evaluation || e == Metadata.Evaluations
    ensures Metadata.Advertised(m, e) != "" <==>
            Server.StatusAt(ReferenceDecider(dir), e, asked) != ErrorTree.NOT_IMPLEMENTED
  {
    var d := ReferenceDecider(dir);
    Server.AdvertisedIffProbed(m, pdpUrl, d, e);
    Server.AdvertisementExact(d.evaluations, Server.ZERO_BATCH, asked.batch);
  }

  /** Over the wire the two PDPs are interchangeable exactly on the agreement domain: same status and body. */
  lemma SameOnTheWire(entities: Cedar.Store, dir: T.Directory, req: EvaluationRequest)
    requires Equivalence.Mirrors(entities, dir)
    ensures Server.Handle(CedarEvaluate(entities), Server.Decoded(req)) ==
            Server.Handle(ReferenceDecider(dir).evaluate, Server.Decoded(req)) <==>
            !req.resource.properties.Malformed? && Equivalence.AgreementDomain(dir, req)
    ensures Server.Handle(CedarEvaluate(entities), Server.Decoded(req)).status ==
            if req.resource.properties.Malformed? then ErrorTree.INTERNAL_ERROR else ErrorTree.OK
  {
    Equivalence.AgreementExact(entities, dir, req);
    Equivalence.CedarMeaning(entities, dir, req);
  }

  /** A caller of the Cedar PDP gets the reference decision, once an attempt gets through, if and only if the payload
      is well-formed and the request is in the agreement domain; a malformed payload comes back as status 500. */
  lemma CallerGetsReferenceDecision(c: Retry.UsableConfig, w: Retry.World, s: Stack, base: Urls.Url, id: string,
                                    entities: Cedar.Store, dir: T.Directory, req: EvaluationRequest, body: string,
                                    n: nat)
    requires base.Valid() && Rooted(base) && Evaluation.Validate(Some(req)).None?
    requires Retry.StopsAt(c, w, 1, n) && GetsThrough(w, n) && Retry.BodyAt(w, body, n) == body
    requires ServedBy(w, s, RequestTo(base, Metadata.Evaluation, id), body)
    requires CarriesRequest(s.single, req, body) && CarriesAnswer(s.single, s.deciders(n).evaluate(req))
    requires Equivalence.Mirrors(entities, dir) && s.deciders(n).evaluate(req) == CedarEvaluate(entities)(req)
    ensures var result := Call(c, w, s.single, Evaluation.Validate(Some(req)), Some(req), DENY).result;
            && (result == Ok(EvaluationResponse(Equivalence.Decide(dir, req))) <==>
                !req.resource.properties.Malformed? && Equivalence.AgreementDomain(dir, req))
            && (req.resource.properties.Malformed? ==> result == Err(Status(ErrorTree.INTERNAL_ERROR)))
  {
    DecisionArrives(c, w, s, base, id, req, body, n);
    Equivalence.AgreementExact(entities, dir, req);
    Equivalence.CedarMeaning(entities, dir, req);
  }

  function BatchAnswer(out: Result<seq<EvaluationResponse>, ErrorTree.Err>): Server.Answer<seq<EvaluationResponse>> {
    match out
    case Ok(responses) => Ok(Some(responses))
    case Err(e) => Err(e)
  }

  /** What the Cedar batch decider's answer means to a caller. */
  lemma BatchMeaning(entities: Cedar.Store, dir: T.Directory, b: EvaluationsRequest,
                     out: Result<seq<EvaluationResponse>, ErrorTree.Err>)
    requires Evaluation.BatchVerdict(Some(b), None)
    requires Equivalence.Mirrors(entities, dir) && Batch.CedarBatch(entities, b, out)
    ensures Expected(BatchAnswer(out), []) == Ok(Batch.ReferenceBatch(dir, b)) <==> AllAgree(dir, b)
    ensures Expected(BatchAnswer(out), []) == Err(Status(ErrorTree.INTERNAL_ERROR)) <==> SomeMalformed(b)
  {
    Batch.BatchesAgree(entities, dir, b, out);
    Batch.BatchFails(entities, dir, b, out);
  }

  ghost predicate AllAgree(dir: T.Directory, b: EvaluationsRequest) {
    forall i: nat | i < |b.evaluations| ::
      !Evaluation.Effective(b, i).resource.properties.Malformed? &&
      Equivalence.AgreementDomain(dir, Evaluation.Effective(b, i))
  }

  ghost predicate SomeMalformed(b: EvaluationsRequest) {
    exists i: nat :: i < |b.evaluations| && Evaluation.Effective(b, i).resource.properties.Malformed?
  }

  /** A caller of the Cedar PDP gets the reference decisions for a validated batch, in order, once an attempt gets
      through, if and only if every merged item is well-formed and in the agreement domain; and a malformed payload
      anywhere makes the whole batch come back as status 500. */
  lemma CallerGetsReferenceBatch(c: Retry.UsableConfig, w: Retry.World, s: Stack, base: Urls.Url, id: string,
                                 entities: Cedar.Store, dir: T.Directory, b: EvaluationsRequest, body: string, n: nat,
                                 out: Result<seq<EvaluationResponse>, ErrorTree.Err>)
    requires base.Valid() && Rooted(base) && Evaluation.BatchVerdict(Some(b), None)
    requires Retry.StopsAt(c, w, 1, n) && GetsThrough(w, n) && Retry.BodyAt(w, body, n) == body
    requires ServedBy(w, s, RequestTo(base, Metadata.Evaluations, id), body)
    requires CarriesRequest(s.batch, b, body) && CarriesAnswer(s.batch, s.deciders(n).evaluations(b))
    requires Equivalence.Mirrors(entities, dir) && Batch.CedarBatch(entities, b, out)
    requires s.deciders(n).evaluations(b) == BatchAnswer(out)
    ensures var result := Call(c, w, s.batch, None, Some(b), []).result;
            && (result == Ok(Batch.ReferenceBatch(dir, b)) <==> AllAgree(dir, b))
            && (result == Err(Status(ErrorTree.INTERNAL_ERROR)) <==> SomeMalformed(b))
  {
    BatchArrives(c, w, s, base, id, b, body, n);
    BatchMeaning(entities, dir, b, out);
  }
}
