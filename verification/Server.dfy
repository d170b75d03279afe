/** The server: endpoint handlers over a decider, their statuses, and the metadata document that advertises them. */
module Server {
  import opened Wrappers
  import opened ErrorTree
  import Metadata
  import Text
  import Urls
  import Wire

  /** A request body as it arrives. */
  datatype Incoming<R> = Garbage | Decoded(req: R)

  /** What a decider method returns: a response, which may be Go's nil pointer, or an error. */
  type Answer<A> = Result<Option<A>, Err>

  /** A status, and on success the JSON body (None is null). */
  datatype Reply<A> = Reply(status: int, body: Option<A>)

  /** What decodeRequest makes of a body that is not JSON. */
  const BAD_BODY := Invalid(Wire.ValidationError("body", "invalid JSON"), Some(Opaque("json")))

  /** The five endpoint handlers: decode, ask the decider, map the outcome to a status. */
  function Handle<R, A>(ask: R -> Answer<A>, body: Incoming<R>): Reply<A> {
    match body
    case Garbage => Reply(Status(BAD_BODY), None)
    case Decoded(req) =>
      match ask(req)
      case Err(e) => Reply(Status(e), None)
      case Ok(response) => Reply(OK, response)
  }

  /** Search payloads are opaque. */
  type SearchRequest = string
  type SearchResponse = string

  /** A decider, one function per endpoint. */
  datatype Decider = Decider(
    evaluate: Wire.EvaluationRequest -> Answer<Wire.EvaluationResponse>,
    evaluations: Wire.EvaluationsRequest -> Answer<seq<Wire.EvaluationResponse>>,
    searchSubject: SearchRequest -> Answer<SearchResponse>,
    searchResource: SearchRequest -> Answer<SearchResponse>,
    searchAction: SearchRequest -> Answer<SearchResponse>)

  /** One request for each kind of endpoint. */
  datatype Asked = Asked(single: Wire.EvaluationRequest, batch: Wire.EvaluationsRequest, search: SearchRequest)

  /** The status with which an endpoint replies to a request that decodes. */
  function StatusAt(d: Decider, e: Metadata.Endpoint, asked: Asked): int {
    match e
    case Evaluation => Handle(d.evaluate, Decoded(asked.single)).status
    case Evaluations => Handle(d.evaluations, Decoded(asked.batch)).status
    case SearchSubject => Handle(d.searchSubject, Decoded(asked.search)).status
    case SearchResource => Handle(d.searchResource, Decoded(asked.search)).status
    case SearchAction => Handle(d.searchAction, Decoded(asked.search)).status
  }

  const ZERO_BATCH := Wire.EvaluationsRequest(None, None, None, "", [], Wire.Unspecified)
  const ZERO_SEARCH: SearchRequest := ""

  /** NotImplementedDecider. */
  const NOT_IMPLEMENTED_DECIDER := Decider(
    _ => Err(NotImplemented), _ => Err(NotImplemented),
    _ => Err(NotImplemented), _ => Err(NotImplemented), _ => Err(NotImplemented))

  // ----- Building the document -----

  /** The probe of one optional method with a zero request. */
  predicate Implements<R, A>(ask: R -> Answer<A>, zero: R) {
    !(ask(zero).Err? && IsNotImplemented(ask(zero).error))
  }

  predicate Probed(d: Decider, e: Metadata.Endpoint) {
    match e
    case Evaluation => true
    case Evaluations => Implements(d.evaluations, ZERO_BATCH)
    case SearchSubject => Implements(d.searchSubject, ZERO_SEARCH)
    case SearchResource => Implements(d.searchResource, ZERO_SEARCH)
    case SearchAction => Implements(d.searchAction, ZERO_SEARCH)
  }

  /** The document speaks for pdpUrl, and has the URL of every endpoint that passed the probe, and no other. */
  ghost predicate Describes(m: Metadata.Document, pdpUrl: string, d: Decider) {
    && m.policyDecisionPoint == pdpUrl
    && forall e :: Metadata.Advertised(m, e) == FieldFor(pdpUrl, d, e)
  }

  lemma DescribesFields(m: Metadata.Document, pdpUrl: string, d: Decider)
    requires m.policyDecisionPoint == pdpUrl && m.evaluation == FieldFor(pdpUrl, d, Metadata.Evaluation)
    requires m.evaluations == FieldFor(pdpUrl, d, Metadata.Evaluations)
    requires m.searchSubject == FieldFor(pdpUrl, d, Metadata.SearchSubject)
    requires m.searchResource == FieldFor(pdpUrl, d, Metadata.SearchResource)
    requires m.searchAction == FieldFor(pdpUrl, d, Metadata.SearchAction)
    ensures Describes(m, pdpUrl, d)
  {
    forall e
      ensures Metadata.Advertised(m, e) == FieldFor(pdpUrl, d, e)
    {
      match e
      case Evaluation =>
      case Evaluations =>
      case SearchSubject =>
      case SearchResource =>
      case SearchAction =>
    }
  }

  function FieldFor(pdpUrl: string, d: Decider, e: Metadata.Endpoint): string {
    if Probed(d, e) then Urls.Join(pdpUrl, Metadata.PathOf(e)) else ""
  }

  /** BuildMetadata, with the capability options. */
  method BuildMetadata(pdpUrl: string, d: Decider, capabilities: seq<string>) returns (m: Metadata.Document)
    ensures Describes(m, pdpUrl, d) && m.capabilities == capabilities
  {
    var base := Text.TrimRight(pdpUrl, '/');
    m := Metadata.Document(pdpUrl, base + Metadata.PathOf(Metadata.Evaluation), "", "", "", "", []);
    if Implements(d.evaluations, ZERO_BATCH) {
      m := m.(evaluations := base + Metadata.PathOf(Metadata.Evaluations));
    }
    assert m.evaluations == FieldFor(pdpUrl, d, Metadata.Evaluations);
    if Implements(d.searchSubject, ZERO_SEARCH) {
      m := m.(searchSubject := base + Metadata.PathOf(Metadata.SearchSubject));
    }
    assert m.searchSubject == FieldFor(pdpUrl, d, Metadata.SearchSubject);
    if Implements(d.searchResource, ZERO_SEARCH) {
      m := m.(searchResource := base + Metadata.PathOf(Metadata.SearchResource));
    }
    assert m.searchResource == FieldFor(pdpUrl, d, Metadata.SearchResource);
    if Implements(d.searchAction, ZERO_SEARCH) {
      m := m.(searchAction := base + Metadata.PathOf(Metadata.SearchAction));
    }
    assert m.searchAction == FieldFor(pdpUrl, d, Metadata.SearchAction);
    m := ApplyCapabilities(m, capabilities);
    DescribesFields(m, pdpUrl, d);
  }

  /** The WithCapability options, applied in order. */
  method ApplyCapabilities(m0: Metadata.Document, capabilities: seq<string>) returns (m: Metadata.Document)
    ensures m == m0.(capabilities := m0.capabilities + capabilities)
  {
    m := m0;
    for i := 0 to |capabilities|
      invariant m == m0.(capabilities := m0.capabilities + capabilities[..i])
    {
      m := m.(capabilities := m.capabilities + [capabilities[i]]);
    }
  }

  /** A field of the document is present exactly when the probe found the endpoint implemented. */
  lemma AdvertisedIffProbed(m: Metadata.Document, pdpUrl: string, d: Decider, e: Metadata.Endpoint)
    requires Describes(m, pdpUrl, d)
    ensures Metadata.Advertised(m, e) != "" <==> Probed(d, e)
  {
  }

  // ----- Advertisement and behaviour -----

  /** The error tree has the sentinel. */
  ghost predicate Sentinel<A>(answer: Answer<A>) {
    answer.Err? && Contains(answer.error, NotImplemented)
  }

  /** The error tree has a validation error, which outranks the sentinel. */
  ghost predicate Faulted<A>(answer: Answer<A>) {
    answer.Err? && exists node: Err :: node.Invalid? && Contains(answer.error, node)
  }

  lemma ProbeExact<R, A>(ask: R -> Answer<A>, zero: R)
    ensures Implements(ask, zero) <==> !Sentinel(ask(zero))
  {
    if ask(zero).Err? {
      IsNotImplementedExact(ask(zero).error);
    }
  }

  lemma StatusExact<R, A>(ask: R -> Answer<A>, r: R)
    ensures Handle(ask, Decoded(r)).status == NOT_IMPLEMENTED <==> Sentinel(ask(r)) && !Faulted(ask(r))
    ensures Handle(ask, Decoded(r)).status == BAD_REQUEST <==> Faulted(ask(r))
  {
    if ask(r).Err? {
      IsNotImplementedExact(ask(r).error);
      AsValidationExact(ask(r).error);
    }
  }

  /** The document is right about a method -- it is listed if and only if a request is not answered with 501 --
      for every request exactly when the requests whose error tree has the sentinel and no validation error are all
      requests or none, according to whether the zero request's tree has the sentinel. */
  lemma AdvertisementRight<R, A>(ask: R -> Answer<A>, zero: R)
    ensures (forall r :: Implements(ask, zero) <==> Handle(ask, Decoded(r)).status != NOT_IMPLEMENTED) <==>
            (forall r :: Sentinel(ask(r)) && !Faulted(ask(r)) <==> Sentinel(ask(zero)))
  {
    ProbeExact(ask, zero);
    forall r
      ensures Handle(ask, Decoded(r)).status == NOT_IMPLEMENTED <==> Sentinel(ask(r)) && !Faulted(ask(r))
    {
      StatusExact(ask, r);
    }
  }

  /** Whether the error tree has the sentinel does not depend on the request. */
  ghost predicate Uniform<R(!new), A>(ask: R -> Answer<A>) {
    forall x, y :: Sentinel(ask(x)) <==> Sentinel(ask(y))
  }

  /** For a uniform method, whatever else depends on the request: once listed it never answers 501; and unlisted it
      answers 501 to exactly the requests whose error tree has no validation error, and 400 to the others. */
  lemma AdvertisementExact<R(!new), A>(ask: R -> Answer<A>, zero: R, req: R)
    requires Uniform(ask)
    ensures !Implements(ask, zero) <==> Sentinel(ask(zero))
    ensures Implements(ask, zero) ==> Handle(ask, Decoded(req)).status != NOT_IMPLEMENTED
    ensures !Implements(ask, zero) ==>
              Handle(ask, Decoded(req)).status == if Faulted(ask(req)) then BAD_REQUEST else NOT_IMPLEMENTED
  {
    ProbeExact(ask, zero);
    StatusExact(ask, req);
    assert Sentinel(ask(req)) <==> Sentinel(ask(zero));
  }

  /** The statuses, in numbers: 400 for a body that does not decode; 200 for an answer; and for an error 400 if a
      validation error is in its tree, or else 501 if the sentinel is, or else 500. */
  lemma StatusTable<R, A>(ask: R -> Answer<A>, body: Incoming<R>)
    ensures Handle(ask, body).status ==
            match body
            case Garbage => 400
            case Decoded(r) =>
              if ask(r).Ok? then 200 else if Faulted(ask(r)) then 400 else if Sentinel(ask(r)) then 501 else 500
    ensures BAD_BODY.Invalid? && BAD_BODY.error == Wire.ValidationError("body", "invalid JSON")
  {
    if body.Decoded? {
      StatusExact(ask, body.req);
    } else {
      AsValidationExact(BAD_BODY);
      assert Contains(BAD_BODY, BAD_BODY) by {
        assert Path(BAD_BODY, [], BAD_BODY);
      }
    }
  }

  /** The URL of one optional endpoint, from its own method's answer to its own zero request. */
  ghost predicate FieldIs<A>(field: string, pdpUrl: string, path: string, answerToZero: Answer<A>) {
    field == if Sentinel(answerToZero) then "" else Text.TrimRight(pdpUrl, '/') + path
  }

  /** The document, field by field: each has its own path, and each optional one depends on its own method. */
  lemma DocumentFields(m: Metadata.Document, pdpUrl: string, d: Decider)
    requires Describes(m, pdpUrl, d)
    ensures m.policyDecisionPoint == pdpUrl
    ensures m.evaluation == Text.TrimRight(pdpUrl, '/') + "/access/v1/evaluation"
    ensures var zero := Wire.EvaluationsRequest(None, None, None, "", [], Wire.Unspecified);
            FieldIs(m.evaluations, pdpUrl, "/access/v1/evaluations", d.evaluations(zero))
    ensures FieldIs(m.searchSubject, pdpUrl, "/access/v1/search/subject", d.searchSubject(""))
    ensures FieldIs(m.searchResource, pdpUrl, "/access/v1/search/resource", d.searchResource(""))
    ensures FieldIs(m.searchAction, pdpUrl, "/access/v1/search/action", d.searchAction(""))
  {
    assert m.evaluation == Metadata.Advertised(m, Metadata.Evaluation);
    assert m.evaluations == Metadata.Advertised(m, Metadata.Evaluations);
    assert m.searchSubject == Metadata.Advertised(m, Metadata.SearchSubject);
    assert m.searchResource == Metadata.Advertised(m, Metadata.SearchResource);
    assert m.searchAction == Metadata.Advertised(m, Metadata.SearchAction);
    ProbeExact(d.evaluations, ZERO_BATCH);
    ProbeExact(d.searchSubject, ZERO_SEARCH);
    ProbeExact(d.searchResource, ZERO_SEARCH);
    ProbeExact(d.searchAction, ZERO_SEARCH);
  }

  /** A method for which the document is wrong, each way. */
  lemma ProbeCanMislead()
    ensures exists f: SearchRequest -> Answer<SearchResponse> ::
              Implements(f, ZERO_SEARCH) && Handle(f, Decoded("q")).status == NOT_IMPLEMENTED
    ensures exists f: SearchRequest -> Answer<SearchResponse> ::
              !Implements(f, ZERO_SEARCH) && Handle(f, Decoded("q")).status == OK
  {
    var f: SearchRequest -> Answer<SearchResponse> := q => if q == "" then Ok(None) else Err(NotImplemented);
    assert Implements(f, ZERO_SEARCH) && Handle(f, Decoded("q")).status == NOT_IMPLEMENTED;
    var g: SearchRequest -> Answer<SearchResponse> := q => if q == "" then Err(NotImplemented) else Ok(None);
    assert !Implements(g, ZERO_SEARCH) && Handle(g, Decoded("q")).status == OK;
  }

  /** The embedded stub answers 501 to every request that decodes, on all five endpoints; the document omits the four
      optional ones and lists Evaluation all the same. */
  lemma StubIsOmitted(m: Metadata.Document, pdpUrl: string, e: Metadata.Endpoint, asked: Asked)
    requires Describes(m, pdpUrl, NOT_IMPLEMENTED_DECIDER)
    ensures StatusAt(NOT_IMPLEMENTED_DECIDER, e, asked) == NOT_IMPLEMENTED
    ensures Metadata.Advertised(m, e) != "" <==> e == Metadata.Evaluation
  {
    assert Metadata.Advertised(m, e) == FieldFor(pdpUrl, NOT_IMPLEMENTED_DECIDER, e);
  }

  // ----- Routing -----

  /** Redirected is the mux's answer to a path that is not clean. */
  datatype Routed = ToEndpoint(e: Metadata.Endpoint) | Redirected | NoRoute(status: int)

  /** A segment "." or ".." begins at position i. */
  predicate DotSegment(path: string, i: nat) {
    && i < |path| && path[i] == '.'
    && (Ends(path, i + 1) || (path[i + 1] == '.' && Ends(path, i + 2)))
  }

  predicate Ends(path: string, i: nat) {
    i >= |path| || path[i] == '/'
  }

  /** What net/http's path cleaning leaves as it is: rooted, without repeated slashes and dot segments. */
  predicate Clean(path: string) {
    && path != "" && path[0] == '/'
    && forall i | 0 <= i < |path| && path[i] == '/' :: Tidy(path, i)
  }

  /** The segment after the slash at i is a name, or the end. */
  predicate Tidy(path: string, i: nat)
    requires i < |path|
  {
    (i + 1 < |path| ==> path[i + 1] != '/') && !DotSegment(path, i + 1)
  }

  ghost predicate DoubleSlash(path: string, before: string, after: string) {
    path == before + "//" + after
  }

  ghost predicate DotBetween(path: string, before: string, dots: string, after: string) {
    path == before + "/" + dots + after && dots in {".", ".."} && (after == "" || after[0] == '/')
  }

  /** A path is clean if and only if it begins with a slash and has no double slash and no segment "." or "..". */
  lemma CleanExact(path: string)
    ensures Clean(path) <==>
            && path != "" && path[0] == '/'
            && (forall before, after :: !DoubleSlash(path, before, after))
            && (forall before, dots, after :: !DotBetween(path, before, dots, after))
  {
    forall before, after | DoubleSlash(path, before, after)
      ensures !Clean(path)
    {
      var i := |before|;
      assert path[i] == '/' && path[i + 1] == '/' && !Tidy(path, i);
    }
    forall before, dots, after | DotBetween(path, before, dots, after)
      ensures !Clean(path)
    {
      var i := |before|;
      assert path[i + 1..] == dots + after;
      assert path[i] == '/' && path[i + 1] == '.' && !Tidy(path, i);
    }
    if path != "" && path[0] == '/' && !Clean(path) {
      var i :| 0 <= i < |path| && path[i] == '/' && !Tidy(path, i);
      Untidy(path, i);
    }
  }

  lemma Untidy(path: string, i: nat)
    requires i < |path| && path[i] == '/' && !Tidy(path, i)
    ensures (exists before, after :: DoubleSlash(path, before, after)) ||
            exists before, dots, after :: DotBetween(path, before, dots, after)
  {
    var before := path[..i];
    if i + 1 < |path| && path[i + 1] == '/' {
      assert DoubleSlash(path, before, path[i + 2..]);
    } else if Ends(path, i + 2) {
      assert DotBetween(path, before, ".", path[i + 2..]);
    } else {
      assert DotBetween(path, before, "..", path[i + 3..]);
    }
  }

  lemma EndpointClean(e: Metadata.Endpoint)
    ensures Clean(Metadata.PathOf(e))
  {
    match e
    case Evaluation =>
    case Evaluations =>
    case SearchSubject =>
    case SearchResource =>
    case SearchAction =>
  }

  /** The mux: a path that is not clean is redirected, except for CONNECT; a POST to one of the five paths reaches its
      endpoint, another method there is 405, and any other path is 404. */
  function Route(httpMethod: string, path: string): (r: Routed)
    ensures r.Redirected? <==> httpMethod != "CONNECT" && !Clean(path)
    ensures r.ToEndpoint? ==> httpMethod == "POST" && path == Metadata.PathOf(r.e)
    ensures forall e | path == Metadata.PathOf(e) ::
              r == if httpMethod == "POST" then ToEndpoint(e) else NoRoute(METHOD_NOT_ALLOWED)
    ensures r.NoRoute? ==>
              r.status == if exists e :: path == Metadata.PathOf(e) then METHOD_NOT_ALLOWED else NOT_FOUND
  {
    EndpointsClean();
    if httpMethod != "CONNECT" && !Clean(path) then Redirected
    else if path == Metadata.PathOf(Metadata.Evaluation) then Dispatch(httpMethod, Metadata.Evaluation)
    else if path == Metadata.PathOf(Metadata.Evaluations) then Dispatch(httpMethod, Metadata.Evaluations)
    else if path == Metadata.PathOf(Metadata.SearchSubject) then Dispatch(httpMethod, Metadata.SearchSubject)
    else if path == Metadata.PathOf(Metadata.SearchResource) then Dispatch(httpMethod, Metadata.SearchResource)
    else if path == Metadata.PathOf(Metadata.SearchAction) then Dispatch(httpMethod, Metadata.SearchAction)
    else NoRoute(NOT_FOUND)
  }

  lemma EndpointsClean()
    ensures forall e :: Clean(Metadata.PathOf(e))
  {
    forall e
      ensures Clean(Metadata.PathOf(e))
    {
      EndpointClean(e);
    }
  }

  function Dispatch(httpMethod: string, e: Metadata.Endpoint): Routed {
    if httpMethod == "POST" then ToEndpoint(e) else NoRoute(METHOD_NOT_ALLOWED)
  }
}
