/** What the whole server replies at each path, in the protocol's own numbers and names, and what the metadata document
    says about it. */
module Replies {
  import opened Wrappers
  import opened Wire
  import opened EndToEnd
  import Metadata
  import Middleware
  import Server

  function PostTo(path: string, requestID: string): Middleware.Request {
    Middleware.Request("POST", path, requestID)
  }

  // ----- The five paths -----

  /** The reply of one endpoint: 400 for a body that does not decode; 200 with the encoded answer, as JSON; or an error
      as plain text, with 400 if a validation error is in its tree, or else 501 if the sentinel is, or else 500. */
  ghost predicate Replies<Q, A>(codec: Codec<Q, A>, ask: Q -> Server.Answer<A>, s: Stack, text: string,
                                out: Middleware.Output)
  {
    match codec.decodeRequest(text)
    case Garbage => ErrorReply(out, 400, s.render(Server.BAD_BODY))
    case Decoded(q) =>
      match ask(q)
      case Ok(answer) =>
        && Middleware.StatusOf(out) == 200 && out.body == codec.encodeReply(answer)
        && Header(out, "Content-Type") == Some("application/json")
      case Err(e) =>
        var status := if Server.Faulted(ask(q)) then 400 else if Server.Sentinel(ask(q)) then 501 else 500;
        ErrorReply(out, status, s.render(e))
  }

  predicate ErrorReply(out: Middleware.Output, status: int, text: string) {
    && Middleware.StatusOf(out) == status && out.body == text
    && Header(out, "Content-Type") == Some("text/plain; charset=utf-8")
  }

  lemma EndpointReplies<Q, A>(s: Stack, k: nat, r: Middleware.Request, codec: Codec<Q, A>,
                              ask: Q -> Server.Answer<A>, text: string)
    requires MuxOps(s, k, r, text) == EndpointOps(codec, ask, s.render, text)
    ensures Replies(codec, ask, s, text, Served(s, k, r, text))
  {
    var incoming := codec.decodeRequest(text);
    var reply, failure := Server.Handle(ask, incoming), Failure(ask, incoming);
    Server.StatusTable(ask, incoming);
    if failure.Some? {
      MiddlewareKeepsReply(s.opts, r, reply.status, TEXT_TYPE, s.render(failure.value));
    } else {
      MiddlewareKeepsReply(s.opts, r, reply.status, JSON_TYPE, codec.encodeReply(reply.body));
    }
  }

  lemma FivePaths()
    ensures Server.Route("POST", "/access/v1/evaluation") == Server.ToEndpoint(Metadata.Evaluation)
    ensures Server.Route("POST", "/access/v1/evaluations") == Server.ToEndpoint(Metadata.Evaluations)
    ensures Server.Route("POST", "/access/v1/search/subject") == Server.ToEndpoint(Metadata.SearchSubject)
    ensures Server.Route("POST", "/access/v1/search/resource") == Server.ToEndpoint(Metadata.SearchResource)
    ensures Server.Route("POST", "/access/v1/search/action") == Server.ToEndpoint(Metadata.SearchAction)
  {
    assert Metadata.PathOf(Metadata.Evaluation) == "/access/v1/evaluation";
    assert Metadata.PathOf(Metadata.Evaluations) == "/access/v1/evaluations";
    assert Metadata.PathOf(Metadata.SearchSubject) == "/access/v1/search/subject";
    assert Metadata.PathOf(Metadata.SearchResource) == "/access/v1/search/resource";
    assert Metadata.PathOf(Metadata.SearchAction) == "/access/v1/search/action";
  }

  /** A POST to each of the five paths gets the reply of that endpoint's own decider method, through any middleware. */
  lemma PathsReply(s: Stack, k: nat, id: string, text: string)
    ensures var d := s.deciders(k);
            && Replies(s.single, d.evaluate, s, text, Served(s, k, PostTo("/access/v1/evaluation", id), text))
            && Replies(s.batch, d.evaluations, s, text, Served(s, k, PostTo("/access/v1/evaluations", id), text))
            && Replies(s.search, d.searchSubject, s, text, Served(s, k, PostTo("/access/v1/search/subject", id), text))
            && Replies(s.search, d.searchResource, s, text,
                       Served(s, k, PostTo("/access/v1/search/resource", id), text))
            && Replies(s.search, d.searchAction, s, text, Served(s, k, PostTo("/access/v1/search/action", id), text))
  {
    var d := s.deciders(k);
    MuxAtPaths(s, k, id, text);
    EndpointReplies(s, k, PostTo("/access/v1/evaluation", id), s.single, d.evaluate, text);
    EndpointReplies(s, k, PostTo("/access/v1/evaluations", id), s.batch, d.evaluations, text);
    EndpointReplies(s, k, PostTo("/access/v1/search/subject", id), s.search, d.searchSubject, text);
    EndpointReplies(s, k, PostTo("/access/v1/search/resource", id), s.search, d.searchResource, text);
    EndpointReplies(s, k, PostTo("/access/v1/search/action", id), s.search, d.searchAction, text);
  }

  lemma MuxAtPaths(s: Stack, k: nat, id: string, text: string)
    ensures var d := s.deciders(k);
            && MuxOps(s, k, PostTo("/access/v1/evaluation", id), text) ==
               EndpointOps(s.single, d.evaluate, s.render, text)
            && MuxOps(s, k, PostTo("/access/v1/evaluations", id), text) ==
               EndpointOps(s.batch, d.evaluations, s.render, text)
            && MuxOps(s, k, PostTo("/access/v1/search/subject", id), text) ==
               EndpointOps(s.search, d.searchSubject, s.render, text)
            && MuxOps(s, k, PostTo("/access/v1/search/resource", id), text) ==
               EndpointOps(s.search, d.searchResource, s.render, text)
            && MuxOps(s, k, PostTo("/access/v1/search/action", id), text) ==
               EndpointOps(s.search, d.searchAction, s.render, text)
  {
    FivePaths();
  }

  /** A request that decodes makes exactly one decider call, of the endpoint's own method; another makes none. */
  lemma PathsAsk(s: Stack, id: string, text: string)
    ensures MuxCalls(s, PostTo("/access/v1/evaluation", id), text) ==
            match s.single.decodeRequest(text) { case Garbage => [] case Decoded(q) => [Evaluated(q)] }
    ensures MuxCalls(s, PostTo("/access/v1/evaluations", id), text) ==
            match s.batch.decodeRequest(text) { case Garbage => [] case Decoded(q) => [BatchEvaluated(q)] }
    ensures MuxCalls(s, PostTo("/access/v1/search/subject", id), text) ==
            match s.search.decodeRequest(text) {
              case Garbage => [] case Decoded(q) => [Searched(Metadata.SearchSubject, q)] }
    ensures MuxCalls(s, PostTo("/access/v1/search/resource", id), text) ==
            match s.search.decodeRequest(text) {
              case Garbage => [] case Decoded(q) => [Searched(Metadata.SearchResource, q)] }
    ensures MuxCalls(s, PostTo("/access/v1/search/action", id), text) ==
            match s.search.decodeRequest(text) {
              case Garbage => [] case Decoded(q) => [Searched(Metadata.SearchAction, q)] }
  {
    FivePaths();
  }

  /** Anything else is refused without a decider call: 405 for another method on one of the five paths, and 404 for
      another path, if it is clean. */
  lemma OthersRefused(s: Stack, k: nat, r: Middleware.Request, text: string)
    requires Server.Clean(r.path)
    ensures var known := exists e :: r.path == Metadata.PathOf(e);
            && (known && r.httpMethod != "POST" ==> Middleware.StatusOf(Served(s, k, r, text)) == 405)
            && (!known ==> Middleware.StatusOf(Served(s, k, r, text)) == 404)
            && (!known || r.httpMethod != "POST" ==> MuxCalls(s, r, text) == [])
  {
    var routed := Server.Route(r.httpMethod, r.path);
    if routed.NoRoute? {
      MiddlewareKeepsReply(s.opts, r, routed.status, TEXT_TYPE, s.muxText);
    }
  }

  // ----- Bodies that do not decode -----

  /** The text is no JSON for the endpoint's requests. */
  predicate Undecodable(s: Stack, e: Metadata.Endpoint, text: string) {
    match e
    case Evaluation => s.single.decodeRequest(text).Garbage?
    case Evaluations => s.batch.decodeRequest(text).Garbage?
    case _ => s.search.decodeRequest(text).Garbage?
  }

  /** At every endpoint, a body that does not decode gets 400, and the decider is not asked. */
  lemma UndecodableIs400(s: Stack, k: nat, e: Metadata.Endpoint, id: string, text: string)
    requires Undecodable(s, e, text)
    ensures Middleware.StatusOf(Served(s, k, PostTo(Metadata.PathOf(e), id), text)) == 400
    ensures MuxCalls(s, PostTo(Metadata.PathOf(e), id), text) == []
  {
    PathsReply(s, k, id, text);
    PathsAsk(s, id, text);
  }

  // ----- The document against the replies -----

  /** At this endpoint the text decodes to the request that was meant. */
  predicate Puts(s: Stack, e: Metadata.Endpoint, text: string, asked: Server.Asked) {
    match e
    case Evaluation => s.single.decodeRequest(text) == Server.Decoded(asked.single)
    case Evaluations => s.batch.decodeRequest(text) == Server.Decoded(asked.batch)
    case _ => s.search.decodeRequest(text) == Server.Decoded(asked.search)
  }

  /** What the error tree of an endpoint's answer has in it. */
  ghost predicate SentinelAt(d: Server.Decider, e: Metadata.Endpoint, asked: Server.Asked) {
    match e
    case Evaluation => Server.Sentinel(d.evaluate(asked.single))
    case Evaluations => Server.Sentinel(d.evaluations(asked.batch))
    case SearchSubject => Server.Sentinel(d.searchSubject(asked.search))
    case SearchResource => Server.Sentinel(d.searchResource(asked.search))
    case SearchAction => Server.Sentinel(d.searchAction(asked.search))
  }

  ghost predicate FaultedAt(d: Server.Decider, e: Metadata.Endpoint, asked: Server.Asked) {
    match e
    case Evaluation => Server.Faulted(d.evaluate(asked.single))
    case Evaluations => Server.Faulted(d.evaluations(asked.batch))
    case SearchSubject => Server.Faulted(d.searchSubject(asked.search))
    case SearchResource => Server.Faulted(d.searchResource(asked.search))
    case SearchAction => Server.Faulted(d.searchAction(asked.search))
  }

  /** A POST to an endpoint gets 501 exactly when its error tree has the sentinel and no validation error. */
  lemma ServedNotImplemented(s: Stack, k: nat, e: Metadata.Endpoint, id: string, text: string, asked: Server.Asked)
    requires Puts(s, e, text, asked)
    ensures var status := Middleware.StatusOf(Served(s, k, PostTo(Metadata.PathOf(e), id), text));
            && (status == 501 <==> SentinelAt(s.deciders(k), e, asked) && !FaultedAt(s.deciders(k), e, asked))
            && (FaultedAt(s.deciders(k), e, asked) ==> status == 400)
  {
    PathsReply(s, k, id, text);
  }

  /** The zero request with which the server probes an endpoint. */
  predicate Zero(asked: Server.Asked) {
    asked.batch == EvaluationsRequest(None, None, None, "", [], Unspecified) && asked.search == ""
  }

  /** An optional endpoint is listed if and only if its own method has no sentinel in its answer to the zero request. */
  lemma ListedExactly(m: Metadata.Document, pdpUrl: string, d: Server.Decider, e: Metadata.Endpoint,
                      zero: Server.Asked)
    requires Server.Describes(m, pdpUrl, d) && e != Metadata.Evaluation && Zero(zero)
    ensures Metadata.Advertised(m, e) != "" <==> !SentinelAt(d, e, zero)
  {
    Server.DocumentFields(m, pdpUrl, d);
  }

  /** Whether the endpoint's error tree has the sentinel does not depend on the request. */
  ghost predicate UniformAt(d: Server.Decider, e: Metadata.Endpoint) {
    forall x, y :: SentinelAt(d, e, x) <==> SentinelAt(d, e, y)
  }

  /** For every decider, and every optional endpoint of it that is uniform: when it is listed, no POST to it, with
      whatever body, gets 501; when it is not listed, every POST that decodes gets 501, or 400 if a validation error
      outranks the sentinel. So if some request is not so outranked, the endpoint is listed if and only if nothing
      that is served there has status 501. */
  lemma DocumentIsRight(m: Metadata.Document, pdpUrl: string, s: Stack, k: nat, e: Metadata.Endpoint, id: string,
                        text: string, asked: Server.Asked)
    requires Server.Describes(m, pdpUrl, s.deciders(k)) && e != Metadata.Evaluation && UniformAt(s.deciders(k), e)
    requires Puts(s, e, text, asked) || Undecodable(s, e, text)
    ensures var status := Middleware.StatusOf(Served(s, k, PostTo(Metadata.PathOf(e), id), text));
            && (Metadata.Advertised(m, e) != "" ==> status != 501)
            && (Metadata.Advertised(m, e) == "" && !Undecodable(s, e, text) ==>
                  status == if FaultedAt(s.deciders(k), e, asked) then 400 else 501)
  {
    var zero := asked.(batch := EvaluationsRequest(None, None, None, "", [], Unspecified), search := "");
    ListedExactly(m, pdpUrl, s.deciders(k), e, zero);
    assert SentinelAt(s.deciders(k), e, asked) <==> SentinelAt(s.deciders(k), e, zero);
    if Undecodable(s, e, text) {
      UndecodableIs400(s, k, e, id, text);
    } else {
      ServedNotImplemented(s, k, e, id, text, asked);
    }
  }
}
