/** The client's metadata cache: construction with options, and one call of FetchMetadata by one caller. */
module MetadataClient {
  import opened Wrappers
  import CacheControl
  import Int64
  import Metadata
  import Text
  import Urls

  /** What the network, or the code around it, hands to a metadata fetch. */
  datatype Answer =
    | Failed(msg: string)                                                      // no response, or an unreadable body
    | Answered(status: int, cacheControl: string, body: Option<Metadata.Document>)  // None: the body does not decode

  datatype FetchError =
    | Transport(msg: string)
    | Status(code: int)
    | Undecodable(code: int)
    | MixUp(expectedPdp: string, documentPdp: string)

  /** A transport; one that is not http.DefaultClient is known by a number. */
  datatype Doer = DefaultClient | Custom(id: nat)

  /** The settings of a client. */
  datatype Config = Config(base: Urls.Url, doer: Doer, relaxed: bool, defaultTtl: int)

  datatype Fetched = Fetched(doc: Metadata.Document, ttl: int)

  datatype Entry = Entry(doc: Metadata.Document, expires: int)

  /** The document speaks for the configured PDP. */
  predicate Genuine(c: Config, doc: Metadata.Document) {
    Urls.SamePdp(c.base.ToString(), doc.policyDecisionPoint)
  }

  /** fetchMetadataRaw: judge one answer. */
  function Judge(c: Config, a: Answer): (r: Result<Fetched, FetchError>)
    ensures r.Ok? && !c.relaxed ==> Genuine(c, r.value.doc)
    ensures r.Ok? ==> a.Answered? && 200 <= a.status < 300 && a.body == Some(r.value.doc)
  {
    match a
    case Failed(msg) => Err(Transport(msg))
    case Answered(status, cacheControl, body) =>
      if status < 200 || status >= 300 then Err(Status(status))
      else if body.None? then Err(Undecodable(status))
      else
        var doc := body.value;
        var expected := Text.TrimRight(c.base.ToString(), '/');
        if !c.relaxed && expected != Text.TrimRight(doc.policyDecisionPoint, '/') then
          Err(MixUp(expected, doc.policyDecisionPoint))
        else
          var ttl := CacheControl.MaxAge(Text.Split(cacheControl, ','));
          Ok(Fetched(doc, if ttl == 0 then c.defaultTtl else ttl))
  }

  /** Every refusal has its one cause: no response, a non-2xx status, an undecodable body, or a document that
      speaks for another PDP while validation is on. */
  lemma RefusalExact(c: Config, a: Answer)
    ensures Judge(c, a).Ok? <==>
            a.Answered? && 200 <= a.status < 300 && a.body.Some? && (c.relaxed || Genuine(c, a.body.value))
    ensures Judge(c, a).Err? ==>
              var e := Judge(c, a).error;
              && (e.Transport? <==> a.Failed?) && (e.Transport? ==> e.msg == a.msg)
              && (e.Status? <==> a.Answered? && !(200 <= a.status < 300)) && (e.Status? ==> e.code == a.status)
              && (e.Undecodable? <==> a.Answered? && 200 <= a.status < 300 && a.body.None?)
              && (e.Undecodable? ==> e.code == a.status)
              && (e.MixUp? ==> e.documentPdp == a.body.value.policyDecisionPoint && !Genuine(c, a.body.value) &&
                               e.expectedPdp == Text.TrimRight(c.base.ToString(), '/'))
  {
  }

  /** The integer in the header's first max-age directive, if there is one. */
  function MaxAgeSeconds(header: string): Option<int> {
    var parts := Text.Split(header, ',');
    var k := CacheControl.FirstFrom(parts, 0);
    if k < |parts| then Text.Atoi(CacheControl.Argument(parts[k])) else None
  }

  /** The lifetime of an accepted document: the header's own seconds when they are between 1 and the largest that
      fits; the client's default if the header has no max-age, or one that is malformed, not positive, or a multiple
      of 2^55; and it is positive unless the top bit of the 64-bit product is set. */
  lemma AcceptedLifetime(c: Config, a: Answer)
    requires c.defaultTtl > 0 && Judge(c, a).Ok?
    ensures var seconds := MaxAgeSeconds(a.cacheControl);
            var ttl := Judge(c, a).value.ttl;
            && (seconds.None? || seconds.value <= 0 ==> ttl == c.defaultTtl)
            && (seconds.Some? && 1 <= seconds.value <= CacheControl.MAX_SECONDS ==>
                  ttl == seconds.value * CacheControl.SECOND)
            && (seconds.Some? && seconds.value % CacheControl.TWO55 == 0 ==> ttl == c.defaultTtl)
            && (ttl > 0 <==> seconds.None? || seconds.value <= 0 ||
                             (seconds.value * CacheControl.SECOND) % Int64.TWO64 <= Int64.MAX)
  {
    var parts := Text.Split(a.cacheControl, ',');
    var k := CacheControl.FirstFrom(parts, 0);
    if k < |parts| && MaxAgeSeconds(a.cacheControl).Some? && MaxAgeSeconds(a.cacheControl).value > 0 {
      CacheControl.LifetimeSign(CacheControl.Argument(parts[k]));
    }
  }

  // ----- Construction -----

  /** Go's nil transport is None. */
  datatype ClientOption =
    | WithMetadataTTL(d: int)
    | WithRelaxedMetadataValidation
    | WithHTTPClient(doer: Option<Doer>)

  const HOUR: int := 3600 * CacheControl.SECOND

  function Defaults(base: Urls.Url): Config {
    Config(base, DefaultClient, false, HOUR)
  }

  function ApplyOption(c: Config, o: ClientOption): Config {
    match o
    case WithMetadataTTL(d) => if d <= 0 then c else c.(defaultTtl := d)
    case WithRelaxedMetadataValidation => c.(relaxed := true)
    case WithHTTPClient(d) => c.(doer := d.GetOr(DefaultClient))
  }

  function ApplyOptions(c: Config, opts: seq<ClientOption>): Config {
    if opts == [] then c else ApplyOption(ApplyOptions(c, opts[..|opts| - 1]), opts[|opts| - 1])
  }

  /** Whatever the options: the base URL stays, checks are relaxed only on request, and a positive default lifetime
      stays positive. */
  lemma {:induction false} OptionsKeep(c: Config, opts: seq<ClientOption>)
    ensures var d := ApplyOptions(c, opts);
            && (c.defaultTtl > 0 ==> d.defaultTtl > 0) && d.base == c.base
            && (d.relaxed <==> c.relaxed || WithRelaxedMetadataValidation in opts)
  {
    if opts == [] {
    } else {
      OptionsKeep(c, opts[..|opts| - 1]);
      assert opts == opts[..|opts| - 1] + [opts[|opts| - 1]];
    }
  }

  predicate SetsLifetime(o: ClientOption) {
    o.WithMetadataTTL? && o.d > 0
  }

  /** Two positive lifetimes that differ, or two transports that differ. */
  predicate Clash(a: ClientOption, b: ClientOption) {
    || (SetsLifetime(a) && SetsLifetime(b) && a.d != b.d)
    || (a.WithHTTPClient? && b.WithHTTPClient? && a.doer.GetOr(DefaultClient) != b.doer.GetOr(DefaultClient))
  }

  predicate Harmonious(opts: seq<ClientOption>) {
    forall a, b | a in opts && b in opts :: !Clash(a, b)
  }

  /** Without a clash each setting is what some option asks for, or else what it was. */
  lemma {:induction false} HarmoniousLifetime(c: Config, opts: seq<ClientOption>)
    requires Harmonious(opts)
    ensures var d := ApplyOptions(c, opts);
            && (forall o | o in opts && SetsLifetime(o) :: d.defaultTtl == o.d)
            && ((forall o | o in opts :: !SetsLifetime(o)) ==> d.defaultTtl == c.defaultTtl)
  {
    if opts == [] {
    } else {
      var init, o := opts[..|opts| - 1], opts[|opts| - 1];
      assert opts == init + [o];
      HarmoniousLifetime(c, init);
      assert forall a | a in init :: !Clash(a, o);
    }
  }

  lemma {:induction false} HarmoniousDoer(c: Config, opts: seq<ClientOption>)
    requires Harmonious(opts)
    ensures var d := ApplyOptions(c, opts);
            && (forall o | o in opts && o.WithHTTPClient? :: d.doer == o.doer.GetOr(DefaultClient))
            && ((forall o | o in opts :: !o.WithHTTPClient?) ==> d.doer == c.doer)
  {
    if opts == [] {
    } else {
      var init, o := opts[..|opts| - 1], opts[|opts| - 1];
      assert opts == init + [o];
      HarmoniousDoer(c, init);
      assert forall a | a in init :: !Clash(a, o);
    }
  }

  lemma MoveLast(opts: seq<ClientOption>, o: ClientOption) returns (init: seq<ClientOption>)
    requires o in opts
    ensures multiset(init + [o]) == multiset(opts)
  {
    var i :| 0 <= i < |opts| && opts[i] == o;
    init := opts[..i] + opts[i + 1..];
    assert opts == opts[..i] + [o] + opts[i + 1..];
  }

  /** The order of a list of options makes no difference if and only if no two options in it clash. */
  lemma OptionsCommute(c: Config, opts: seq<ClientOption>)
    ensures (forall p | multiset(p) == multiset(opts) :: ApplyOptions(c, p) == ApplyOptions(c, opts)) <==>
            Harmonious(opts)
  {
    if Harmonious(opts) {
      forall p | multiset(p) == multiset(opts)
        ensures ApplyOptions(c, p) == ApplyOptions(c, opts)
      {
        assert forall o :: o in p <==> o in multiset(p);
        assert forall o :: o in opts <==> o in multiset(opts);
        OptionsKeep(c, p);
        OptionsKeep(c, opts);
        HarmoniousLifetime(c, p);
        HarmoniousLifetime(c, opts);
        HarmoniousDoer(c, p);
        HarmoniousDoer(c, opts);
      }
    } else {
      var a, b :| a in opts && b in opts && Clash(a, b);
      var p := MoveLast(opts, a);
      var q := MoveLast(opts, b);
      LastWins(c, p, a);
      LastWins(c, q, b);
      assert ApplyOptions(c, p + [a]) != ApplyOptions(c, q + [b]);
    }
  }

  lemma LastWins(c: Config, init: seq<ClientOption>, o: ClientOption)
    ensures SetsLifetime(o) ==> ApplyOptions(c, init + [o]).defaultTtl == o.d
    ensures o.WithHTTPClient? ==> ApplyOptions(c, init + [o]).doer == o.doer.GetOr(DefaultClient)
  {
    assert (init + [o])[..|init|] == init;
  }

  /** The client has the given base URL; it skips the mix-up check if and only if some option says so; and the last
      positive lifetime and the last transport among its options are its own, or else one hour and the default. */
  ghost predicate Configured(base: Urls.Url, opts: seq<ClientOption>, c: Config) {
    && c.base == base
    && (c.relaxed <==> WithRelaxedMetadataValidation in opts)
    && (forall k | LastLifetime(opts, k) :: c.defaultTtl == opts[k].d)
    && ((forall o | o in opts :: !SetsLifetime(o)) ==> c.defaultTtl == 3_600_000_000_000)
    && (forall k | LastDoer(opts, k) :: c.doer == if opts[k].doer.None? then DefaultClient else opts[k].doer.value)
    && ((forall o | o in opts :: !o.WithHTTPClient?) ==> c.doer == DefaultClient)
  }

  predicate LastLifetime(opts: seq<ClientOption>, k: int) {
    0 <= k < |opts| && SetsLifetime(opts[k]) && forall j | k < j < |opts| :: !SetsLifetime(opts[j])
  }

  predicate LastDoer(opts: seq<ClientOption>, k: int) {
    0 <= k < |opts| && opts[k].WithHTTPClient? && forall j | k < j < |opts| :: !opts[j].WithHTTPClient?
  }

  lemma {:induction false} LifetimeOf(base: Urls.Url, opts: seq<ClientOption>)
    ensures var c := ApplyOptions(Defaults(base), opts);
            && (forall k | LastLifetime(opts, k) :: c.defaultTtl == opts[k].d)
            && ((forall o | o in opts :: !SetsLifetime(o)) ==> c.defaultTtl == 3_600_000_000_000)
  {
    if opts == [] {
    } else {
      var m := |opts| - 1;
      LifetimeOf(base, opts[..m]);
      assert opts == opts[..m] + [opts[m]] && opts[m] in opts;
      forall k | LastLifetime(opts, k)
        ensures ApplyOptions(Defaults(base), opts).defaultTtl == opts[k].d
      {
        assert k < m ==> LastLifetime(opts[..m], k) && !SetsLifetime(opts[m]);
      }
    }
  }

  lemma {:induction false} DoerOf(base: Urls.Url, opts: seq<ClientOption>)
    ensures var c := ApplyOptions(Defaults(base), opts);
            && (forall k | LastDoer(opts, k) ::
                  c.doer == if opts[k].doer.None? then DefaultClient else opts[k].doer.value)
            && ((forall o | o in opts :: !o.WithHTTPClient?) ==> c.doer == DefaultClient)
  {
    if opts == [] {
    } else {
      var m := |opts| - 1;
      DoerOf(base, opts[..m]);
      assert opts == opts[..m] + [opts[m]] && opts[m] in opts;
      forall k | LastDoer(opts, k)
        ensures ApplyOptions(Defaults(base), opts).doer ==
                if opts[k].doer.None? then DefaultClient else opts[k].doer.value
      {
        assert k < m ==> LastDoer(opts[..m], k) && !opts[m].WithHTTPClient?;
      }
    }
  }

  /** What a client made with these options is set to. */
  lemma MadeWith(base: Urls.Url, opts: seq<ClientOption>)
    ensures Configured(base, opts, ApplyOptions(Defaults(base), opts))
  {
    OptionsKeep(Defaults(base), opts);
    LifetimeOf(base, opts);
    DoerOf(base, opts);
  }

  // ----- One call -----

  datatype Call = Call(result: Result<Metadata.Document, FetchError>, cache: Option<Entry>)

  /** One call of FetchMetadata that no other call overlaps, when its answer would be judged so: the clock is read
      once for the expiry check, and once more when a fetched document is stored. */
  function CallEffect(judged: Result<Fetched, FetchError>, cache: Option<Entry>, checked: int, stored: int): Call {
    if cache.Some? && checked < cache.value.expires then Call(Ok(cache.value.doc), cache)
    else
      match judged
      case Err(e) => Call(Err(e), cache)
      case Ok(f) => Call(Ok(f.doc), Some(Entry(f.doc, stored + f.ttl)))
  }

  class Client {
    const baseURL: Urls.Url
    var doer: Doer
    var metaCache: Option<Entry>
    var metaDefaultTTL: int
    var metaRelaxedMixUp: bool

    function Settings(): Config
      reads this
    {
      Config(baseURL, doer, metaRelaxedMixUp, metaDefaultTTL)
    }

    constructor (base: Urls.Url, opts: seq<ClientOption>)
      ensures Settings() == ApplyOptions(Defaults(base), opts) && Configured(base, opts, Settings())
      ensures metaCache == None
    {
      baseURL := base;
      doer := DefaultClient;
      metaCache := None;
      metaDefaultTTL := HOUR;
      metaRelaxedMixUp := false;
      new;
      for i := 0 to |opts|
        invariant Settings() == ApplyOptions(Defaults(base), opts[..i]) && metaCache == None
      {
        Apply(opts[i]);
        assert opts[..i + 1][..i] == opts[..i];
      }
      assert opts[..|opts|] == opts;
      MadeWith(base, opts);
    }

    method Apply(o: ClientOption)
      modifies this`doer, this`metaDefaultTTL, this`metaRelaxedMixUp
      ensures Settings() == ApplyOption(old(Settings()), o)
    {
      match o {
        case WithMetadataTTL(d) =>
          if d <= 0 {
            return;
          }
          metaDefaultTTL := d;
        case WithRelaxedMetadataValidation =>
          metaRelaxedMixUp := true;
        case WithHTTPClient(d) =>
          if d.None? {
            doer := DefaultClient;
            return;
          }
          doer := d.value;
      }
    }

    /** fetchMetadataRaw. */
    method FetchRaw(a: Answer) returns (r: Result<Fetched, FetchError>)
      ensures r == Judge(Settings(), a)
    {
      if a.Failed? {
        return Err(Transport(a.msg));
      }
      if a.status < 200 || a.status >= 300 {
        return Err(Status(a.status));
      }
      if a.body.None? {
        return Err(Undecodable(a.status));
      }
      var doc := a.body.value;
      if !metaRelaxedMixUp {
        var expected := Text.TrimRight(baseURL.ToString(), '/');
        var got := Text.TrimRight(doc.policyDecisionPoint, '/');
        if expected != got {
          return Err(MixUp(expected, doc.policyDecisionPoint));
        }
      }
      var ttl := CacheControl.ParseMaxAge(a.cacheControl);
      if ttl == 0 {
        ttl := metaDefaultTTL;
      }
      return Ok(Fetched(doc, ttl));
    }

    method FetchMetadata(checked: int, a: Answer, stored: int) returns (r: Result<Metadata.Document, FetchError>)
      modifies this`metaCache
      ensures Call(r, metaCache) == CallEffect(Judge(Settings(), a), old(metaCache), checked, stored)
    {
      var cached := metaCache;
      if cached.Some? && checked < cached.value.expires {
        return Ok(cached.value.doc);
      }
      var fetched := FetchRaw(a);
      if fetched.Err? {
        return Err(fetched.error);
      }
      metaCache := Some(Entry(fetched.value.doc, stored + fetched.value.ttl));
      return Ok(fetched.value.doc);
    }
  }

  /** NewClient: None is a base URL that does not parse. */
  method NewClient(parsed: Option<Urls.Url>, opts: seq<ClientOption>) returns (c: Client?)
    ensures c != null <==> parsed.Some? && parsed.value.scheme != "" && parsed.value.host != ""
    ensures c != null ==>
              fresh(c) && c.metaCache == None && c.Settings() == ApplyOptions(Defaults(parsed.value), opts)
    ensures c != null ==>
              Configured(parsed.value, opts, Config(c.baseURL, c.doer, c.metaRelaxedMixUp, c.metaDefaultTTL))
  {
    if parsed.None? || parsed.value.scheme == "" || parsed.value.host == "" {
      return null;
    }
    c := new Client(parsed.value, opts);
  }
}
