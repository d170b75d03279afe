/** Absolute URLs and the joining of endpoint paths, as the client and the server each do it. */
module Urls {
  import Text

  /** A parsed absolute URL without query or fragment. */
  datatype Url = Url(scheme: string, host: string, path: string) {
    /** What the URL parser yields and NewClient accepts. */
    predicate Valid() {
      && scheme != "" && host != "" && '/' !in host
      && (path == "" || path[0] == '/')
    }

    function Origin(): string {
      scheme + "://" + host
    }

    function ToString(): string {
      Origin() + path
    }
  }

  /** Client.endpointURL. */
  function EndpointUrl(base: Url, p: string): string {
    base.(path := Text.TrimRight(base.path, '/') + p).ToString()
  }

  /** How the server joins: on the text of the URL. */
  function Join(pdpUrl: string, p: string): string {
    Text.TrimRight(pdpUrl, '/') + p
  }

  /** Two URL texts that differ at most in trailing slashes. */
  predicate SamePdp(a: string, b: string) {
    Text.TrimRight(a, '/') == Text.TrimRight(b, '/')
  }

  /** Trimming the text of a valid URL is trimming its path: the origin survives. */
  lemma TrimUrl(u: Url)
    requires u.Valid()
    ensures Text.TrimRight(u.ToString(), '/') == u.Origin() + Text.TrimRight(u.path, '/')
  {
    assert u.Origin()[|u.Origin()| - 1] == u.host[|u.host| - 1];
    assert u.host[|u.host| - 1] in u.host;
    Text.TrimRightAppend(u.Origin(), u.path, '/');
  }

  /** The client's URL for an endpoint: the base URL without the slashes at its end, and then the path. */
  lemma CallUrl(scheme: string, host: string, path: string, slashes: string, p: string)
    requires path == "" || path[|path| - 1] != '/'
    requires forall c | c in slashes :: c == '/'
    ensures EndpointUrl(Url(scheme, host, path + slashes), p) == scheme + "://" + host + path + p
  {
    var whole := path + slashes;
    forall i | |path| <= i < |whole|
      ensures whole[i] == '/'
    {
      assert whole[i] == slashes[i - |path|] && whole[i] in slashes;
    }
    Text.TrimRightUnique(whole, '/', path);
    assert scheme + "://" + host + (path + p) == scheme + "://" + host + path + p;
  }

  /** Both sides build the same endpoint URL exactly when they mean the same PDP modulo trailing slashes. */
  lemma EndpointAgreement(base: Url, pdpUrl: string, p: string)
    requires base.Valid()
    ensures Join(pdpUrl, p) == EndpointUrl(base, p) <==> SamePdp(base.ToString(), pdpUrl)
  {
    TrimUrl(base);
    var mine := base.Origin() + Text.TrimRight(base.path, '/');
    assert EndpointUrl(base, p) == mine + p by {
      assert base.Origin() + (Text.TrimRight(base.path, '/') + p) == mine + p;
    }
    var theirs := Text.TrimRight(pdpUrl, '/');
    if theirs + p == mine + p {
      assert |theirs| == |mine|;
      assert theirs == (theirs + p)[..|theirs|] == (mine + p)[..|mine|] == mine;
    }
  }
}
