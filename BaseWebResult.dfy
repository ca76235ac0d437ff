/**
 * `BaseWebResult`: the outcome of an HTTP request made by an indexer, and
 * whether the client has to follow it elsewhere.
 */
module BaseWebResult {
  import opened NetStrings

  // The HttpStatusCode members the predicate names, by value.
  const MovedPermanently: int := 301
  const Redirect: int := 302
  const Found: int := 302
  const RedirectMethod: int := 303
  const RedirectKeepVerb: int := 307

  /**
   * The redirection codes of section 6.4 of RFC 7231 that carry a Location
   * a client is told to follow: 301 Moved Permanently, 302 Found,
   * 303 See Other and 307 Temporary Redirect.
   */
  const FollowedRedirections: set<int> := {301, 302, 303, 307}

  datatype WebResult = WebResult(status: int, cookies: Text, redirectingTo: Text)
  {
    /**
     * The `IsRedirect` property: a disjunction over the status alone, true
     * exactly for the four codes of section 6.4 of RFC 7231.
     */
    function IsRedirect(): (r: bool)
      ensures r <==> status in FollowedRedirections
    {
      status == Redirect || status == RedirectKeepVerb || status == RedirectMethod
      || status == Found || status == MovedPermanently
    }
  }

  /** 200 OK, 304 Not Modified and 308 Permanent Redirect are not followed. */
  lemma OtherStatusesAreNotRedirects(w: WebResult)
    requires w.status in {200, 304, 308}
    ensures !w.IsRedirect()
  {
  }

  /** The cookies and the redirect target play no part in the decision. */
  lemma IsRedirectDependsOnStatusOnly(a: WebResult, b: WebResult)
    requires a.status == b.status
    ensures a.IsRedirect() == b.IsRedirect()
  {
  }
}
