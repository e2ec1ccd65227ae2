/**
 * The argument checks at the top of `scrape_wikipedia` (app.py:14-20) and the four ways the
 * handler can fail (app.py:17, 20, 26, 38).
 */
module Request {
  import opened Wrappers
  import opened Text

  datatype ScrapeError =
    | MissingUrl               // no `url` query parameter, or an empty one
    | InvalidUrl               // `url` does not mention the Wikipedia domain
    | FetchFailed(reason: string)   // the HTTP client raised; `reason` is its message
    | ContentNotFound          // the page has no `div#mw-content-text`

  const Domain: string := "wikipedia.org"

  /** The `error` text of the JSON body returned for `e`. */
  function Message(e: ScrapeError): string {
    match e
    case MissingUrl => "Missing 'url' parameter. Please provide a Wikipedia page URL."
    case InvalidUrl => "Invalid URL. Only Wikipedia URLs are supported."
    case FetchFailed(reason) => "Failed to fetch page: " + reason
    case ContentNotFound => "Could not find main content div on the page."
  }

  /**
   * The three fixed `error` texts are different from one another, two fetch failures have
   * the same text exactly when the exceptions' texts agree, and that text ends with the
   * exception's own.
   */
  lemma {:induction false} MessageIdentifiesError(e1: ScrapeError, e2: ScrapeError)
    ensures !e1.FetchFailed? && !e2.FetchFailed? ==> (Message(e1) == Message(e2) <==> e1 == e2)
    ensures e1.FetchFailed? && e2.FetchFailed? ==> (Message(e1) == Message(e2) <==> e1.reason == e2.reason)
    ensures e1.FetchFailed? ==>
              |e1.reason| <= |Message(e1)| && Message(e1)[|Message(e1)| - |e1.reason|..] == e1.reason
  {
    if e1.FetchFailed? {
      var m := Message(e1);
      assert m == "Failed to fetch page: " + e1.reason;
      assert m[|m| - |e1.reason|..] == e1.reason;
      if e2.FetchFailed? && m == Message(e2) {
        assert |e2.reason| == |e1.reason|;
        assert e2.reason == Message(e2)[|m| - |e2.reason|..];
      }
    }
  }

  /**
   * A missing or empty `url` is refused first, then one in which the Wikipedia domain does
   * not occur (app.py:16-20); an accepted URL is returned unchanged.
   */
  function ValidateUrl(url: Option<string>): (r: Result<string, ScrapeError>)
    ensures r == Failure(MissingUrl) <==> url == None || url == Some("")
    ensures r == Failure(InvalidUrl) <==>
              url.Some? && url.value != "" && !exists i :: OccursAt(Domain, url.value, i)
    ensures r.Success? <==> url.Some? && exists i :: OccursAt(Domain, url.value, i)
    ensures r.Success? ==> url == Some(r.value)
  {
    match url
    case None => Failure(MissingUrl)
    case Some(u) =>
      if u == "" then Failure(MissingUrl)
      else if !Contains(u, Domain) then Failure(InvalidUrl)
      else Success(u)
  }
}
