/** The fetched page as the scraper sees it. BeautifulSoup's parse tree is
    replaced by the few things the scraper selects from it, and the HTTP
    session (retries, headers, cookies, the connectivity probe, the jittered
    sleep) by a function from URL to an optional response. */
module Page {
  import opened Wrappers
  import opened Text

  /** The first element a CSS selector matches: its text as
      `get_text(strip=True)` gives it, and its attributes. */
  datatype Element = Element(text: string, attrs: map<string, string>)

  /** One search-result card (`div[data-component-type="s-search-result"]`). */
  datatype Card = Card(
    linkHref: Option<string>,         // href of the standard product link, if that link has one
    titleParentHref: Option<string>,  // href of the title element's parent, if it has one
    asin: Option<string>,             // the card's `data-asin` attribute, if present
    anchors: seq<Option<string>>      // href of every `a` in the card, in document order
  )

  /** A parsed page: its result cards, the classes of the "next page"
      control (absent when there is none) and, per selector, the first
      element that selector matches. */
  datatype Doc = Doc(cards: seq<Card>, next: Option<seq<string>>, elements: map<string, Element>)

  /** A 2xx response: its body and the document parsed from it. */
  datatype Response = Response(body: string, doc: Doc)

  /** The transport: `None` when offline, on a non-2xx status or on a
      request exception. */
  type Fetcher = string -> Option<Response>

  /** The soft-block test of `_get_page`: the literal "Robot Check", or
      "captcha" once the body is lower-cased. */
  predicate IsSoftBlocked(body: string) {
    Contains(body, "Robot Check") || Contains(Lower(body), "captcha")
  }

  /** `_get_page`: the parsed document, or `None` when the fetch failed or
      the body is a verification page. */
  function GetPage(r: Option<Response>): Option<Doc> {
    match r
    case None => None
    case Some(resp) => if IsSoftBlocked(resp.body) then None else Some(resp.doc)
  }

  /** Seven characters at `i` spell "captcha" in some mix of letter cases. */
  predicate CaptchaAt(body: string, i: int) {
    0 <= i <= |body| - 7 && Lower(body[i..i + 7]) == "captcha"
  }

  /** A body is refused exactly when it holds "Robot Check" with that
      capitalisation, or "captcha" in any capitalisation. */
  lemma SoftBlockedIff(body: string)
    ensures IsSoftBlocked(body) <==> Contains(body, "Robot Check") || exists i :: CaptchaAt(body, i)
  {
    var low := Lower(body);
    if Contains(low, "captcha") {
      var i :| 0 <= i <= |low| - 7 && OccursAt(low, "captcha", i);
      LowerSlice(body, i, i + 7);
      assert CaptchaAt(body, i);
    }
    if exists i :: CaptchaAt(body, i) {
      var i :| CaptchaAt(body, i);
      LowerSlice(body, i, i + 7);
      assert OccursAt(low, "captcha", i);
    }
  }

  /** The capital-letter spelling is refused too. */
  lemma UpperCaptchaBlocked()
    ensures IsSoftBlocked("Please solve this CAPTCHA")
  {
    var body := "Please solve this CAPTCHA";
    LowerSlice(body, 18, 25);
    assert OccursAt(Lower(body), "captcha", 18);
  }

  /** The robot marker is case-sensitive: lower case passes. */
  lemma LowerRobotCheckPasses()
    ensures !IsSoftBlocked("robot check")
  {
    var body := "robot check";
    assert body[..11][0] != "Robot Check"[0];
    assert !OccursAt(body, "Robot Check", 0);
    forall i | 0 <= i <= 4
      ensures !OccursAt(Lower(body), "captcha", i)
    {
      assert Lower(body)[i..i + 7][0] == LowerChar(body[i]) != 'c';
    }
  }
}
