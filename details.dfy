/** `EcommerceScraper.scrape_product_details` and `_extract_text`: read one
    product page into a product record. Each field is taken from a list of
    CSS selectors (the source's comma-separated selector strings, already
    split and stripped), the first one that yields a usable value winning. */
module DetailExtractor {
  import opened Wrappers
  import opened Text
  import opened Page

  /** The price field: a number when `float` accepted the filtered price
      text, or the filtered text itself when it did not (the source keeps
      the string it failed to convert). */
  datatype Price = Amount(value: real) | Unparsed(text: string)

  /** The product record `scrape_product_details` builds. The `scraped_at`
      timestamp is not part of this model. */
  datatype Product = Product(
    name: string,
    price: Price,
    description: string,
    rating: real,
    imageUrl: Option<string>,
    url: string,
    source: string
  )

  const NameSelectors: seq<string> := ["#productTitle"]
  const PriceSelectors: seq<string> := [".a-price .a-offscreen"]
  const DescriptionSelectors: seq<string> := ["#productDescription", "#feature-bullets"]
  const RatingSelectors: seq<string> := [".a-star-rating-wrapper .a-icon-alt", ".a-icon-star-small .a-icon-alt"]
  const ImageSelector := "#landingImage"

  const UnknownName := "Unknown Product"
  const Source := "amazon"

  /** `_extract_text`: the stripped text of the first element the selector
      matches, or the empty string when it matches none. */
  function ExtractText(doc: Doc, selector: string): (text: string)
    ensures selector !in doc.elements ==> text == ""
  {
    if selector in doc.elements then doc.elements[selector].text else ""
  }

  // ---------------------------------------------------------------- name

  /** The text of the first selector that matches an element at all, even
      when that text is empty. */
  function NameFrom(doc: Doc, selectors: seq<string>): Option<string> {
    if selectors == [] then None
    else if selectors[0] in doc.elements then Some(doc.elements[selectors[0]].text)
    else NameFrom(doc, selectors[1..])
  }

  function ProductName(doc: Doc): string {
    match NameFrom(doc, NameSelectors)
    case Some(n) => if n != "" then n else UnknownName
    case None => UnknownName
  }

  /** The name is the title's text when the title is present and not
      empty, and "Unknown Product" otherwise; it is never empty. */
  lemma ProductNameCases(doc: Doc)
    ensures var t := "#productTitle";
            ProductName(doc) == if t in doc.elements && doc.elements[t].text != "" then doc.elements[t].text
                                else UnknownName
    ensures ProductName(doc) != ""
  {
    assert NameSelectors[0] == "#productTitle";
    assert NameFrom(doc, NameSelectors[1..]) == None;
  }

  // --------------------------------------------------------------- price

  /** The price filter: the characters of `s` that are digits or dots, in
      order. */
  function NumberChars(s: string): (r: string)
    ensures AllNumberChars(r)
  {
    if s == [] then []
    else (if IsNumberChar(s[0]) then [s[0]] else []) + NumberChars(s[1..])
  }

  /** A string made only of digits and dots passes the filter unchanged. */
  lemma {:induction false} NumberCharsKeeps(s: string)
    requires AllNumberChars(s)
    ensures NumberChars(s) == s
  {
    if s != [] {
      NumberCharsKeeps(s[1..]);
      assert [s[0]] + s[1..] == s;
    }
  }

  /** Filtering twice is filtering once. */
  lemma NumberCharsIdempotent(s: string)
    ensures NumberChars(NumberChars(s)) == NumberChars(s)
  {
    NumberCharsKeeps(NumberChars(s));
  }

  /** The price loop: from the first selector with non-empty text, the
      filtered text converted by `float`; a failed conversion leaves the
      filtered text as the price and tries the next selector. `found` is
      the price before this selector. */
  function PriceFrom(doc: Doc, selectors: seq<string>, found: Option<Price>): Option<Price> {
    if selectors == [] then found
    else
      var text := ExtractText(doc, selectors[0]);
      if text == "" then PriceFrom(doc, selectors[1..], found)
      else
        var digits := NumberChars(text);
        match ParseDecimal(digits)
        case Some(v) => Some(Amount(v))
        case None => PriceFrom(doc, selectors[1..], Some(Unparsed(digits)))
  }

  /** The price field: 0.0 when no selector had any text. */
  function ProductPrice(doc: Doc): Price {
    PriceFrom(doc, PriceSelectors, None).GetOr(Amount(0.0))
  }

  /** With its one selector, the price is 0.0 when there is no price
      text, the value `float` gives for the text's digits and dots when it
      accepts them, and those digits and dots as a string otherwise. */
  lemma ProductPriceCases(doc: Doc)
    ensures var text := ExtractText(doc, ".a-price .a-offscreen");
            var digits := NumberChars(text);
            ProductPrice(doc) == if text == "" then Amount(0.0)
                                 else if ParseDecimal(digits).Some? then Amount(ParseDecimal(digits).value)
                                 else Unparsed(digits)
  {
    assert PriceSelectors[0] == ".a-price .a-offscreen";
    assert PriceSelectors[1..] == [];
    var text := ExtractText(doc, PriceSelectors[0]);
    if text == "" {
      assert PriceFrom(doc, PriceSelectors, None) == PriceFrom(doc, [], None);
    } else if ParseDecimal(NumberChars(text)).None? {
      assert PriceFrom(doc, PriceSelectors, None) == PriceFrom(doc, [], Some(Unparsed(NumberChars(text))));
    }
  }

  /** A numeric price is never negative. */
  lemma ProductPriceNonNegative(doc: Doc)
    ensures ProductPrice(doc).Amount? ==> ProductPrice(doc).value >= 0.0
  {
    ProductPriceCases(doc);
    ParseDecimalDefined(NumberChars(ExtractText(doc, ".a-price .a-offscreen")));
  }

  /** The price is kept as a string exactly when there is price text whose
      digits and dots are not a number: no digit at all, or a second dot. */
  lemma ProductPriceUnparsedIff(doc: Doc)
    ensures var text := ExtractText(doc, ".a-price .a-offscreen");
            var digits := NumberChars(text);
            ProductPrice(doc).Unparsed? <==> text != "" && (!HasDigit(digits) || multiset(digits)['.'] > 1)
  {
    ProductPriceCases(doc);
    ParseDecimalDefined(NumberChars(ExtractText(doc, ".a-price .a-offscreen")));
  }

  /** Price text without a single digit or dot, such as "Currently
      unavailable", leaves the empty string as the price, not 0.0. */
  lemma TextOnlyPriceKept(doc: Doc)
    requires var text := ExtractText(doc, ".a-price .a-offscreen");
             text != "" && forall i :: 0 <= i < |text| ==> !IsNumberChar(text[i])
    ensures ProductPrice(doc) == Unparsed("")
  {
    var text := ExtractText(doc, ".a-price .a-offscreen");
    NoNumberCharsPrefix(text, |text|);
    ProductPriceCases(doc);
  }

  /** Dropping a prefix without digits or dots does not change the filter. */
  lemma {:induction false} NoNumberCharsPrefix(s: string, k: nat)
    requires k <= |s| && forall i :: 0 <= i < k ==> !IsNumberChar(s[i])
    ensures NumberChars(s) == NumberChars(s[k..])
  {
    if k > 0 {
      assert s[1..][k - 1..] == s[k..];
      NoNumberCharsPrefix(s[1..], k - 1);
    }
  }

  // --------------------------------------------------------- description

  /** The description loop: the first non-empty text, or "" when every
      selector's text is empty. */
  function FirstNonEmpty(doc: Doc, selectors: seq<string>): string {
    if selectors == [] then ""
    else
      var text := ExtractText(doc, selectors[0]);
      if text != "" then text else FirstNonEmpty(doc, selectors[1..])
  }

  /** The description is the text of the first selector whose text is not
      empty, and empty exactly when all of them are. */
  lemma {:induction false} FirstNonEmptyIsFirst(doc: Doc, selectors: seq<string>)
    ensures var d := FirstNonEmpty(doc, selectors);
            && (d == "" <==> forall k :: 0 <= k < |selectors| ==> ExtractText(doc, selectors[k]) == "")
            && (d != "" ==> exists k :: 0 <= k < |selectors| && ExtractText(doc, selectors[k]) == d
                                        && forall j :: 0 <= j < k ==> ExtractText(doc, selectors[j]) == "")
  {
    if selectors != [] && ExtractText(doc, selectors[0]) == "" {
      var tail := selectors[1..];
      FirstNonEmptyIsFirst(doc, tail);
      assert forall k :: 1 <= k < |selectors| ==> selectors[k] == tail[k - 1];
      if FirstNonEmpty(doc, tail) != "" {
        var k :| 0 <= k < |tail| && ExtractText(doc, tail[k]) == FirstNonEmpty(doc, tail)
                 && forall j :: 0 <= j < k ==> ExtractText(doc, tail[j]) == "";
        assert selectors[k + 1] == tail[k];
      }
    }
  }

  function ProductDescription(doc: Doc): string {
    FirstNonEmpty(doc, DescriptionSelectors)
  }

  // -------------------------------------------------------------- rating

  /** The maximal run of digits and dots at the start of `s`. */
  function RunFrom(s: string): (r: string)
    ensures |r| <= |s| && r == s[..|r|] && AllNumberChars(r)
    ensures |r| < |s| ==> !IsNumberChar(s[|r|])
  {
    if s != [] && IsNumberChar(s[0]) then [s[0]] + RunFrom(s[1..]) else []
  }

  /** `re.search(r'([0-9.]+)', s).group(1)`: the leftmost maximal run of
      digits and dots, if any. */
  function FirstRun(s: string): (r: Option<string>)
    ensures r.Some? ==> |r.value| > 0 && AllNumberChars(r.value)
  {
    if s == [] then None
    else if IsNumberChar(s[0]) then Some(RunFrom(s))
    else FirstRun(s[1..])
  }

  /** The match is found exactly when `s` has a digit or a dot; it starts at
      the first such character and runs as far as they go. */
  lemma {:induction false} FirstRunIsLeftmost(s: string)
    ensures FirstRun(s).None? <==> forall i :: 0 <= i < |s| ==> !IsNumberChar(s[i])
    ensures FirstRun(s).Some? ==>
              exists i :: 0 <= i < |s| && IsNumberChar(s[i])
                          && (forall j :: 0 <= j < i ==> !IsNumberChar(s[j]))
                          && FirstRun(s).value == RunFrom(s[i..])
  {
    if s != [] && !IsNumberChar(s[0]) {
      var tail := s[1..];
      FirstRunIsLeftmost(tail);
      assert forall i :: 1 <= i < |s| ==> s[i] == tail[i - 1];
      if FirstRun(tail).Some? {
        var i :| 0 <= i < |tail| && IsNumberChar(tail[i])
                 && (forall j :: 0 <= j < i ==> !IsNumberChar(tail[j]))
                 && FirstRun(tail).value == RunFrom(tail[i..]);
        assert s[i + 1..] == tail[i..];
        assert IsNumberChar(s[i + 1]);
      }
    } else if s != [] {
      assert s[0..] == s;
    }
  }

  /** Ratings above 5 are read as percentages and brought to a 5-star
      scale. */
  function Rescale(v: real): real {
    if v > 5.0 then v / 20.0 else v
  }

  /** The rescaled rating of a non-negative reading is within 0..5 exactly
      when the reading is at most 100; nothing clamps larger readings. */
  lemma RescaleRange(v: real)
    requires v >= 0.0
    ensures Rescale(v) >= 0.0
    ensures Rescale(v) <= 5.0 <==> v <= 100.0
    ensures v <= 5.0 ==> Rescale(v) == v
  {
  }

  /** The rating loop: for the first selector whose text holds a run that
      `float` accepts, that value rescaled; selectors without text, without
      a run or with a run `float` refuses are skipped. */
  function RatingFrom(doc: Doc, selectors: seq<string>): Option<real> {
    if selectors == [] then None
    else
      var text := ExtractText(doc, selectors[0]);
      var run := FirstRun(text);
      if text != "" && run.Some? && ParseDecimal(run.value).Some? then
        Some(Rescale(ParseDecimal(run.value).value))
      else RatingFrom(doc, selectors[1..])
  }

  /** Every rating found is a rescaled non-negative reading, hence never
      negative. */
  lemma {:induction false} RatingFromNonNegative(doc: Doc, selectors: seq<string>)
    ensures var r := RatingFrom(doc, selectors);
            r.Some? ==> r.value >= 0.0
  {
    if selectors != [] {
      var run := FirstRun(ExtractText(doc, selectors[0]));
      if run.Some? {
        ParseDecimalDefined(run.value);
      }
      RatingFromNonNegative(doc, selectors[1..]);
    }
  }

  /** The rating field: 0.0 when no selector gave one. */
  function ProductRating(doc: Doc): (r: real) {
    RatingFrom(doc, RatingSelectors).GetOr(0.0)
  }

  /** A rating is never negative. */
  lemma ProductRatingNonNegative(doc: Doc)
    ensures ProductRating(doc) >= 0.0
  {
    RatingFromNonNegative(doc, RatingSelectors);
  }

  /** A run followed by something that is not a digit or a dot is the
      whole leading run. */
  lemma {:induction false} RunFromPrefix(run: string, rest: string)
    requires AllNumberChars(run)
    requires rest == [] || !IsNumberChar(rest[0])
    ensures RunFrom(run + rest) == run
  {
    if run != [] {
      assert (run + rest)[1..] == run[1..] + rest;
      RunFromPrefix(run[1..], rest);
    } else {
      assert run + rest == rest;
    }
  }

  /** First rating text that starts with a number `float` accepts, then
      something else: the rating is that number, rescaled. */
  lemma LeadingNumberRating(doc: Doc, run: string, rest: string)
    requires RatingSelectors[0] in doc.elements
    requires doc.elements[RatingSelectors[0]].text == run + rest
    requires run != [] && AllNumberChars(run) && (rest == [] || !IsNumberChar(rest[0]))
    requires ParseDecimal(run).Some?
    ensures ProductRating(doc) == Rescale(ParseDecimal(run).value)
  {
    RunFromPrefix(run, rest);
    assert (run + rest)[0] == run[0];
  }

  /** "4.5 out of 5 stars" in the first rating element reads as 4.5. */
  lemma StarTextRating(doc: Doc)
    requires RatingSelectors[0] in doc.elements
    requires doc.elements[RatingSelectors[0]].text == "4.5 out of 5 stars"
    ensures ProductRating(doc) == 4.5
  {
    StarTextSplit();
    ParseFourPointFive();
    LeadingNumberRating(doc, "4.5", " out of 5 stars");
  }

  lemma StarTextSplit()
    ensures "4.5 out of 5 stars" == "4.5" + " out of 5 stars"
    ensures AllNumberChars("4.5") && !IsNumberChar(" out of 5 stars"[0])
  {
  }

  lemma ParseFourPointFive()
    ensures ParseDecimal("4.5") == Some(4.5)
  {
    assert IndexOf("4.5", '.') == 1;
    assert "4.5"[..1] == "4" && "4.5"[2..] == "5";
  }

  /** A percentage such as "90%" is rescaled: 90 / 20 = 4.5. */
  lemma PercentRating(doc: Doc)
    requires RatingSelectors[0] in doc.elements
    requires doc.elements[RatingSelectors[0]].text == "90%"
    ensures ProductRating(doc) == 4.5
  {
    assert "90%" == "90" + "%";
    assert ParseDecimal("90") == Some(90.0) by {
      assert '.' !in "90";
      assert "90"[..1] == "9" && "9"[..0] == "";
    }
    LeadingNumberRating(doc, "90", "%");
  }

  // --------------------------------------------------------------- image

  /** The `src` of the landing image, when it has one. */
  function ProductImage(doc: Doc): Option<string> {
    if ImageSelector in doc.elements && "src" in doc.elements[ImageSelector].attrs then
      Some(doc.elements[ImageSelector].attrs["src"])
    else None
  }

  // -------------------------------------------------------------- record

  /** The record built from a parsed product page. */
  function ProductOf(doc: Doc, url: string): Product {
    Product(ProductName(doc), ProductPrice(doc), ProductDescription(doc), ProductRating(doc),
            ProductImage(doc), url, Source)
  }

  /** `scrape_product_details`: no record when the page could not be
      fetched or was a verification page. */
  function ProductDetails(fetch: Fetcher, url: string): Option<Product> {
    match GetPage(fetch(url))
    case None => None
    case Some(doc) => Some(ProductOf(doc, url))
  }

  /** A record keeps the URL it was read from, comes from "amazon", has a
      name, and a rating that is not negative. */
  lemma ProductDetailsFields(fetch: Fetcher, url: string)
    ensures ProductDetails(fetch, url).None? <==> GetPage(fetch(url)).None?
    ensures var p := ProductDetails(fetch, url);
            p.Some? ==> p.value.url == url && p.value.source == Source && p.value.name != ""
                        && p.value.rating >= 0.0
  {
    if GetPage(fetch(url)).Some? {
      var doc := GetPage(fetch(url)).value;
      ProductNameCases(doc);
      ProductRatingNonNegative(doc);
    }
  }

  /** A page with none of the selected elements gives the default record. */
  lemma EmptyPageDefaults(url: string)
    ensures ProductOf(Doc([], None, map[]), url)
            == Product(UnknownName, Amount(0.0), "", 0.0, None, url, Source)
  {
    var doc := Doc([], None, map[]);
    assert DescriptionSelectors[1..][1..] == [];
    assert RatingSelectors[1..][1..] == [];
    assert PriceSelectors[1..] == [];
    assert NameSelectors[1..] == [];
  }

  // ------------------------------------------------------------- methods

  /** The name loop. */
  method ExtractName(doc: Doc) returns (name: string)
    ensures name == ProductName(doc)
  {
    var found: Option<string> := None;
    var i := 0;
    while i < |NameSelectors|
      invariant 0 <= i <= |NameSelectors|
      invariant found.None? ==> NameFrom(doc, NameSelectors[i..]) == NameFrom(doc, NameSelectors)
      invariant found.Some? ==> found == NameFrom(doc, NameSelectors)
    {
      var selector := NameSelectors[i];
      if selector in doc.elements {
        found := Some(doc.elements[selector].text);
        break;
      }
      assert NameSelectors[i..][1..] == NameSelectors[i + 1..];
      i := i + 1;
    }
    name := if found.Some? && found.value != "" then found.value else UnknownName;
  }

  /** The price loop. */
  method ExtractPrice(doc: Doc) returns (price: Price)
    ensures price == ProductPrice(doc)
  {
    var found: Option<Price> := None;
    var i := 0;
    while i < |PriceSelectors|
      invariant 0 <= i <= |PriceSelectors|
      invariant PriceFrom(doc, PriceSelectors[i..], found) == PriceFrom(doc, PriceSelectors, None)
    {
      var text := ExtractText(doc, PriceSelectors[i]);
      assert PriceSelectors[i..][1..] == PriceSelectors[i + 1..];
      if text != "" {
        var digits := NumberChars(text);
        var value := ParseDecimal(digits);
        if value.Some? {
          found := Some(Amount(value.value));
          assert PriceFrom(doc, PriceSelectors[i..], None) == found;
          break;
        }
        found := Some(Unparsed(digits));
      }
      i := i + 1;
    }
    price := found.GetOr(Amount(0.0));
  }

  /** The description loop: each selector's text overwrites the previous
      one until one is not empty. */
  method ExtractDescription(doc: Doc) returns (description: string)
    ensures description == ProductDescription(doc)
  {
    description := "";
    var i := 0;
    assert DescriptionSelectors[0..] == DescriptionSelectors;
    while i < |DescriptionSelectors|
      invariant 0 <= i <= |DescriptionSelectors|
      invariant description == ""
      invariant FirstNonEmpty(doc, DescriptionSelectors[i..]) == ProductDescription(doc)
    {
      ghost var rest := DescriptionSelectors[i..];
      assert rest[0] == DescriptionSelectors[i] && rest[1..] == DescriptionSelectors[i + 1..];
      description := ExtractText(doc, DescriptionSelectors[i]);
      if description != "" {
        break;
      }
      i := i + 1;
    }
    assert i == |DescriptionSelectors| ==> DescriptionSelectors[i..] == [];
  }

  /** The rating loop. */
  method ExtractRating(doc: Doc) returns (rating: real)
    ensures rating == ProductRating(doc)
  {
    var found: Option<real> := None;
    var i := 0;
    while i < |RatingSelectors|
      invariant 0 <= i <= |RatingSelectors|
      invariant found.None? ==> RatingFrom(doc, RatingSelectors[i..]) == RatingFrom(doc, RatingSelectors)
      invariant found.Some? ==> found == RatingFrom(doc, RatingSelectors)
    {
      var text := ExtractText(doc, RatingSelectors[i]);
      assert RatingSelectors[i..][1..] == RatingSelectors[i + 1..];
      if text != "" {
        var run := FirstRun(text);
        if run.Some? {
          var value := ParseDecimal(run.value);
          if value.Some? {
            var r := value.value;
            if r > 5.0 {
              r := r / 20.0;
            }
            found := Some(r);
            break;
          }
        }
      }
      i := i + 1;
    }
    rating := found.GetOr(0.0);
  }

  /** `scrape_product_details`. */
  method ScrapeProductDetails(fetch: Fetcher, url: string) returns (product: Option<Product>)
    ensures product == ProductDetails(fetch, url)
  {
    var soup := GetPage(fetch(url));
    if soup.None? {
      return None;
    }
    var doc := soup.value;
    var name := ExtractName(doc);
    var price := ExtractPrice(doc);
    var description := ExtractDescription(doc);
    var rating := ExtractRating(doc);
    var imageUrl := ProductImage(doc);
    product := Some(Product(name, price, description, rating, imageUrl, url, Source));
  }
}
