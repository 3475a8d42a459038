/** `EcommerceScraper.scrape_product_links`: walk the result pages of one
    category and collect one candidate product URL per card. */
module LinkExtractor {
  import opened Wrappers
  import opened Text
  import opened Page

  /** The scraper's `base_url`, and `urljoin`, which resolves a reference
      against a base (section 5.2 of RFC 3986) and is not modelled here. */
  datatype Config = Config(baseUrl: string, urljoin: (string, string) -> string)

  /** Pagination stops once this many links were collected. */
  const LinkLimit: nat := 200

  /** Product URLs built from a card's `data-asin` start with this. */
  const AsinPrefix := "https://www.amazon.com/dp/"

  function Resolve(cfg: Config, href: string): string {
    cfg.urljoin(cfg.baseUrl, href)
  }

  /** An anchor the last strategy accepts: it has an href that mentions a
      product path. */
  predicate IsProductAnchor(a: Option<string>) {
    a.Some? && (Contains(a.value, "/dp/") || Contains(a.value, "/gp/product/"))
  }

  /** The href of the first anchor the last strategy accepts. */
  function FirstProductAnchor(anchors: seq<Option<string>>): Option<string> {
    if anchors == [] then None
    else if IsProductAnchor(anchors[0]) then anchors[0]
    else FirstProductAnchor(anchors[1..])
  }

  /** The last strategy takes the first accepted anchor, and finds nothing
      only when no anchor is accepted. */
  lemma {:induction false} FirstProductAnchorIsFirst(anchors: seq<Option<string>>)
    ensures var r := FirstProductAnchor(anchors);
            && (r.None? <==> forall i :: 0 <= i < |anchors| ==> !IsProductAnchor(anchors[i]))
            && (r.Some? ==> exists i :: 0 <= i < |anchors| && anchors[i] == r && IsProductAnchor(r)
                                        && forall j :: 0 <= j < i ==> !IsProductAnchor(anchors[j]))
  {
    if anchors != [] && !IsProductAnchor(anchors[0]) {
      var tail := anchors[1..];
      FirstProductAnchorIsFirst(tail);
      assert forall i :: 1 <= i < |anchors| ==> anchors[i] == tail[i - 1];
      if FirstProductAnchor(tail).Some? {
        var i :| 0 <= i < |tail| && tail[i] == FirstProductAnchor(tail) && IsProductAnchor(tail[i])
                 && forall j :: 0 <= j < i ==> !IsProductAnchor(tail[j]);
        assert anchors[i + 1] == tail[i];
      }
    }
  }

  /** The four ways a card can yield a link, highest priority first. */
  datatype Strategy = StandardLink | TitleLink | AsinLink | AnyProductLink

  const Strategies: seq<Strategy> := [StandardLink, TitleLink, AsinLink, AnyProductLink]

  /** What one strategy, tried on its own, makes of a card. The ASIN link
      is built from a fixed prefix and is not resolved against `base_url`. */
  function Candidate(cfg: Config, card: Card, s: Strategy): Option<string> {
    match s
    case StandardLink => if card.linkHref.Some? then Some(Resolve(cfg, card.linkHref.value)) else None
    case TitleLink => if card.titleParentHref.Some? then Some(Resolve(cfg, card.titleParentHref.value)) else None
    case AsinLink => if card.asin.Some? && card.asin.value != "" then Some(AsinPrefix + card.asin.value) else None
    case AnyProductLink =>
      match FirstProductAnchor(card.anchors)
      case Some(h) => Some(Resolve(cfg, h))
      case None => None
  }

  /** The candidate of the first strategy in `ss` that yields one. */
  function FirstApplicable(cfg: Config, card: Card, ss: seq<Strategy>): Option<string> {
    if ss == [] then None
    else if Candidate(cfg, card, ss[0]).Some? then Candidate(cfg, card, ss[0])
    else FirstApplicable(cfg, card, ss[1..])
  }

  /** The chain's result is the candidate of the first strategy that yields
      one, and nothing when none does. */
  lemma {:induction false} FirstApplicableIsFirst(cfg: Config, card: Card, ss: seq<Strategy>)
    ensures var r := FirstApplicable(cfg, card, ss);
            && (r.None? <==> forall k :: 0 <= k < |ss| ==> Candidate(cfg, card, ss[k]).None?)
            && (r.Some? ==> exists k :: 0 <= k < |ss| && Candidate(cfg, card, ss[k]) == r
                                        && forall j :: 0 <= j < k ==> Candidate(cfg, card, ss[j]).None?)
  {
    if ss != [] && Candidate(cfg, card, ss[0]).None? {
      var tail := ss[1..];
      FirstApplicableIsFirst(cfg, card, tail);
      assert forall k :: 1 <= k < |ss| ==> ss[k] == tail[k - 1];
      if FirstApplicable(cfg, card, tail).Some? {
        var k :| 0 <= k < |tail| && Candidate(cfg, card, tail[k]) == FirstApplicable(cfg, card, tail)
                 && forall j :: 0 <= j < k ==> Candidate(cfg, card, tail[j]).None?;
        assert ss[k + 1] == tail[k];
      }
    }
  }

  /** The link one card contributes: that of the first strategy, in the
      source's order, that applies. */
  function CardLink(cfg: Config, card: Card): Option<string> {
    FirstApplicable(cfg, card, Strategies)
  }

  /** The priority order spelled out on the card's fields: a standard link
      wins, then the title's parent, then a non-empty ASIN, then the first
      product anchor; a card none applies to contributes nothing. */
  lemma CardLinkPriority(cfg: Config, card: Card)
    ensures card.linkHref.Some? ==> CardLink(cfg, card) == Some(Resolve(cfg, card.linkHref.value))
    ensures card.linkHref.None? && card.titleParentHref.Some? ==>
              CardLink(cfg, card) == Some(Resolve(cfg, card.titleParentHref.value))
    ensures card.linkHref.None? && card.titleParentHref.None? && card.asin.Some? && card.asin.value != "" ==>
              CardLink(cfg, card) == Some(AsinPrefix + card.asin.value)
    ensures card.linkHref.None? && card.titleParentHref.None? && (card.asin.None? || card.asin.value == "") ==>
              CardLink(cfg, card) == match FirstProductAnchor(card.anchors)
                                     case Some(h) => Some(Resolve(cfg, h))
                                     case None => None
  {
    var s1: seq<Strategy> := [TitleLink, AsinLink, AnyProductLink];
    var s2: seq<Strategy> := [AsinLink, AnyProductLink];
    var s3: seq<Strategy> := [AnyProductLink];
    assert s3[1..] == [];
    assert FirstApplicable(cfg, card, s3) == Candidate(cfg, card, AnyProductLink);
    assert s2[1..] == s3;
    var c := Candidate(cfg, card, AsinLink);
    assert FirstApplicable(cfg, card, s2) == if c.Some? then c else FirstApplicable(cfg, card, s3);
    assert s1[1..] == s2;
    c := Candidate(cfg, card, TitleLink);
    assert FirstApplicable(cfg, card, s1) == if c.Some? then c else FirstApplicable(cfg, card, s2);
    assert Strategies[1..] == s1;
    c := Candidate(cfg, card, StandardLink);
    assert FirstApplicable(cfg, card, Strategies) == if c.Some? then c else FirstApplicable(cfg, card, s1);
  }

  function OptionToSeq(o: Option<string>): seq<string> {
    match o
    case Some(v) => [v]
    case None => []
  }

  /** The links the cards of one page contribute, in card order. */
  function PageLinks(cfg: Config, cards: seq<Card>): (links: seq<string>)
    ensures |links| <= |cards|
  {
    if cards == [] then []
    else PageLinks(cfg, cards[..|cards| - 1]) + OptionToSeq(CardLink(cfg, cards[|cards| - 1]))
  }

  lemma PageLinksSnoc(cfg: Config, cards: seq<Card>, i: nat)
    requires i < |cards|
    ensures PageLinks(cfg, cards[..i + 1]) == PageLinks(cfg, cards[..i]) + OptionToSeq(CardLink(cfg, cards[i]))
  {
    assert cards[..i + 1][..i] == cards[..i];
  }

  /** The URL requested for page `page` of a category. */
  function PageUrl(seed: string, page: int): string {
    if page > 1 then seed + "&page=" + IntToString(page) else seed
  }

  /** Pagination ends after this page: there is no "next" control, or it is
      disabled. */
  predicate NoNextPage(next: Option<seq<string>>) {
    next.None? || "a-disabled" in next.value
  }

  /** The links one requested page adds: its cards' links, or nothing when
      the fetch failed. */
  function PageContribution(cfg: Config, fetch: Fetcher, seed: string, page: int): seq<string> {
    match GetPage(fetch(PageUrl(seed, page)))
    case None => []
    case Some(doc) => PageLinks(cfg, doc.cards)
  }

  /** Page `page` was fetched and parsed. */
  predicate Fetched(fetch: Fetcher, seed: string, page: int) {
    GetPage(fetch(PageUrl(seed, page))).Some?
  }

  /** Page `page` was fetched and has no usable "next" control. */
  predicate LastPage(fetch: Fetcher, seed: string, page: int) {
    match GetPage(fetch(PageUrl(seed, page)))
    case None => false
    case Some(doc) => NoNextPage(doc.next)
  }

  /** The walk ends after page `page`, `count` links having been collected
      before it: the page was fetched, and then the link limit was reached
      or there is no next page. A failed fetch never ends it. */
  predicate EndsAfter(cfg: Config, fetch: Fetcher, seed: string, page: int, count: nat) {
    Fetched(fetch, seed, page)
    && (count + |PageContribution(cfg, fetch, seed, page)| >= LinkLimit || LastPage(fetch, seed, page))
  }

  /** The links collected and the numbers of the pages requested, in
      request order. */
  datatype LinkRun = LinkRun(links: seq<string>, requested: seq<int>)

  /** The pagination loop from page `page` on, with what was collected and
      requested before it: request the page, add its links, and go on
      unless the page ends the walk. */
  function CollectFrom(cfg: Config, fetch: Fetcher, seed: string, page: int, numPages: int,
                       links: seq<string>, requested: seq<int>): LinkRun
    decreases numPages - page + 1
  {
    if page > numPages then LinkRun(links, requested)
    else
      var more := links + PageContribution(cfg, fetch, seed, page);
      var req := requested + [page];
      if EndsAfter(cfg, fetch, seed, page, |links|) then LinkRun(more, req)
      else CollectFrom(cfg, fetch, seed, page + 1, numPages, more, req)
  }

  /** What `scrape_product_links(seed, numPages)` collects and requests. */
  function CollectLinks(cfg: Config, fetch: Fetcher, seed: string, numPages: int): LinkRun {
    CollectFrom(cfg, fetch, seed, 1, numPages, [], [])
  }

  /** The strategy chain for one card (the body of the card loop): the
      link appended, if any. */
  method ExtractCardLink(cfg: Config, card: Card) returns (link: Option<string>)
    ensures link == CardLink(cfg, card)
  {
    CardLinkPriority(cfg, card);
    if card.linkHref.Some? {
      return Some(Resolve(cfg, card.linkHref.value));
    }
    if card.titleParentHref.Some? {
      return Some(Resolve(cfg, card.titleParentHref.value));
    }
    if card.asin.Some? && card.asin.value != "" {
      return Some(AsinPrefix + card.asin.value);
    }
    link := None;
    var j := 0;
    while j < |card.anchors|
      invariant 0 <= j <= |card.anchors|
      invariant FirstProductAnchor(card.anchors[j..]) == FirstProductAnchor(card.anchors)
    {
      var a := card.anchors[j];
      if IsProductAnchor(a) {
        link := Some(Resolve(cfg, a.value));
        break;
      }
      assert card.anchors[j..][1..] == card.anchors[j + 1..];
      j := j + 1;
    }
    assert j == |card.anchors| ==> card.anchors[j..] == [];
  }

  /** Page 1 is the seed itself and every later page gets its own URL. */
  lemma PageUrlsDistinct(seed: string, p: int, q: int)
    requires 1 <= p < q
    ensures PageUrl(seed, p) != PageUrl(seed, q)
  {
    if p > 1 {
      var u, v := PageUrl(seed, p), PageUrl(seed, q);
      assert IntToString(p) == u[|seed| + 6..];
      assert IntToString(q) == v[|seed| + 6..];
      if IntToString(p) == IntToString(q) {
        IntToStringInjective(p, q);
      }
    }
  }

  /** The links of `count` consecutive pages starting at `first`. */
  function Contributions(cfg: Config, fetch: Fetcher, seed: string, first: int, count: nat): seq<string>
    decreases count
  {
    if count == 0 then []
    else PageContribution(cfg, fetch, seed, first) + Contributions(cfg, fetch, seed, first + 1, count - 1)
  }

  /** The `count` page numbers from `first` on. */
  function PagesFrom(first: int, count: nat): (pages: seq<int>)
    ensures |pages| == count && forall i :: 0 <= i < count ==> pages[i] == first + i
  {
    seq(count, i => first + i)
  }

  /** From page `page` on, the loop requests at least one and at most
      `numPages - page + 1` pages. */
  lemma {:induction false} CollectFromCount(cfg: Config, fetch: Fetcher, seed: string, page: int, numPages: int,
                                            links: seq<string>, requested: seq<int>)
    ensures var r := CollectFrom(cfg, fetch, seed, page, numPages, links, requested);
            var n := |r.requested| - |requested|;
            if numPages >= page then 1 <= n <= numPages - page + 1 else n == 0
    decreases numPages - page + 1
  {
    if page <= numPages && !EndsAfter(cfg, fetch, seed, page, |links|) {
      var more := links + PageContribution(cfg, fetch, seed, page);
      CollectFromCount(cfg, fetch, seed, page + 1, numPages, more, requested + [page]);
    }
  }

  /** A run of consecutive page numbers is its first page, then the run
      after it. */
  lemma PagesFromCons(done: seq<int>, first: int, count: nat)
    requires count > 0
    ensures done + PagesFrom(first, count) == (done + [first]) + PagesFrom(first + 1, count - 1)
  {
    assert PagesFrom(first, count) == [first] + PagesFrom(first + 1, count - 1);
  }

  /** Where the loop stops, the pages requested are those before plus at
      most the current one. */
  lemma CollectFromRequestsStops(cfg: Config, fetch: Fetcher, seed: string, page: int, numPages: int,
                                 links: seq<string>, requested: seq<int>)
    requires page > numPages || EndsAfter(cfg, fetch, seed, page, |links|)
    ensures var r := CollectFrom(cfg, fetch, seed, page, numPages, links, requested);
            |r.requested| >= |requested| &&
            r.requested == requested + PagesFrom(page, |r.requested| - |requested|)
  {
    var r := CollectFrom(cfg, fetch, seed, page, numPages, links, requested);
    if page > numPages {
      assert r.requested == requested;
      assert PagesFrom(page, 0) == [];
      assert r.requested == requested + PagesFrom(page, 0);
    } else {
      assert r.requested == requested + [page];
      assert PagesFrom(page, 1) == [page];
    }
  }

  /** The pages requested from page `page` on are consecutive. */
  lemma {:induction false} CollectFromRequests(cfg: Config, fetch: Fetcher, seed: string, page: int, numPages: int,
                                               links: seq<string>, requested: seq<int>)
    ensures var r := CollectFrom(cfg, fetch, seed, page, numPages, links, requested);
            |r.requested| >= |requested| &&
            r.requested == requested + PagesFrom(page, |r.requested| - |requested|)
    decreases numPages - page + 1
  {
    if page > numPages || EndsAfter(cfg, fetch, seed, page, |links|) {
      CollectFromRequestsStops(cfg, fetch, seed, page, numPages, links, requested);
    } else {
      var r := CollectFrom(cfg, fetch, seed, page, numPages, links, requested);
      var more := links + PageContribution(cfg, fetch, seed, page);
      var req := requested + [page];
      assert r == CollectFrom(cfg, fetch, seed, page + 1, numPages, more, req);
      CollectFromRequests(cfg, fetch, seed, page + 1, numPages, more, req);
      PagesFromCons(requested, page, |r.requested| - |requested|);
    }
  }

  /** The links of a run of pages are those of its first page, then those
      of the rest. */
  lemma ContributionsCons(cfg: Config, fetch: Fetcher, seed: string, links: seq<string>, first: int, count: nat)
    requires count > 0
    ensures links + Contributions(cfg, fetch, seed, first, count)
            == (links + PageContribution(cfg, fetch, seed, first)) + Contributions(cfg, fetch, seed, first + 1, count - 1)
  {
  }

  /** Where the loop stops, the links are those before plus at most the
      current page's. */
  lemma CollectFromLinksStops(cfg: Config, fetch: Fetcher, seed: string, page: int, numPages: int,
                              links: seq<string>, requested: seq<int>)
    requires page > numPages || EndsAfter(cfg, fetch, seed, page, |links|)
    ensures var r := CollectFrom(cfg, fetch, seed, page, numPages, links, requested);
            |r.requested| >= |requested| &&
            r.links == links + Contributions(cfg, fetch, seed, page, |r.requested| - |requested|)
  {
    var r := CollectFrom(cfg, fetch, seed, page, numPages, links, requested);
    if page > numPages {
      assert r.links == links && r.requested == requested;
      assert links + Contributions(cfg, fetch, seed, page, 0) == links;
    } else {
      assert r.requested == requested + [page];
      assert Contributions(cfg, fetch, seed, page + 1, 0) == [];
      ContributionsCons(cfg, fetch, seed, links, page, 1);
    }
  }

  /** The links collected from page `page` on are those of the pages
      requested, in order. */
  lemma {:induction false} CollectFromLinks(cfg: Config, fetch: Fetcher, seed: string, page: int, numPages: int,
                                            links: seq<string>, requested: seq<int>)
    ensures var r := CollectFrom(cfg, fetch, seed, page, numPages, links, requested);
            |r.requested| >= |requested| &&
            r.links == links + Contributions(cfg, fetch, seed, page, |r.requested| - |requested|)
    decreases numPages - page + 1
  {
    if page > numPages || EndsAfter(cfg, fetch, seed, page, |links|) {
      CollectFromLinksStops(cfg, fetch, seed, page, numPages, links, requested);
    } else {
      var r := CollectFrom(cfg, fetch, seed, page, numPages, links, requested);
      var more := links + PageContribution(cfg, fetch, seed, page);
      var req := requested + [page];
      assert r == CollectFrom(cfg, fetch, seed, page + 1, numPages, more, req);
      CollectFromLinks(cfg, fetch, seed, page + 1, numPages, more, req);
      ContributionsCons(cfg, fetch, seed, links, page, |r.requested| - |requested|);
    }
  }

  /** Pages 1, 2, ... are requested in order, never more than `numPages`
      (none when `numPages <= 0`), and the result is the concatenation of
      the links of the requested pages. */
  lemma CollectLinksShape(cfg: Config, fetch: Fetcher, seed: string, numPages: int)
    ensures var r := CollectLinks(cfg, fetch, seed, numPages);
            && |r.requested| <= (if numPages > 0 then numPages else 0)
            && r.requested == PagesFrom(1, |r.requested|)
            && r.links == Contributions(cfg, fetch, seed, 1, |r.requested|)
  {
    CollectFromCount(cfg, fetch, seed, 1, numPages, [], []);
    CollectFromRequests(cfg, fetch, seed, 1, numPages, [], []);
    CollectFromLinks(cfg, fetch, seed, 1, numPages, [], []);
  }

  /** After every fetched page before the last one requested, fewer links
      than the limit had been collected. */
  lemma {:induction false} CollectFromBelowLimit(cfg: Config, fetch: Fetcher, seed: string, page: int, numPages: int,
                                                 links: seq<string>, requested: seq<int>)
    ensures var r := CollectFrom(cfg, fetch, seed, page, numPages, links, requested);
            forall p :: page <= p < page + |r.requested| - |requested| - 1 && Fetched(fetch, seed, p) ==>
              |links| + |Contributions(cfg, fetch, seed, page, p - page + 1)| < LinkLimit
    decreases numPages - page + 1
  {
    if page <= numPages && !EndsAfter(cfg, fetch, seed, page, |links|) {
      var here := PageContribution(cfg, fetch, seed, page);
      var more := links + here;
      var req := requested + [page];
      CollectFromBelowLimit(cfg, fetch, seed, page + 1, numPages, more, req);
      var n := |CollectFrom(cfg, fetch, seed, page + 1, numPages, more, req).requested| - |req|;
      assert CollectFrom(cfg, fetch, seed, page, numPages, links, requested)
             == CollectFrom(cfg, fetch, seed, page + 1, numPages, more, req);
      forall p | page <= p < page + n && Fetched(fetch, seed, p)
        ensures |links| + |Contributions(cfg, fetch, seed, page, p - page + 1)| < LinkLimit
      {
        ContributionsLength(cfg, fetch, seed, page, p - page + 1);
      }
    }
  }

  /** The links of a run of pages: those of its first page, then the rest. */
  lemma ContributionsLength(cfg: Config, fetch: Fetcher, seed: string, first: int, count: nat)
    requires count > 0
    ensures |Contributions(cfg, fetch, seed, first, count)|
            == |PageContribution(cfg, fetch, seed, first)| + |Contributions(cfg, fetch, seed, first + 1, count - 1)|
  {
  }

  /** Every page requested before the last one had a usable "next"
      control, or was not fetched at all; and when it was fetched, the
      links collected up to and including it were still fewer than the
      limit. */
  lemma {:induction false} CollectFromGoesOn(cfg: Config, fetch: Fetcher, seed: string, page: int, numPages: int,
                                             links: seq<string>, requested: seq<int>)
    ensures var r := CollectFrom(cfg, fetch, seed, page, numPages, links, requested);
            forall p :: page <= p < page + |r.requested| - |requested| - 1 ==> !LastPage(fetch, seed, p)
    ensures var r := CollectFrom(cfg, fetch, seed, page, numPages, links, requested);
            forall p :: page <= p < page + |r.requested| - |requested| - 1 && Fetched(fetch, seed, p) ==>
              |links| + |Contributions(cfg, fetch, seed, page, p - page + 1)| < LinkLimit
    decreases numPages - page + 1
  {
    CollectFromBelowLimit(cfg, fetch, seed, page, numPages, links, requested);
    if page <= numPages && !EndsAfter(cfg, fetch, seed, page, |links|) {
      var more := links + PageContribution(cfg, fetch, seed, page);
      var req := requested + [page];
      CollectFromGoesOn(cfg, fetch, seed, page + 1, numPages, more, req);
    }
  }

  /** A walk that ends before `numPages` ended on a page that was fetched
      and then hit the link limit or had no usable "next" control. */
  lemma {:induction false} CollectFromEndsEarly(cfg: Config, fetch: Fetcher, seed: string, page: int, numPages: int,
                                                links: seq<string>, requested: seq<int>)
    ensures var r := CollectFrom(cfg, fetch, seed, page, numPages, links, requested);
            var last := page + |r.requested| - |requested| - 1;
            page <= last < numPages ==>
              Fetched(fetch, seed, last) && (|r.links| >= LinkLimit || LastPage(fetch, seed, last))
    decreases numPages - page + 1
  {
    if page <= numPages && !EndsAfter(cfg, fetch, seed, page, |links|) {
      var more := links + PageContribution(cfg, fetch, seed, page);
      var req := requested + [page];
      CollectFromEndsEarly(cfg, fetch, seed, page + 1, numPages, more, req);
      CollectFromCount(cfg, fetch, seed, page + 1, numPages, more, req);
    }
  }

  /** The walk from page 1 ends before `numPages` only on a fetched page
      that hit the link limit or had no usable "next" control; every
      earlier page had one or was not fetched, and after every earlier
      fetched page fewer links than the limit had been collected. */
  lemma CollectLinksStops(cfg: Config, fetch: Fetcher, seed: string, numPages: int)
    ensures var r := CollectLinks(cfg, fetch, seed, numPages);
            var last := |r.requested|;
            && (forall p :: 1 <= p < last ==> !LastPage(fetch, seed, p))
            && (forall p :: 1 <= p < last && Fetched(fetch, seed, p) ==>
                  |Contributions(cfg, fetch, seed, 1, p)| < LinkLimit)
            && (1 <= last < numPages ==>
                  Fetched(fetch, seed, last) && (|r.links| >= LinkLimit || LastPage(fetch, seed, last)))
  {
    var r := CollectLinks(cfg, fetch, seed, numPages);
    CollectFromGoesOn(cfg, fetch, seed, 1, numPages, [], []);
    CollectFromEndsEarly(cfg, fetch, seed, 1, numPages, [], []);
    forall p | 1 <= p < |r.requested| && Fetched(fetch, seed, p)
      ensures |Contributions(cfg, fetch, seed, 1, p)| < LinkLimit
    {
      assert 1 <= p < 1 + |r.requested| - 0 - 1;
    }
  }

  /** Every fetched page gives at most `maxCards` cards: the links stay
      below the limit plus one page's cards (the limit is only checked
      between pages). */
  lemma {:induction false} CollectFromBound(cfg: Config, fetch: Fetcher, seed: string, page: int, numPages: int,
                                            links: seq<string>, requested: seq<int>, maxCards: nat)
    requires forall url :: fetch(url).Some? ==> |fetch(url).value.doc.cards| <= maxCards
    requires |links| < LinkLimit
    ensures |CollectFrom(cfg, fetch, seed, page, numPages, links, requested).links| < LinkLimit + maxCards
    decreases numPages - page + 1
  {
    if page <= numPages {
      var url := PageUrl(seed, page);
      var more := links + PageContribution(cfg, fetch, seed, page);
      if fetch(url).Some? {
        assert |fetch(url).value.doc.cards| <= maxCards;
      }
      assert |PageContribution(cfg, fetch, seed, page)| <= maxCards;
      if !EndsAfter(cfg, fetch, seed, page, |links|) {
        CollectFromBound(cfg, fetch, seed, page + 1, numPages, more, requested + [page], maxCards);
      }
    }
  }

  lemma CollectLinksBound(cfg: Config, fetch: Fetcher, seed: string, numPages: int, maxCards: nat)
    requires forall url :: fetch(url).Some? ==> |fetch(url).value.doc.cards| <= maxCards
    ensures |CollectLinks(cfg, fetch, seed, numPages).links| < LinkLimit + maxCards
  {
    CollectFromBound(cfg, fetch, seed, 1, numPages, [], [], maxCards);
  }

  /** A card with a standard link always contributes one. */
  lemma {:induction false} PageLinksAllStandard(cfg: Config, cards: seq<Card>)
    requires forall i :: 0 <= i < |cards| ==> cards[i].linkHref.Some?
    ensures |PageLinks(cfg, cards)| == |cards|
  {
    if cards != [] {
      PageLinksAllStandard(cfg, cards[..|cards| - 1]);
      CardLinkPriority(cfg, cards[|cards| - 1]);
    }
  }

  /** The limit does not truncate: a first page of more than 200 linked
      cards yields more than 200 links. */
  lemma LimitOvershoot(cfg: Config, fetch: Fetcher, seed: string, numPages: int)
    requires numPages >= 1
    requires GetPage(fetch(seed)).Some?
    requires var cards := GetPage(fetch(seed)).value.cards;
             |cards| > LinkLimit && forall i :: 0 <= i < |cards| ==> cards[i].linkHref.Some?
    ensures |CollectLinks(cfg, fetch, seed, numPages).links| > LinkLimit
  {
    var cards := GetPage(fetch(seed)).value.cards;
    PageLinksAllStandard(cfg, cards);
    CollectLinksShape(cfg, fetch, seed, numPages);
    var r := CollectLinks(cfg, fetch, seed, numPages);
    assert PageUrl(seed, 1) == seed;
    assert |r.requested| >= 1;
    assert r.links == PageContribution(cfg, fetch, seed, 1) + Contributions(cfg, fetch, seed, 2, |r.requested| - 1);
  }

  /** The card loop of one page: append each card's link to `links`. */
  method AppendPageLinks(cfg: Config, cards: seq<Card>, links: seq<string>) returns (out: seq<string>)
    ensures out == links + PageLinks(cfg, cards)
  {
    out := links;
    var i := 0;
    while i < |cards|
      invariant 0 <= i <= |cards|
      invariant out == links + PageLinks(cfg, cards[..i])
    {
      var link := ExtractCardLink(cfg, cards[i]);
      PageLinksSnoc(cfg, cards, i);
      ghost var prev := out;
      if link.Some? {
        out := out + [link.value];
      }
      assert out == prev + OptionToSeq(link);
      i := i + 1;
    }
    assert cards[..|cards|] == cards;
  }

  /** One turn of the pagination loop, as the loop below takes it. */
  lemma CollectFromStep(cfg: Config, fetch: Fetcher, seed: string, page: int, numPages: int,
                        links: seq<string>, requested: seq<int>)
    requires page <= numPages
    ensures var more := links + PageContribution(cfg, fetch, seed, page);
            var soup := GetPage(fetch(PageUrl(seed, page)));
            CollectFrom(cfg, fetch, seed, page, numPages, links, requested)
            == if soup.Some? && (|more| >= LinkLimit || NoNextPage(soup.value.next))
               then LinkRun(more, requested + [page])
               else CollectFrom(cfg, fetch, seed, page + 1, numPages, more, requested + [page])
  {
  }

  /** `scrape_product_links`: the links collected, and (for the proofs) the
      numbers of the pages whose URLs were handed to `_get_page`, in order. */
  method ScrapeProductLinks(cfg: Config, fetch: Fetcher, seed: string, numPages: int)
    returns (links: seq<string>, requested: seq<int>)
    ensures LinkRun(links, requested) == CollectLinks(cfg, fetch, seed, numPages)
  {
    links, requested := [], [];
    var page := 1;
    while page <= numPages
      invariant 1 <= page
      invariant CollectFrom(cfg, fetch, seed, page, numPages, links, requested)
                == CollectLinks(cfg, fetch, seed, numPages)
      decreases numPages - page + 1
    {
      var pageUrl := PageUrl(seed, page);
      CollectFromStep(cfg, fetch, seed, page, numPages, links, requested);
      ghost var was := CollectFrom(cfg, fetch, seed, page, numPages, links, requested);
      requested := requested + [page];
      var soup := GetPage(fetch(pageUrl));
      if soup.None? {
        assert PageContribution(cfg, fetch, seed, page) == [];
        assert links + PageContribution(cfg, fetch, seed, page) == links;
        assert was == CollectFrom(cfg, fetch, seed, page + 1, numPages, links, requested);
        page := page + 1;
        continue;
      }
      assert PageContribution(cfg, fetch, seed, page) == PageLinks(cfg, soup.value.cards);
      links := AppendPageLinks(cfg, soup.value.cards, links);
      if |links| >= LinkLimit || NoNextPage(soup.value.next) {
        break;
      }
      assert was == CollectFrom(cfg, fetch, seed, page + 1, numPages, links, requested);
      page := page + 1;
    }
  }
}
