/** `EcommerceScraper.scrape_products`: for each category, collect links
    from a number of result pages derived from `max_products`, sample them
    down to what is still missing, and read product pages until
    `max_products` records are gathered. Writing the JSON file is not part
    of this model. */
module Orchestrator {
  import opened Wrappers
  import opened Page
  import opened LinkExtractor
  import opened DetailExtractor

  const ProductsPerPage: int := 20
  const MaxPagesPerCategory: int := 5

  /** `min(5, max_products // 20)`; Python's `//` floors, which for the
      positive divisor 20 is Dafny's `/` on `int`. */
  function PagesNeeded(maxProducts: int): (pages: int)
    ensures pages <= MaxPagesPerCategory
    ensures maxProducts >= 0 ==> pages >= 0 && pages * ProductsPerPage <= maxProducts
  {
    var byCount := maxProducts / ProductsPerPage;
    if byCount < MaxPagesPerCategory then byCount else MaxPagesPerCategory
  }

  /** `k` positions into a population of `n`, all different: what
      `random.sample(links, k)` draws, by position. */
  predicate PicksValid(picks: seq<nat>, n: nat, k: nat) {
    && |picks| == k
    && (forall j :: 0 <= j < k ==> picks[j] < n)
    && (forall j, l :: 0 <= j < l < k ==> picks[j] != picks[l])
  }

  /** The random source: for the `round`-th category, the positions drawn
      from `n` links when `k <= n` are wanted. */
  type Sampler = (nat, nat, nat) -> seq<nat>

  ghost predicate SamplerValid(sampler: Sampler) {
    forall round: nat, n: nat, k: nat :: k <= n ==> PicksValid(sampler(round, n, k), n, k)
  }

  /** The links at the drawn positions, in draw order. */
  function Pick(links: seq<string>, picks: seq<nat>): (chosen: seq<string>)
    requires forall j :: 0 <= j < |picks| ==> picks[j] < |links|
    ensures |chosen| == |picks|
    ensures forall j :: 0 <= j < |picks| ==> chosen[j] == links[picks[j]]
  {
    seq(|picks|, j requires 0 <= j < |picks| => links[picks[j]])
  }

  /** A draw of distinct positions takes each link at most as often as it
      occurs: the sample is a sub-multiset of the links. */
  lemma {:induction false} PickSubMultiset(links: seq<string>, picks: seq<nat>)
    requires PicksValid(picks, |links|, |picks|)
    ensures multiset(Pick(links, picks)) <= multiset(links)
    decreases |picks|
  {
    if picks != [] {
      var last := picks[|picks| - 1];
      var rest := picks[..|picks| - 1];
      var others := links[..last] + links[last + 1..];
      assert links == links[..last] + [links[last]] + links[last + 1..];
      // The remaining positions, renumbered for the links without `last`.
      var shifted := seq(|rest|, j requires 0 <= j < |rest| => if rest[j] < last then rest[j] else rest[j] - 1);
      forall j | 0 <= j < |rest|
        ensures shifted[j] < |others| && others[shifted[j]] == links[rest[j]]
      {
        assert rest[j] != last;
      }
      assert PicksValid(shifted, |others|, |shifted|) by {
        forall j, l | 0 <= j < l < |shifted|
          ensures shifted[j] != shifted[l]
        {
          assert rest[j] != last && rest[l] != last && rest[j] != rest[l];
        }
      }
      PickSubMultiset(others, shifted);
      assert Pick(others, shifted) == Pick(links, rest);
      assert Pick(links, picks) == Pick(links, rest) + [links[last]];
      assert multiset(links) == multiset(others) + multiset{links[last]};
    }
  }

  /** The record read, as a list of zero or one records. */
  function Found(product: Option<Product>): seq<Product> {
    if product.Some? then [product.value] else []
  }

  /** The detail loop of one category: read each link in turn, keep the
      records that came back, and stop as soon as `maxProducts` are held. */
  function DetailsFrom(fetch: Fetcher, links: seq<string>, acc: seq<Product>, maxProducts: int): seq<Product> {
    if links == [] then acc
    else
      var more := acc + Found(ProductDetails(fetch, links[0]));
      if |more| >= maxProducts then more else DetailsFrom(fetch, links[1..], more, maxProducts)
  }

  /** The links one category contributes: all of them when they are not
      more than `remaining`, otherwise a draw of `remaining` of them, and
      `None` when that draw is asked for a negative count (`random.sample`
      raises `ValueError`). */
  function ChosenLinks(sampler: Sampler, round: nat, links: seq<string>, remaining: int): Option<seq<string>>
    requires SamplerValid(sampler)
  {
    if |links| <= remaining then Some(links)
    else if remaining < 0 then None
    else Some(Pick(links, sampler(round, |links|, remaining)))
  }

  /** The category loop from category `round` on, with the records
      gathered so far; `None` when `random.sample` raised. */
  function ScrapeFrom(cfg: Config, fetch: Fetcher, sampler: Sampler, categories: seq<string>, round: nat,
                      maxProducts: int, acc: seq<Product>): Option<seq<Product>>
    requires SamplerValid(sampler)
    decreases |categories| - round
  {
    if round >= |categories| then Some(acc)
    else
      var links := CollectLinks(cfg, fetch, categories[round], PagesNeeded(maxProducts)).links;
      match ChosenLinks(sampler, round, links, maxProducts - |acc|)
      case None => None
      case Some(chosen) =>
        var more := DetailsFrom(fetch, chosen, acc, maxProducts);
        if |more| >= maxProducts then Some(more)
        else ScrapeFrom(cfg, fetch, sampler, categories, round + 1, maxProducts, more)
  }

  /** What `scrape_products(category_urls, max_products)` returns. */
  function ScrapeAll(cfg: Config, fetch: Fetcher, sampler: Sampler, categories: seq<string>, maxProducts: int)
    : Option<seq<Product>>
    requires SamplerValid(sampler)
  {
    ScrapeFrom(cfg, fetch, sampler, categories, 0, maxProducts, [])
  }

  // ------------------------------------------------------------ properties

  /** The detail loop adds at most one record per link and keeps what it
      had. */
  lemma {:induction false} DetailsFromGrows(fetch: Fetcher, links: seq<string>, acc: seq<Product>, maxProducts: int)
    ensures var r := DetailsFrom(fetch, links, acc, maxProducts);
            |acc| <= |r| <= |acc| + |links| && r[..|acc|] == acc
  {
    if links != [] {
      var more := acc + Found(ProductDetails(fetch, links[0]));
      if |more| < maxProducts {
        DetailsFromGrows(fetch, links[1..], more, maxProducts);
        var r := DetailsFrom(fetch, links[1..], more, maxProducts);
        assert r[..|acc|] == r[..|more|][..|acc|];
      }
    }
  }

  /** A category never takes more links than records are still missing:
      it keeps all its links when they are not more than `remaining`, and
      otherwise exactly `remaining` of them, drawn without taking any link
      more often than it occurs; the draw fails exactly when `remaining`
      is negative. */
  lemma ChosenLinksBound(sampler: Sampler, round: nat, links: seq<string>, remaining: int)
    requires SamplerValid(sampler)
    ensures var c := ChosenLinks(sampler, round, links, remaining);
            c.Some? ==> |c.value| <= |links| && (remaining >= 0 ==> |c.value| <= remaining)
    ensures ChosenLinks(sampler, round, links, remaining).None? <==> remaining < 0 && |links| > remaining
    ensures |links| <= remaining ==> ChosenLinks(sampler, round, links, remaining) == Some(links)
    ensures var c := ChosenLinks(sampler, round, links, remaining);
            0 <= remaining < |links| ==>
              c.Some? && |c.value| == remaining && multiset(c.value) <= multiset(links)
  {
    if 0 <= remaining < |links| {
      var picks := sampler(round, |links|, remaining);
      assert PicksValid(picks, |links|, remaining);
      PickSubMultiset(links, picks);
    }
  }

  /** With a non-negative `maxProducts` the loop never raises and never
      gathers more than `maxProducts` records. */
  lemma {:induction false} ScrapeFromBound(cfg: Config, fetch: Fetcher, sampler: Sampler, categories: seq<string>,
                                           round: nat, maxProducts: int, acc: seq<Product>)
    requires SamplerValid(sampler)
    requires 0 <= maxProducts && |acc| <= maxProducts
    ensures var r := ScrapeFrom(cfg, fetch, sampler, categories, round, maxProducts, acc);
            r.Some? && |acc| <= |r.value| <= maxProducts && r.value[..|acc|] == acc
    decreases |categories| - round
  {
    if round < |categories| {
      var links := CollectLinks(cfg, fetch, categories[round], PagesNeeded(maxProducts)).links;
      ChosenLinksBound(sampler, round, links, maxProducts - |acc|);
      var chosen := ChosenLinks(sampler, round, links, maxProducts - |acc|).value;
      DetailsFromGrows(fetch, chosen, acc, maxProducts);
      var more := DetailsFrom(fetch, chosen, acc, maxProducts);
      if |more| < maxProducts {
        ScrapeFromBound(cfg, fetch, sampler, categories, round + 1, maxProducts, more);
        var r := ScrapeFrom(cfg, fetch, sampler, categories, round + 1, maxProducts, more).value;
        assert r[..|acc|] == r[..|more|][..|acc|];
      }
    }
  }

  /** `scrape_products` returns at most `max_products` records. */
  lemma ScrapeAllBound(cfg: Config, fetch: Fetcher, sampler: Sampler, categories: seq<string>, maxProducts: int)
    requires SamplerValid(sampler)
    requires maxProducts >= 0
    ensures var r := ScrapeAll(cfg, fetch, sampler, categories, maxProducts);
            r.Some? && |r.value| <= maxProducts
  {
    ScrapeFromBound(cfg, fetch, sampler, categories, 0, maxProducts, []);
  }

  /** A negative `max_products` makes the first category's `random.sample`
      raise, however many links it found. */
  lemma NegativeMaxRaises(cfg: Config, fetch: Fetcher, sampler: Sampler, categories: seq<string>, maxProducts: int)
    requires SamplerValid(sampler)
    requires maxProducts < 0 && |categories| > 0
    ensures ScrapeAll(cfg, fetch, sampler, categories, maxProducts).None?
  {
  }

  /** Fewer than 20 requested products means zero pages per category, so
      nothing is scraped at all. */
  lemma SmallRequestScrapesNothing(cfg: Config, fetch: Fetcher, sampler: Sampler, categories: seq<string>,
                                   maxProducts: int)
    requires SamplerValid(sampler)
    requires 0 <= maxProducts < ProductsPerPage
    ensures ScrapeAll(cfg, fetch, sampler, categories, maxProducts) == Some([])
  {
    SmallRequestFrom(cfg, fetch, sampler, categories, 0, maxProducts);
  }

  lemma {:induction false} SmallRequestFrom(cfg: Config, fetch: Fetcher, sampler: Sampler, categories: seq<string>,
                                            round: nat, maxProducts: int)
    requires SamplerValid(sampler)
    requires 0 <= maxProducts < ProductsPerPage
    ensures ScrapeFrom(cfg, fetch, sampler, categories, round, maxProducts, []) == Some([])
    decreases |categories| - round
  {
    if round < |categories| {
      CollectLinksShape(cfg, fetch, categories[round], 0);
      if maxProducts > 0 {
        SmallRequestFrom(cfg, fetch, sampler, categories, round + 1, maxProducts);
      }
    }
  }

  /** Every record the detail loop adds is what reading one of its links
      gives. */
  lemma {:induction false} DetailsFromProvenance(fetch: Fetcher, links: seq<string>, acc: seq<Product>,
                                                 maxProducts: int)
    ensures var r := DetailsFrom(fetch, links, acc, maxProducts);
            |r| >= |acc| &&
            forall k :: |acc| <= k < |r| ==> r[k].url in links && ProductDetails(fetch, r[k].url) == Some(r[k])
  {
    if links != [] {
      var found := ProductDetails(fetch, links[0]);
      var more := acc + Found(found);
      if found.Some? {
        ProductDetailsFields(fetch, links[0]);
      }
      if |more| < maxProducts {
        DetailsFromProvenance(fetch, links[1..], more, maxProducts);
        var r := DetailsFrom(fetch, links[1..], more, maxProducts);
        forall k | |acc| <= k < |r|
          ensures r[k].url in links && ProductDetails(fetch, r[k].url) == Some(r[k])
        {
          if k >= |more| {
            assert r[k].url in links[1..];
          } else {
            DetailsFromGrows(fetch, links[1..], more, maxProducts);
            assert r[k] == more[k];
          }
        }
      }
    }
  }

  /** A chosen link is one of the category's links. */
  lemma ChosenFromLinks(sampler: Sampler, round: nat, links: seq<string>, remaining: int, url: string)
    requires SamplerValid(sampler)
    requires var c := ChosenLinks(sampler, round, links, remaining); c.Some? && url in c.value
    ensures url in links
  {
    var c := ChosenLinks(sampler, round, links, remaining).value;
    var j :| 0 <= j < |c| && c[j] == url;
  }

  /** Every record returned was read from a link found in one of the
      categories, and is exactly what reading that link gives. */
  lemma {:induction false} ScrapeFromProvenance(cfg: Config, fetch: Fetcher, sampler: Sampler, categories: seq<string>,
                                                round: nat, maxProducts: int, acc: seq<Product>)
    requires SamplerValid(sampler)
    requires forall k :: 0 <= k < |acc| ==> ProductDetails(fetch, acc[k].url) == Some(acc[k])
    ensures var r := ScrapeFrom(cfg, fetch, sampler, categories, round, maxProducts, acc);
            r.Some? ==> forall k :: 0 <= k < |r.value| ==> ProductDetails(fetch, r.value[k].url) == Some(r.value[k])
    decreases |categories| - round
  {
    if round < |categories| {
      var links := CollectLinks(cfg, fetch, categories[round], PagesNeeded(maxProducts)).links;
      var c := ChosenLinks(sampler, round, links, maxProducts - |acc|);
      if c.Some? {
        DetailsFromProvenance(fetch, c.value, acc, maxProducts);
        DetailsFromGrows(fetch, c.value, acc, maxProducts);
        var more := DetailsFrom(fetch, c.value, acc, maxProducts);
        forall k | 0 <= k < |more|
          ensures ProductDetails(fetch, more[k].url) == Some(more[k])
        {
          if k < |acc| {
            assert more[k] == more[..|acc|][k];
          }
        }
        if |more| < maxProducts {
          ScrapeFromProvenance(cfg, fetch, sampler, categories, round + 1, maxProducts, more);
          assert ScrapeFrom(cfg, fetch, sampler, categories, round, maxProducts, acc)
              == ScrapeFrom(cfg, fetch, sampler, categories, round + 1, maxProducts, more);
        } else {
          assert ScrapeFrom(cfg, fetch, sampler, categories, round, maxProducts, acc) == Some(more);
        }
      }
    }
  }

  /** Every record `scrape_products` returns is what reading its own URL
      gives: it was scraped, not made up, and it is from "amazon". */
  lemma ScrapeAllProvenance(cfg: Config, fetch: Fetcher, sampler: Sampler, categories: seq<string>, maxProducts: int)
    requires SamplerValid(sampler)
    ensures var r := ScrapeAll(cfg, fetch, sampler, categories, maxProducts);
            r.Some? ==> forall k :: 0 <= k < |r.value| ==>
                          ProductDetails(fetch, r.value[k].url) == Some(r.value[k]) && r.value[k].source == Source
  {
    ScrapeFromProvenance(cfg, fetch, sampler, categories, 0, maxProducts, []);
    var r := ScrapeAll(cfg, fetch, sampler, categories, maxProducts);
    if r.Some? {
      forall k | 0 <= k < |r.value|
        ensures r.value[k].source == Source
      {
        ProductDetailsFields(fetch, r.value[k].url);
      }
    }
  }

  // --------------------------------------------------------------- methods

  /** One turn of the detail loop. */
  lemma DetailsFromStep(fetch: Fetcher, links: seq<string>, i: nat, acc: seq<Product>, maxProducts: int)
    requires i < |links|
    ensures var more := acc + Found(ProductDetails(fetch, links[i]));
            DetailsFrom(fetch, links[i..], acc, maxProducts)
            == if |more| >= maxProducts then more else DetailsFrom(fetch, links[i + 1..], more, maxProducts)
  {
    assert links[i..][0] == links[i] && links[i..][1..] == links[i + 1..];
  }

  /** The detail loop of one category. */
  method ReadDetails(fetch: Fetcher, links: seq<string>, acc: seq<Product>, maxProducts: int)
    returns (products: seq<Product>)
    ensures products == DetailsFrom(fetch, links, acc, maxProducts)
  {
    products := acc;
    var i := 0;
    while i < |links|
      invariant 0 <= i <= |links|
      invariant DetailsFrom(fetch, links[i..], products, maxProducts) == DetailsFrom(fetch, links, acc, maxProducts)
    {
      DetailsFromStep(fetch, links, i, products, maxProducts);
      var product := ScrapeProductDetails(fetch, links[i]);
      products := products + Found(product);
      if |products| >= maxProducts {
        return;
      }
      i := i + 1;
    }
    assert links[i..] == [];
  }

  /** `scrape_products`, without the JSON file it writes; `None` stands
      for the `ValueError` `random.sample` raises on a negative count. */
  method ScrapeProducts(cfg: Config, fetch: Fetcher, sampler: Sampler, categories: seq<string>, maxProducts: int)
    returns (products: Option<seq<Product>>)
    requires SamplerValid(sampler)
    ensures products == ScrapeAll(cfg, fetch, sampler, categories, maxProducts)
  {
    var all: seq<Product> := [];
    var round := 0;
    while round < |categories|
      invariant 0 <= round <= |categories|
      invariant ScrapeFrom(cfg, fetch, sampler, categories, round, maxProducts, all)
                == ScrapeAll(cfg, fetch, sampler, categories, maxProducts)
    {
      var pagesNeeded := PagesNeeded(maxProducts);
      var links, requested := ScrapeProductLinks(cfg, fetch, categories[round], pagesNeeded);
      var remaining := maxProducts - |all|;
      if |links| > remaining {
        if remaining < 0 {
          return None;
        }
        links := Pick(links, sampler(round, |links|, remaining));
      }
      all := ReadDetails(fetch, links, all, maxProducts);
      if |all| >= maxProducts {
        return Some(all);
      }
      round := round + 1;
    }
    products := Some(all);
  }
}
