# Ecommerce analyzer core, modelled in Dafny

This project models the core of the Ecommerce_analyzer repository, in three parts.

- **The Amazon scraper.** `scraper/scraper.py`:
  - fetches a search page and rejects verification pages;
  - walks the result pages of a category, taking one product link per result card through four strategies, in priority order;
  - reads each product page into a record with defaults: name, price, description, rating, image, URL and source;
  - drives all of this across several categories. It caps the total and draws a random sample when a category offers more links than the records still missing.
- **The snapshot importer.** `scraper/import_data.py` upserts the scraped records into the product table, keyed by URL, and reports how many rows were added and updated.
- **The API views.** `api/views.py`:
  - the paginated product list;
  - the star-rating distribution;
  - the validation of a scrape request, and the search URLs it builds.

## Modules

Each module is one file.

- **`Wrappers`** (`wrappers.dfy`): `Option`.
- **`Text`** (`text.dfy`): the string primitives the source relies on.
  - Python's `str.isspace` and `str.strip`, the ASCII part of `str.lower`, and substring `in`.
  - `int(...)` on strings and the rendering of integers in f-strings, both with the 4300-digit limit of current Python versions.
  - `float(...)` on strings of digits and dots.
- **`Page`** (`page.dfy`): `_get_page`.
  - The network, the retrying session and the HTML parser form a `Fetcher` parameter. It maps a URL to a response: the body text and the parsed document, or nothing when the request failed.
  - The document is given by what the CSS selectors of the source find in it.
- **`LinkExtractor`** (`links.dfy`): `scrape_product_links`.
  - `CollectFrom` and `CollectLinks` specify the pagination loop. The `ScrapeProductLinks` method carries out that loop and is proved equal to them.
  - The model also records the numbers of the pages it requested, for the proofs.
- **`DetailExtractor`** (`details.dfy`): `scrape_product_details` and `_extract_text`. Each field has a specification function and a selector loop proved equal to it.
- **`Orchestrator`** (`orchestrator.dfy`): `scrape_products` without the JSON file it writes.
  - `random.sample` becomes a `Sampler` parameter. The only thing assumed of it is that it draws distinct positions.
- **`Importer`** (`importer.dfy`): `import_amazon_data`.
  - The product table is the `rows` field of the `ProductStore` class, updated in place.
  - `Import` is its specification on values.
- **`Views`** (`views.dfy`): `ProductListView.get`, `ProductStatsView._get_rating_distribution`, and `ScraperView.post` up to the start of the scrape.

## Behaviour of the code worth knowing

- **Small requests.** `pages_needed = min(5, max_products // 20)` is 0 whenever `max_products < 20`. Such a request fetches no result page and returns no record (`SmallRequestScrapesNothing`). A request for 10 products therefore scrapes nothing.
- **Rating scale.** A rating above 5 is divided by 20, and nothing clamps the result. The rating is therefore within 0..5 only when the number read is at most 100 (`RescaleRange`). A reading of 18 becomes 0.9; a reading of 90, as in "90%", becomes 4.5 (`PercentRating`).
- **Missing snapshot file.** A missing file makes `import_amazon_data` return `None`, not a zero count. Only a file that cannot be read or parsed, or an exception during the import, gives `(0, 0)`.
- **Price.** When `float` refuses the digits and dots of the price text, the code keeps that string as the price. An example is text with two dots, or with no digit at all. The model keeps the string (`Price.Unparsed`), so a price is not always a non-negative number.
- **A page number `str()` cannot render.** `int()` accepts the page number "9…9" of 4300 digits. When rows remain after that page, its next link must render the page after it, which has 4301 digits. `str()` then raises `ValueError`, so the list view answers 400. With a page size of 0, one row is enough (`NextPageTooLong`).
- **Duplicate lookup.** `Product.objects.filter(url=url).first()` on a table ordered by descending `id` picks the most recently inserted row for that URL (`LastMatch`).

## Model

| member | source | states |
|---|---|---|
| Text.Strip | api/views.py:145 | `str.strip()`: the result neither starts nor ends with whitespace |
| Text.StripRemovesOnlyEnds | api/views.py:145 | what `strip` removes is whitespace at the two ends only; the rest of the string is kept in order |
| Text.StripUnchanged | api/views.py:33-34 | a string with no whitespace at either end is left as it is |
| Text.LowerSlice | scraper/scraper.py:101 | lower-casing commutes with taking a slice, so "captcha" is looked for in every capitalisation |
| Text.NatToStringDigits | api/views.py:52-53 | the f-string rendering of a natural number is a non-empty run of digits, with no leading zero, whose value is the number |
| Text.IntToStringSign | api/views.py:52-53 | a rendered integer starts with '-' exactly when it is negative |
| Text.ParseIntUnpadded | api/views.py:33-34 | a string that starts with '-' or a digit and ends with a digit has nothing to strip: `int()` reads its sign and digits directly, within the digit limit |
| Text.TooManyDigitsRefused | api/views.py:33-34 | a string with more than 4300 digits is refused by `int()` |
| Text.ParseSignedRoundTrip | api/views.py:52-53 | the sign and digits of a rendered integer read back as that integer |
| Text.ParseIntRoundTrip | api/views.py:33-34 | `int(str(n)) == n` for every integer of at most 4300 digits, so the page numbers in the links read back as themselves |
| Text.IntToStringInjective | api/views.py:52-53 | different page numbers give different link texts |
| Text.NatToStringLength | api/views.py:52-53 | a natural number renders to at most `k` digits exactly when it is below `10^k` |
| Text.RenderableIff | api/views.py:52-53 | `str()` renders exactly the integers of magnitude below `10^4300` |
| Text.NinesValue | api/views.py:33 | a run of `k` nines is the number `10^k - 1` |
| Text.ParseNines | api/views.py:33 | `int()` reads a run of `k` nines, `k` at most 4300, as `10^k - 1` |
| Text.ParseDecimalDefined | scraper/scraper.py:234-236 | `float()` accepts digits and dots exactly when there is at most one dot and at least one digit; the value is never negative |
| Text.ParseDecimalOfNat | scraper/scraper.py:258 | `float()` of a rendered natural number is that number |
| Page.SoftBlockedIff | scraper/scraper.py:100-103 | a body is refused exactly when it holds "Robot Check" (that capitalisation) or "captcha" in any capitalisation |
| Page.UpperCaptchaBlocked | scraper/scraper.py:101 | a body with "CAPTCHA" is refused |
| Page.LowerRobotCheckPasses | scraper/scraper.py:101 | "robot check" in lower case is not refused, because that test is case-sensitive |
| LinkExtractor.FirstProductAnchorIsFirst | scraper/scraper.py:175-183 | the any-link strategy takes the first anchor whose href mentions "/dp/" or "/gp/product/", and finds nothing exactly when no anchor does |
| LinkExtractor.FirstApplicableIsFirst | scraper/scraper.py:144-183 | the strategy chain yields the candidate of the first strategy that has one, and nothing exactly when none does |
| LinkExtractor.CardLinkPriority | scraper/scraper.py:147-183 | a standard link wins over the title's parent, which wins over a non-empty ASIN, which wins over the first product anchor; relative links are resolved against the base URL |
| LinkExtractor.PageLinks | scraper/scraper.py:144-183 | a page contributes at most one link per card |
| LinkExtractor.PageLinksSnoc | scraper/scraper.py:144-183 | each card appends its own link, if any, after the links of the cards before it |
| LinkExtractor.ExtractCardLink | scraper/scraper.py:147-183 | the body of the card loop returns the link of the strategy chain |
| LinkExtractor.AppendPageLinks | scraper/scraper.py:144-183 | the card loop appends the links of the page's cards, in card order, to those already collected |
| LinkExtractor.PageUrlsDistinct | scraper/scraper.py:130-133 | different page numbers give different page URLs |
| LinkExtractor.CollectFromCount | scraper/scraper.py:128-196 | from a given page on, the loop requests at least one page and never goes past `num_pages`; it requests none when there are none left |
| LinkExtractor.CollectFromRequests | scraper/scraper.py:128-135 | the pages requested are consecutive page numbers |
| LinkExtractor.CollectFromLinks | scraper/scraper.py:135-183 | the links collected are the links of the pages requested, concatenated in request order |
| LinkExtractor.CollectLinksShape | scraper/scraper.py:113-199 | pages 1, 2, … are requested, at most `num_pages` of them (none when `num_pages <= 0`); the result is the concatenation of their links |
| LinkExtractor.CollectFromGoesOn | scraper/scraper.py:187-196 | every page before the last one requested was either not fetched, or was fetched with an enabled "next" control and left fewer than 200 links collected |
| LinkExtractor.CollectFromEndsEarly | scraper/scraper.py:187-196 | when the loop stops before `num_pages`, the last page was fetched and either the 200-link limit was reached or it had no usable "next" control |
| LinkExtractor.CollectFromBelowLimit | scraper/scraper.py:187-190 | after every fetched page before the last one requested, fewer than 200 links had been collected |
| LinkExtractor.CollectLinksStops | scraper/scraper.py:187-196 | for a whole category: the walk goes on past a page only when that page was not fetched, or was fetched with an enabled "next" control and fewer than 200 links collected so far; it ends early only on a fetched page that reached 200 links or had no usable "next" control |
| LinkExtractor.CollectFromBound | scraper/scraper.py:187-190 | the limit is checked only after a whole page: the links stay below 200 plus the number of cards on one page |
| LinkExtractor.CollectLinksBound | scraper/scraper.py:187-190 | the same bound for a whole category |
| LinkExtractor.PageLinksAllStandard | scraper/scraper.py:147-154 | when every card has a standard link, a page contributes exactly one link per card |
| LinkExtractor.LimitOvershoot | scraper/scraper.py:187-190 | a first page with more than 200 standard-link cards yields more than 200 links; the limit does not truncate |
| LinkExtractor.ScrapeProductLinks | scraper/scraper.py:113-199 | the pagination loop returns the links, and requests the pages, that `CollectLinks` specifies |
| DetailExtractor.ExtractText | scraper/scraper.py:292-295 | a selector that matches nothing gives the empty default |
| DetailExtractor.ProductNameCases | scraper/scraper.py:221-227 | the name is the title's text when the title is present and that text is not empty, otherwise "Unknown Product"; it is never empty |
| DetailExtractor.NumberChars | scraper/scraper.py:234 | the price filter keeps only digits and dots |
| DetailExtractor.NumberCharsKeeps | scraper/scraper.py:234 | a string of digits and dots passes the filter unchanged |
| DetailExtractor.NumberCharsIdempotent | scraper/scraper.py:234 | filtering twice is filtering once |
| DetailExtractor.NoNumberCharsPrefix | scraper/scraper.py:234 | a prefix without digits or dots (a currency sign, say) does not change the filtered price |
| DetailExtractor.ProductPriceCases | scraper/scraper.py:229-240 | no price text gives 0.0; text whose digits and dots `float` accepts gives that value; otherwise those digits and dots are kept as a string |
| DetailExtractor.ProductPriceNonNegative | scraper/scraper.py:234-236 | a parsed price is never negative |
| DetailExtractor.ProductPriceUnparsedIff | scraper/scraper.py:229-240 | the price stays a string exactly when there was price text and its filtered form has no digit or more than one dot |
| DetailExtractor.TextOnlyPriceKept | scraper/scraper.py:229-240 | price text without any digit or dot leaves the empty string as the price |
| DetailExtractor.FirstNonEmptyIsFirst | scraper/scraper.py:242-247 | the description is the text of the first selector whose text is not empty, and empty exactly when every selector's text is empty |
| DetailExtractor.RunFrom | scraper/scraper.py:255 | the longest prefix made only of digits and dots |
| DetailExtractor.FirstRun | scraper/scraper.py:255 | a match of `([0-9.]+)` is a non-empty run of digits and dots |
| DetailExtractor.FirstRunIsLeftmost | scraper/scraper.py:255 | the match is the maximal run that starts at the leftmost digit or dot, and there is none exactly when the text has no digit or dot |
| DetailExtractor.RunFromPrefix | scraper/scraper.py:255 | a run of digits and dots followed by anything else is matched exactly |
| DetailExtractor.RescaleRange | scraper/scraper.py:259-260 | a non-negative reading stays non-negative; it ends within 0..5 exactly when it is at most 100; a reading of at most 5 is kept |
| DetailExtractor.RatingFromNonNegative | scraper/scraper.py:249-264 | every rating found is non-negative |
| DetailExtractor.ProductRatingNonNegative | scraper/scraper.py:278 | the rating field, 0.0 by default, is never negative |
| DetailExtractor.LeadingNumberRating | scraper/scraper.py:249-262 | a rating text that starts with a number `float` accepts gives that number, rescaled |
| DetailExtractor.ParseFourPointFive | scraper/scraper.py:258 | `float("4.5")` is 4.5 |
| DetailExtractor.StarTextRating | scraper/scraper.py:249-262 | "4.5 out of 5 stars" reads as 4.5 |
| DetailExtractor.PercentRating | scraper/scraper.py:249-262 | "90%" reads as 90 and is rescaled to 4.5 |
| DetailExtractor.ProductDetailsFields | scraper/scraper.py:201-290 | there is no record exactly when the page could not be fetched or was refused; a record keeps its URL, comes from "amazon", has a non-empty name and a non-negative rating |
| DetailExtractor.EmptyPageDefaults | scraper/scraper.py:274-283 | a page where no selector matches gives "Unknown Product", price 0.0, an empty description, rating 0.0 and no image |
| DetailExtractor.ExtractName | scraper/scraper.py:221-227 | the name loop gives the name `ProductNameCases` describes |
| DetailExtractor.ExtractPrice | scraper/scraper.py:229-240 | the price loop gives the price `ProductPriceCases` describes |
| DetailExtractor.ExtractDescription | scraper/scraper.py:242-247 | the description loop gives the first non-empty selector text |
| DetailExtractor.ExtractRating | scraper/scraper.py:249-264 | the rating loop gives the first rescaled reading, or 0.0 |
| DetailExtractor.ScrapeProductDetails | scraper/scraper.py:201-290 | the whole method gives the record `ProductDetails` specifies |
| Orchestrator.PagesNeeded | scraper/scraper.py:303-304 | never more than 5 pages; for a non-negative request, the pages times 20 do not exceed `max_products` |
| Orchestrator.Pick | scraper/scraper.py:311 | the sample holds the links at the drawn positions, in draw order |
| Orchestrator.PickSubMultiset | scraper/scraper.py:309-311 | a sample of distinct positions takes no link more often than it occurs |
| Orchestrator.ChosenLinksBound | scraper/scraper.py:309-311 | a category keeps all its links when they are not more than the records still missing; otherwise exactly that many, drawn without taking any link more often than it occurs; the sample fails exactly when it would be asked for a negative count |
| Orchestrator.ChosenFromLinks | scraper/scraper.py:309-311 | every chosen link is one of the category's links |
| Orchestrator.DetailsFromGrows | scraper/scraper.py:314-320 | the detail loop keeps the records it had and adds at most one per link |
| Orchestrator.DetailsFromProvenance | scraper/scraper.py:314-317 | every record the detail loop adds is exactly what reading one of its links gives |
| Orchestrator.ScrapeFromBound | scraper/scraper.py:301-323 | from any category on, the records gathered never exceed `max_products` and earlier ones are kept |
| Orchestrator.ScrapeAllBound | scraper/scraper.py:297-333 | for `max_products >= 0`, the result has at most `max_products` records |
| Orchestrator.NegativeMaxRaises | scraper/scraper.py:309-311 | a negative `max_products` with a category raises the `ValueError` of `random.sample` |
| Orchestrator.SmallRequestFrom | scraper/scraper.py:303-306 | with fewer than 20 products wanted, no page is requested and nothing is gathered |
| Orchestrator.SmallRequestScrapesNothing | scraper/scraper.py:303-306 | `max_products` below 20 returns no record |
| Orchestrator.ScrapeFromProvenance | scraper/scraper.py:301-323 | every record returned is exactly what reading its URL gives |
| Orchestrator.ScrapeAllProvenance | scraper/scraper.py:297-333 | every record returned is what reading its URL gives, and comes from "amazon" |
| Orchestrator.ReadDetails | scraper/scraper.py:314-320 | the detail loop gives what `DetailsFrom` specifies |
| Orchestrator.ScrapeProducts | scraper/scraper.py:297-333 | the method gives what `ScrapeAll` specifies |
| Importer.FieldsOf | scraper/import_data.py:41-46 | each present key gives its value; missing keys give "Unknown Product", 0.0, "", 0.0, "" for the image URL, and "" for the URL |
| Importer.LastMatch | scraper/import_data.py:50 | a match is a row with that URL |
| Importer.LastMatchIsLast | scraper/import_data.py:50 | there is no match exactly when no row has that URL; otherwise the match is the most recently inserted such row |
| Importer.UpsertEffect | scraper/import_data.py:52-75 | a known URL rewrites that row's values and `last_updated` and keeps its URL and source; an unknown one appends a new "amazon" row without `last_updated`; nothing else changes |
| Importer.UpsertKeepsUrls | scraper/import_data.py:50-75 | after an upsert the record's URL has a row, and every URL that had one still has one |
| Importer.UpsertKeepsDistinct | scraper/import_data.py:50-75 | an upsert never creates a second row for a URL |
| Importer.ImportFromKeepsDistinct | scraper/import_data.py:39-75 | a table with one row per URL keeps that property through the import |
| Importer.ImportFromCounts | scraper/import_data.py:39-78 | the table grows by exactly the additions; each record is counted at most once, and exactly once when nothing raised |
| Importer.ImportFromKeepsRows | scraper/import_data.py:39-75 | no row is removed, and every row keeps its URL and source |
| Importer.ImportFromKeeps | scraper/import_data.py:39-75 | every URL that had a row keeps one |
| Importer.ImportFromCovers | scraper/import_data.py:39-75 | after a successful import every record's URL has a row |
| Importer.ImportFromAllKnown | scraper/import_data.py:39-75 | when every record's URL already has a row, nothing is added |
| Importer.ImportCounts | scraper/import_data.py:23-82 | a missing file returns `None` and leaves the table alone; a corrupt file gives (0, 0); otherwise (added, updated) with their sum equal to the number of records, or (0, 0) after an exception, which keeps the upserts made before it |
| Importer.ReimportAddsNothing | scraper/import_data.py:39-78 | importing the same snapshot again adds nothing and updates every record |
| Importer.DuplicateUrlInSnapshot | scraper/import_data.py:39-78 | two records with the same new URL add one row, then update it, giving (1, 1) |
| Importer.ProductStore.FindByUrl | scraper/import_data.py:50 | the lookup finds the row `LastMatch` specifies |
| Importer.ProductStore.Refresh | scraper/import_data.py:52-61 | the update branch rewrites the matched row only |
| Importer.ProductStore.Create | scraper/import_data.py:63-74 | the create branch appends one "amazon" row |
| Importer.ProductStore.ImportAmazonData | scraper/import_data.py:23-82 | the import returns, and leaves in the table, what `Import` specifies |
| Views.NewestFirst | api/views.py:37 | `order_by('-id')`: the k-th row listed is the k-th newest |
| Views.WindowContents | api/views.py:44 | the queryset slice keeps the rows from `start` on, at most `end - start` of them, and none when `end <= start` |
| Views.IntParamRendered | api/views.py:33-34 | a parameter holding a rendered integer of at most 4300 digits reads back as that integer |
| Views.ListProductsParsed | api/views.py:33-44 | parameters that `int()` reads as `p` and `s` ask for page `p` of size `s` |
| Views.ListProductsRendered | api/views.py:29-44 | asking for a page by its number and size, each of at most 4300 digits, serves that page |
| Views.ListPageFrom | api/views.py:40-53 | a page that starts at row `start`, and whose links can be rendered, lists the newest rows from `start` on, at most a page's worth |
| Views.ListPageResults | api/views.py:40-53 | page `p` of size `s` whose links can be rendered lists the newest rows from `(p-1)*s` on: `s` of them, fewer on the last page, none beyond it; the count is the number of rows |
| Views.ListPageLinks | api/views.py:50-53 | when the numbers in the links can be rendered: a next link exactly when rows remain after the page, and it names the following page; a previous link exactly when the page is not the first |
| Views.ListDefaults | api/views.py:33-53 | without parameters the 20 newest rows are listed, with no previous link, and a next link exactly when there are more than 20 rows |
| Views.ListRejectsNonInteger | api/views.py:33-61 | a page or page-size parameter that is not an integer gives 400 "Invalid pagination parameters" |
| Views.ListRejectsLongNumber | api/views.py:33-61 | a page number of more than 4300 digits gives 400 "Invalid pagination parameters" |
| Views.ListPageRejectsIff | api/views.py:40-61 | with a positive page size, 400 comes exactly for a page number below 1 or a page whose links hold a number `str()` cannot render; every other page is served |
| Views.ParsedPageLinks | api/views.py:33-53 | when page and size came from `int()`, the only link `str()` refuses is the next link of page `10^4300 - 1`, when rows remain after it |
| Views.NinesPage | api/views.py:33-44 | a page number of `k` nines and size "0" ask for page `10^k - 1` of size 0 |
| Views.LastPageNextRefused | api/views.py:50-61 | with a row left, page `10^4300 - 1` of size 0 gets 400, because its next link names a page of 4301 digits |
| Views.NextPageTooLong | api/views.py:29-61 | the page number "9…9" of 4300 digits, which `int()` accepts, with size "0" and at least one row, gives 400 |
| Views.PageSlice | api/views.py:40-53 | each page whose links can be rendered is the slice of the newest rows between the end of the page before it and its own end |
| Views.PagesTile | api/views.py:29-55 | when the links of pages 1 to `n` can be rendered, walking them lists the first `n * s` newest rows, in order, each once |
| Views.CountInRange | api/views.py:101 | a range count never exceeds the number of rows |
| Views.CountSplit | api/views.py:100-102 | adjacent rating ranges split a count |
| Views.CountPartition | api/views.py:100-102 | every rating is either inside a range or outside it |
| Views.CountAppend | api/views.py:101 | a new rating adds one to exactly one of "inside" and "outside" |
| Views.StarKeysDistinct | api/views.py:102 | the five keys "1 stars" … "5 stars" are different |
| Views.StarKeyFresh | api/views.py:100-102 | the key of a bucket is not among those of the buckets before it |
| Views.RatingDistribution | api/views.py:97-103 | exactly the five keys; the key "i stars" holds the count of ratings in `[i, i+1)` |
| Views.DistributionTotal | api/views.py:97-103 | the five buckets together with the ratings outside `[1, 6)` account for every row |
| Views.ZeroRatingInNoBucket | api/views.py:101 | the default rating 0.0 lands in no bucket |
| Views.NoCategoriesFirst | api/views.py:113-122 | missing or empty categories give 400 "No categories provided", whatever `max_products` is |
| Views.AcceptedIff | api/views.py:113-147 | a request goes ahead exactly when its categories are truthy and can be walked as strings, and `max_products` converts to a positive integer; the count used is then within 1..500 |
| Views.MaxProductsRules | api/views.py:125-139 | 1..500 is kept, more becomes 500, the default is 100; zero or less gives "must be a positive number"; exactly a value on which `int()` raises `ValueError` or `TypeError`, NaN included, gives "must be a valid number"; exactly an infinity raises `OverflowError`, which the check does not catch |
| Views.InfiniteMaxProducts | api/views.py:125-139 | with categories given, an infinite `max_products` is the 500 answer |
| Views.LongMaxProductsRefused | api/views.py:125-139 | a `max_products` string of more than 4300 digits gives "must be a valid number" |
| Views.MaxProductsAsString | api/views.py:126 | a count of at most 4300 digits sent as a string counts like the number itself |
| Views.ListOfStrings | api/views.py:143 | a list of strings is walked as those strings |
| Views.FirstIndex | api/views.py:143 | the position of the first member with a key: no earlier member has it, and the member there does |
| Views.Keys | api/views.py:113-114 | an object parsed by `json.loads` holds each key once, in the order of first occurrence: no key repeats, every key of the document is there, each comes from a member, and of two keys the earlier one first occurs before the later one |
| Views.KeysOrder | api/views.py:143 | the category names of an object are walked in first-occurrence order: each key comes from a member placed before every member that has a later key |
| Views.RepeatedCategoryKey | api/views.py:143-147 | a `categories` object with a repeated key gives one search URL for that key |
| Views.AcceptedUrls | api/views.py:141-147 | a non-empty list of names gives one search URL per name, in order, ending in the stripped name with spaces turned into '+' |
| Views.ReplaceSpacesRoundTrip | api/views.py:145 | with no '+' in the name, the spaces replaced by '+' can be restored, and no space is left |
| Views.StripAddsNothing | api/views.py:145 | stripping adds no character |
| Views.CategoryUrlRoundTrip | api/views.py:145-146 | for a name without '+', the query of its search URL has no space and reads back, '+' for space, as the stripped name |
| Views.BuildCategoryUrls | api/views.py:141-147 | the URL loop builds one search URL per category, in order |
| Views.HandleScrapeRequest | api/views.py:109-147 | the view answers, up to the start of the scrape, as `ScrapeRequestOf` specifies |

## Left out

- The `Fetcher` is a function: every request for the same URL in one run gets the same answer. The provenance lemmas (`DetailsFromProvenance`, `ScrapeFromProvenance`, `ScrapeAllProvenance`) rely on this, for example when a category or a link occurs twice. The real site may answer a repeated request differently.
- HTTP transport: the session, its retry policy, headers, cookies, the connectivity check, timeouts and the delay between requests. They are folded into the `Fetcher` parameter, for which a failed or refused request is simply no response.
- HTML parsing with BeautifulSoup and CSS selector matching. A document is given by what each selector the source uses finds in it: text, attributes, cards, and the classes of the "next" control.
- `urljoin`: it is a parameter of `Config`, and no property of it is assumed.
- Floating point: prices, ratings and JSON numbers with a fraction are exact reals; of the non-finite values only the JSON `Infinity`, `-Infinity` and `NaN` of `max_products` are modelled. `float()` is modelled on digit-and-dot strings only; exponents, signs, "inf" and "nan" are not modelled, because they never get through the digit-and-dot filter.
- `str.isdigit` and `str.lower` are modelled on ASCII only. `isdigit` also accepts other Unicode digits, and `lower` folds non-ASCII letters as well.
- `int()` of strings: Unicode digits and underscores between digits are not modelled. The 4300-digit limit is the default of Python 3.11 and of the security releases 3.10.7, 3.9.14, 3.8.14 and 3.7.14; older releases have no limit.
- `sys.set_int_max_str_digits` and the `PYTHONINTMAXSTRDIGITS` setting: the model keeps the default limit of 4300 digits for both `int()` and `str()`.
- The product model class in `api/models.py` declares no `url`, `source`, `image_url` or `last_updated` field. With that class as written, the URL lookup raises, and every non-empty import ends in the exception branch with (0, 0). The upsert is modelled against a table that has these fields, which the rest of the code expects.
- `scraped_at` and `last_updated`: the clock is a parameter (`now`), read once per import. `scraped_at` is not part of the record.
- Writing and reading the JSON snapshot: the importer receives the file as `Missing`, `Corrupt` or the loaded list of entries.
- The database: the product table is a sequence of rows, with its own ordering by descending `id`. The check constraints and the field types of the model class that can make `save()` raise are the `storable` parameter.
- `ScrapeProductLinks` also returns the page numbers it requested; the source returns only the links.
- Logging, and the exception handlers whose only effect is a log line and a `None`.
- `ScraperView.post` after validation: running the scrape and the import, and building the success response. They are calls to `ScrapeProducts` and `ImportAmazonData`. The view unpacks the import's result into two counts, which raises when the file is missing.
- The text of 500 responses and the `detail` field of the list view's 400 answer: both are the exception's own message and are not modelled (`ServerError`, `ListError`).
- The list view's 500 answer. The model assumes Django 4.0 or later, where a negative queryset slice bound (`page=0`, say) raises `ValueError` and so gives 400. Earlier versions raise `AssertionError` there, which gives 500.
- ListPage: does not model the database refusing a LIMIT or OFFSET outside signed 64 bits. The slice bounds become the LIMIT and OFFSET of the query that `serializer.data` runs; SQLite and PostgreSQL refuse such a value, and the resulting error gives 500. With `page=1` and `page_size` of `10^30`, for example, the source answers 500 and the model serves the page.
- ListPageResults: describes `ListPage`, so it too calls a page with such bounds served where the source answers 500.
- ListPageRejectsIff: describes `ListPage`, so it too calls a page with such bounds served where the source answers 500.
- ListProductsRendered: describes `ListPage`, so it too calls a page with such bounds served where the source answers 500.
- `ProductDetailView`, the aggregates of `ProductStatsView` other than the rating distribution, the other views, the serializers and `scraper/run.py`: they are outside this model.
- `Views.ListPageResults`: the serializer's output is modelled as the rows themselves.
