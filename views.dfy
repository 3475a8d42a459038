/** The API views of api/views.py that carry logic: the paginated product
    list, the star-rating distribution, and the validation of a scrape
    request together with the search URLs it builds. */
module Views {
  import opened Wrappers
  import opened Text

  // ------------------------------------------------------------ pagination

  const DefaultPage: int := 1
  const DefaultPageSize: int := 20
  const InvalidPagination := "Invalid pagination parameters"

  /** The list endpoint's answer: the page, or a client error. */
  datatype ListResponse<T> =
    | ListOk(count: nat, next: Option<string>, previous: Option<string>, results: seq<T>)
    | ListError(status: nat, error: string)

  /** `int(request.query_params.get(name, default))`: a present parameter
      is a string and must parse as an integer. */
  function IntParam(raw: Option<string>, default: int): Option<int> {
    match raw
    case None => Some(default)
    case Some(s) => ParseInt(s)
  }

  /** `order_by('-id')`: newest row first. */
  function NewestFirst<T>(rows: seq<T>): (r: seq<T>)
    ensures |r| == |rows|
    ensures forall k :: 0 <= k < |rows| ==> r[k] == rows[|rows| - 1 - k]
  {
    seq(|rows|, k requires 0 <= k < |rows| => rows[|rows| - 1 - k])
  }

  /** A queryset slice `[start:end]` with non-negative bounds: empty when
      `end <= start`, and cut at the end of the rows. */
  function Window<T>(s: seq<T>, start: nat, end: nat): seq<T> {
    if end <= start || start >= |s| then []
    else s[start..if end < |s| then end else |s|]
  }

  /** The slice keeps the rows from `start` on, at most `end - start` of
      them. */
  lemma WindowContents<T>(s: seq<T>, start: nat, end: nat)
    ensures var w := Window(s, start, end);
            && |w| == (if end <= start || start >= |s| then 0 else if end < |s| then end - start else |s| - start)
            && forall k :: 0 <= k < |w| ==> w[k] == s[start + k]
  {
  }

  function PageLink(page: int, pageSize: int): string {
    "/api/products/?page=" + IntToString(page) + "&page_size=" + IntToString(pageSize)
  }

  /** Every number the links of page `page` render has at most
      `IntMaxStrDigits` digits: `page + 1` and `size` when rows remain
      after the page (its end is `page * size`), `page - 1` and `size`
      when the page is not the first. */
  predicate LinksRenderable(count: nat, page: int, size: int) {
    && (page * size < count ==> Renderable(page + 1) && Renderable(size))
    && (page > 1 ==> Renderable(page - 1) && Renderable(size))
  }

  /** The page `page` of `size` rows, once both parameters are integers.
      A bound that comes out negative makes the queryset slice raise
      `ValueError`, and so does a link whose page number or size has more
      digits than `str()` renders; both are answered like a malformed
      parameter. */
  function ListPage<T>(rows: seq<T>, page: int, size: int): ListResponse<T> {
    var start := (page - 1) * size;
    var end := start + size;
    if start < 0 || end < 0 then ListError(400, InvalidPagination)
    else if !LinksRenderable(|rows|, page, size) then ListError(400, InvalidPagination)
    else
      ListOk(|rows|,
             if end < |rows| then Some(PageLink(page + 1, size)) else None,
             if page > 1 then Some(PageLink(page - 1, size)) else None,
             Window(NewestFirst(rows), start, end))
  }

  /** `ProductListView.get`. */
  function ListProducts<T>(rows: seq<T>, page: Option<string>, pageSize: Option<string>): ListResponse<T> {
    var p := IntParam(page, DefaultPage);
    var size := IntParam(pageSize, DefaultPageSize);
    if p.None? || size.None? then ListError(400, InvalidPagination)
    else ListPage(rows, p.value, size.value)
  }

  /** Parameters that `int()` reads as `page` and `size` ask for that page. */
  lemma ListProductsParsed<T>(rows: seq<T>, rawPage: string, rawSize: string, page: int, size: int)
    requires ParseInt(rawPage) == Some(page) && ParseInt(rawSize) == Some(size)
    ensures ListProducts(rows, Some(rawPage), Some(rawSize)) == ListPage(rows, page, size)
  {
  }

  /** A rendered integer is read back as itself. */
  lemma IntParamRendered(n: int, default: int)
    requires Renderable(n)
    ensures IntParam(Some(IntToString(n)), default) == Some(n)
  {
    ParseIntRoundTrip(n);
  }

  /** Asking for a page by its number gives that page. */
  lemma ListProductsRendered<T>(rows: seq<T>, page: int, size: int)
    requires Renderable(page) && Renderable(size)
    ensures ListProducts(rows, Some(IntToString(page)), Some(IntToString(size))) == ListPage(rows, page, size)
  {
    IntParamRendered(page, DefaultPage);
    IntParamRendered(size, DefaultPageSize);
  }

  /** A page that starts at row `start >= 0` holds the newest-first rows
      from `start` on, at most `size` of them. */
  lemma ListPageFrom<T>(rows: seq<T>, page: int, size: int, start: int)
    requires size >= 1 && start == (page - 1) * size >= 0
    requires LinksRenderable(|rows|, page, size)
    ensures var r := ListPage(rows, page, size);
            && r.ListOk?
            && r.count == |rows|
            && |r.results| == (if start >= |rows| then 0 else if start + size < |rows| then size else |rows| - start)
            && (forall k :: 0 <= k < |r.results| ==> r.results[k] == rows[|rows| - 1 - (start + k)])
  {
    var w := Window(NewestFirst(rows), start, start + size);
    assert ListPage(rows, page, size).results == w;
    WindowContents(NewestFirst(rows), start, start + size);
  }

  lemma MulNonNegative(a: int, b: int)
    requires a >= 0 && b >= 0
    ensures a * b >= 0
  {
  }

  /** Page `page` of size `size` (both positive): the `k`-th result is the
      `(page-1)*size + k`-th newest row, and there are `size` of them, or
      fewer on the last page and none beyond it. */
  lemma ListPageResults<T>(rows: seq<T>, page: int, size: int)
    requires page >= 1 && size >= 1
    requires LinksRenderable(|rows|, page, size)
    ensures var r := ListPage(rows, page, size);
            var start := (page - 1) * size;
            && r.ListOk?
            && r.count == |rows|
            && |r.results| == (if start >= |rows| then 0 else if start + size < |rows| then size else |rows| - start)
            && (forall k :: 0 <= k < |r.results| ==> r.results[k] == rows[|rows| - 1 - (start + k)])
  {
    var start := (page - 1) * size;
    MulNonNegative(page - 1, size);
    ListPageFrom(rows, page, size, start);
  }

  /** The next link is there exactly when rows remain after the page, and
      points at the following page; the previous link is there exactly
      when the page is not the first. */
  lemma ListPageLinks<T>(rows: seq<T>, page: int, size: int)
    requires page >= 1 && size >= 1
    requires LinksRenderable(|rows|, page, size)
    ensures var r := ListPage(rows, page, size);
            && r.ListOk?
            && (r.next.Some? <==> page * size < |rows|)
            && (r.next.Some? ==> r.next.value == PageLink(page + 1, size))
            && (r.previous.Some? <==> page > 1)
            && (r.previous.Some? ==> r.previous.value == PageLink(page - 1, size))
  {
    var start := (page - 1) * size;
    MulNonNegative(page - 1, size);
    assert start + size == page * size;
    assert ListPage(rows, page, size) ==
      ListOk(|rows|,
             if page * size < |rows| then Some(PageLink(page + 1, size)) else None,
             if page > 1 then Some(PageLink(page - 1, size)) else None,
             Window(NewestFirst(rows), start, start + size));
  }

  /** Without parameters the first 20 newest rows are listed. */
  lemma ListDefaults<T>(rows: seq<T>)
    ensures var r := ListProducts(rows, None, None);
            && r.ListOk?
            && r.results == NewestFirst(rows)[..if |rows| < 20 then |rows| else 20]
            && r.previous.None?
            && (r.next.Some? <==> |rows| > 20)
  {
  }

  /** A parameter that is not an integer is a client error. */
  lemma ListRejectsNonInteger<T>(rows: seq<T>, page: Option<string>, pageSize: Option<string>)
    requires (page.Some? && ParseInt(page.value).None?) || (pageSize.Some? && ParseInt(pageSize.value).None?)
    ensures ListProducts(rows, page, pageSize) == ListError(400, InvalidPagination)
  {
  }

  /** A page number with more digits than `int()` converts is refused like
      any other malformed parameter. */
  lemma ListRejectsLongNumber<T>(rows: seq<T>, page: string, pageSize: Option<string>)
    requires DigitCount(page) > IntMaxStrDigits
    ensures ListProducts(rows, Some(page), pageSize) == ListError(400, InvalidPagination)
  {
    TooManyDigitsRefused(page);
  }

  /** With a positive page size, a page number below 1 starts before the
      first row, which the queryset refuses, and a page whose links
      cannot be rendered is refused too; every other page is served. */
  lemma ListPageRejectsIff<T>(rows: seq<T>, page: int, size: int)
    requires size >= 1
    ensures ListPage(rows, page, size).ListError? <==> page < 1 || !LinksRenderable(|rows|, page, size)
  {
    if page < 1 {
      assert (page - 1) * size < 0;
    } else {
      assert (page - 1) * size >= 0;
    }
  }

  /** When the page number and size came from `int()` (so have at most
      `IntMaxStrDigits` digits), the only link `str()` refuses is the next
      link of page `10^IntMaxStrDigits - 1`: its `page + 1` has one digit
      too many. */
  lemma ParsedPageLinks(count: nat, page: int, size: int)
    requires Renderable(page) && Renderable(size)
    ensures LinksRenderable(count, page, size) <==> !(page * size < count && page + 1 == Pow10(IntMaxStrDigits))
  {
    RenderableIff(page);
    RenderableIff(page + 1);
    RenderableIff(page - 1);
  }

  /** A page number of `k` nines asks for page `10^k - 1`. */
  lemma NinesPage<T>(rows: seq<T>, k: nat)
    requires 1 <= k <= IntMaxStrDigits
    ensures ListProducts(rows, Some(Nines(k)), Some("0")) == ListPage(rows, Pow10(k) - 1, 0)
  {
    ParseNines(k);
    ParseZero();
    ListProductsParsed(rows, Nines(k), "0", Pow10(k) - 1, 0);
  }

  /** The next link of page `10^IntMaxStrDigits - 1` names a page of
      `IntMaxStrDigits + 1` digits, which `str()` refuses. */
  lemma LastPageNextRefused<T>(rows: seq<T>, k: nat)
    requires |rows| >= 1 && k == IntMaxStrDigits
    ensures ListPage(rows, Pow10(k) - 1, 0) == ListError(400, InvalidPagination)
  {
    RenderableIff(Pow10(k));
  }

  /** The page number "99...9" of `IntMaxStrDigits` nines is accepted by
      `int()`, but with rows left after the page (a page size of 0 leaves
      every row) the next link must render the following page, whose
      number has one digit too many: the view answers 400. */
  lemma NextPageTooLong<T>(rows: seq<T>, k: nat)
    requires |rows| >= 1 && k == IntMaxStrDigits
    ensures ListProducts(rows, Some(Nines(k)), Some("0")) == ListError(400, InvalidPagination)
  {
    NinesPage(rows, k);
    LastPageNextRefused(rows, k);
  }

  /** The results of pages 1 to `pages`, in order. */
  function PagesThrough<T>(rows: seq<T>, pages: nat, size: int): seq<T>
    requires size >= 1
  {
    if pages == 0 then []
    else
      var r := ListPage(rows, pages, size);
      PagesThrough(rows, pages - 1, size) + (if r.ListOk? then r.results else [])
  }

  /** Page `page` is the slice of the newest-first rows between the ends
      of pages `page - 1` and `page`. */
  lemma PageSlice<T>(rows: seq<T>, page: int, size: int)
    requires page >= 1 && size >= 1
    requires LinksRenderable(|rows|, page, size)
    ensures var start := (page - 1) * size;
            var m := if start < |rows| then start else |rows|;
            var n := if start + size < |rows| then start + size else |rows|;
            var r := ListPage(rows, page, size);
            r.ListOk? && r.results == NewestFirst(rows)[m..n]
  {
    ListPageResults(rows, page, size);
  }

  lemma PrefixThenSlice<T>(s: seq<T>, m: nat, n: nat)
    requires m <= n <= |s|
    ensures s[..m] + s[m..n] == s[..n]
  {
  }

  /** Walking the pages one after another lists the newest rows in order,
      each exactly once: pages 1 to `pages` together are the first
      `pages * size` newest rows. */
  lemma {:induction false} PagesTile<T>(rows: seq<T>, pages: nat, size: int)
    requires size >= 1
    requires forall page :: 1 <= page <= pages ==> LinksRenderable(|rows|, page, size)
    ensures var n := if pages * size < |rows| then pages * size else |rows|;
            PagesThrough(rows, pages, size) == NewestFirst(rows)[..n]
  {
    if pages > 0 {
      var all := NewestFirst(rows);
      var start := (pages - 1) * size;
      var m := if start < |rows| then start else |rows|;
      var n := if pages * size < |rows| then pages * size else |rows|;
      assert start + size == pages * size;
      assert LinksRenderable(|rows|, pages, size);
      PagesTile(rows, pages - 1, size);
      PageSlice(rows, pages, size);
      assert PagesThrough(rows, pages, size) == PagesThrough(rows, pages - 1, size) + all[m..n];
      PrefixThenSlice(all, m, n);
    }
  }

  // --------------------------------------------------- rating distribution

  /** How many ratings `r` satisfy `lo <= r < hi`; a missing (NULL)
      rating matches no range. */
  function CountInRange(ratings: seq<Option<real>>, lo: real, hi: real): (n: nat)
    ensures n <= |ratings|
  {
    if ratings == [] then 0
    else
      var rest := CountInRange(ratings[1..], lo, hi);
      if ratings[0].Some? && lo <= ratings[0].value < hi then rest + 1 else rest
  }

  /** Adjacent ranges split the count: what lies in `[lo, hi)` lies in
      exactly one of `[lo, mid)` and `[mid, hi)`. */
  lemma {:induction false} CountSplit(ratings: seq<Option<real>>, lo: real, mid: real, hi: real)
    requires lo <= mid <= hi
    ensures CountInRange(ratings, lo, mid) + CountInRange(ratings, mid, hi) == CountInRange(ratings, lo, hi)
  {
    if ratings != [] {
      CountSplit(ratings[1..], lo, mid, hi);
    }
  }

  /** The ratings outside `[lo, hi)`: missing, below, or at or above. */
  function CountOutside(ratings: seq<Option<real>>, lo: real, hi: real): nat {
    if ratings == [] then 0
    else
      var rest := CountOutside(ratings[1..], lo, hi);
      if ratings[0].Some? && lo <= ratings[0].value < hi then rest else rest + 1
  }

  lemma {:induction false} CountPartition(ratings: seq<Option<real>>, lo: real, hi: real)
    ensures CountInRange(ratings, lo, hi) + CountOutside(ratings, lo, hi) == |ratings|
  {
    if ratings != [] {
      CountPartition(ratings[1..], lo, hi);
    }
  }

  /** The key of bucket `i`, `f"{i} stars"`. */
  function StarKey(i: int): string {
    IntToString(i) + " stars"
  }

  /** The five keys are different strings. */
  lemma StarKeysDistinct(i: int, j: int)
    requires 1 <= i <= 5 && 1 <= j <= 5 && i != j
    ensures StarKey(i) != StarKey(j)
  {
    assert StarKey(i)[0] == DigitChar(i);
    assert StarKey(j)[0] == DigitChar(j);
  }

  /** The key of bucket `i` is not among those of the buckets before it. */
  lemma StarKeyFresh(distribution: map<string, nat>, i: int)
    requires 1 <= i <= 5
    requires forall key :: key in distribution ==> exists j :: 1 <= j < i && key == StarKey(j)
    ensures StarKey(i) !in distribution
  {
    if StarKey(i) in distribution {
      var j :| 1 <= j < i && StarKey(i) == StarKey(j);
      StarKeysDistinct(i, j);
    }
  }

  /** The count of bucket `i`: ratings `r` with `i <= r < i + 1`. */
  function Bucket(ratings: seq<Option<real>>, i: int): nat {
    CountInRange(ratings, i as real, (i + 1) as real)
  }

  /** `_get_rating_distribution`. */
  method RatingDistribution(ratings: seq<Option<real>>) returns (distribution: map<string, nat>)
    ensures |distribution| == 5
    ensures forall i :: 1 <= i <= 5 ==> StarKey(i) in distribution && distribution[StarKey(i)] == Bucket(ratings, i)
    ensures forall key :: key in distribution ==> exists i :: 1 <= i <= 5 && key == StarKey(i)
  {
    distribution := map[];
    for i := 1 to 6
      invariant |distribution| == i - 1
      invariant forall j :: 1 <= j < i ==> StarKey(j) in distribution && distribution[StarKey(j)] == Bucket(ratings, j)
      invariant forall key :: key in distribution ==> exists j :: 1 <= j < i && key == StarKey(j)
    {
      var count := Bucket(ratings, i);
      StarKeyFresh(distribution, i);
      distribution := distribution[StarKey(i) := count];
    }
  }

  /** The five buckets together count the ratings in `[1, 6)`; every other
      rating, including 0.0 and a missing one, is in none of them. */
  lemma DistributionTotal(ratings: seq<Option<real>>)
    ensures Bucket(ratings, 1) + Bucket(ratings, 2) + Bucket(ratings, 3) + Bucket(ratings, 4) + Bucket(ratings, 5)
            + CountOutside(ratings, 1.0, 6.0) == |ratings|
  {
    CountSplit(ratings, 1.0, 2.0, 6.0);
    CountSplit(ratings, 2.0, 3.0, 6.0);
    CountSplit(ratings, 3.0, 4.0, 6.0);
    CountSplit(ratings, 4.0, 5.0, 6.0);
    CountPartition(ratings, 1.0, 6.0);
  }

  /** A 0.0 rating (the scraper's default) lands in no bucket. */
  lemma ZeroRatingInNoBucket(ratings: seq<Option<real>>)
    ensures CountInRange(ratings + [Some(0.0)], 1.0, 6.0) == CountInRange(ratings, 1.0, 6.0)
    ensures CountOutside(ratings + [Some(0.0)], 1.0, 6.0) == CountOutside(ratings, 1.0, 6.0) + 1
  {
    CountAppend(ratings, Some(0.0), 1.0, 6.0);
  }

  lemma {:induction false} CountAppend(ratings: seq<Option<real>>, r: Option<real>, lo: real, hi: real)
    ensures var inside := r.Some? && lo <= r.value < hi;
            && CountInRange(ratings + [r], lo, hi) == CountInRange(ratings, lo, hi) + (if inside then 1 else 0)
            && CountOutside(ratings + [r], lo, hi) == CountOutside(ratings, lo, hi) + (if inside then 0 else 1)
  {
    if ratings != [] {
      assert (ratings + [r])[1..] == ratings[1..] + [r];
      CountAppend(ratings[1..], r, lo, hi);
    } else {
      assert ([] + [r])[1..] == [];
    }
  }

  // -------------------------------------------------------- scrape request

  /** A JSON value as `json.loads` returns it; objects keep their members
      in document order, repeated keys included. */
  datatype Json =
    | JNull
    | JBool(b: bool)
    | JInt(i: int)
    | JFloat(f: real)              // a finite float
    | JInfinity(negative: bool)    // `Infinity`, `-Infinity`, or a literal too large for a float, such as 1e400
    | JNaN
    | JString(s: string)
    | JList(items: seq<Json>)
    | JObject(members: seq<(string, Json)>)

  /** Python truthiness of a JSON value; infinities and NaN are true. */
  predicate Truthy(v: Json) {
    match v
    case JNull => false
    case JBool(b) => b
    case JInt(i) => i != 0
    case JFloat(f) => f != 0.0
    case JInfinity(_) => true
    case JNaN => true
    case JString(s) => s != ""
    case JList(items) => items != []
    case JObject(members) => members != []
  }

  /** `dict.get(key)`: the value of the last member with that key (JSON
      objects with repeated keys keep the last one). */
  function Lookup(members: seq<(string, Json)>, key: string): Option<Json> {
    if members == [] then None
    else if members[|members| - 1].0 == key then Some(members[|members| - 1].1)
    else Lookup(members[..|members| - 1], key)
  }

  /** The position of the first member with key `key`, or `|members|`
      when there is none. */
  function FirstIndex(members: seq<(string, Json)>, key: string): (f: nat)
    ensures f <= |members|
    ensures forall b :: 0 <= b < f ==> members[b].0 != key
    ensures f < |members| ==> members[f].0 == key
  {
    if members == [] then 0
    else
      var init := members[..|members| - 1];
      var f := FirstIndex(init, key);
      assert forall b :: 0 <= b < |init| ==> init[b] == members[b];
      if f < |init| then f
      else if members[|members| - 1].0 == key then |init|
      else |members|
  }

  /** The keys of the dictionary `json.loads` builds from an object: each
      key once, in the order of the first member that has it. */
  function Keys(members: seq<(string, Json)>): (keys: seq<string>)
    ensures forall i, j :: 0 <= i < j < |keys| ==> keys[i] != keys[j]
    ensures forall j :: 0 <= j < |members| ==> members[j].0 in keys
    ensures forall i :: 0 <= i < |keys| ==> FirstIndex(members, keys[i]) < |members|
    ensures forall i, j :: 0 <= i < j < |keys| ==> FirstIndex(members, keys[i]) < FirstIndex(members, keys[j])
  {
    if members == [] then []
    else
      var init := members[..|members| - 1];
      var keys := Keys(init);
      var key := members[|members| - 1].0;
      KeysStep(members, keys);
      if key in keys then keys else keys + [key]
  }

  /** One member more: a key already seen keeps its first position, and
      a new key has its first position after all of them. */
  lemma KeysStep(members: seq<(string, Json)>, keys: seq<string>)
    requires |members| > 0
    requires var init := members[..|members| - 1];
             && (forall j :: 0 <= j < |init| ==> init[j].0 in keys)
             && (forall i :: 0 <= i < |keys| ==> FirstIndex(init, keys[i]) < |init|)
    ensures var key := members[|members| - 1].0;
            && (forall j :: 0 <= j < |members| ==> members[j].0 in keys + [key])
            && (forall i :: 0 <= i < |keys| ==> FirstIndex(members, keys[i]) == FirstIndex(members[..|members| - 1], keys[i]))
            && (key !in keys ==> FirstIndex(members, key) == |members| - 1)
  {
    var init := members[..|members| - 1];
    assert forall j :: 0 <= j < |init| ==> init[j] == members[j];
    var key := members[|members| - 1].0;
    if key !in keys {
      assert forall b :: 0 <= b < |init| ==> init[b].0 != key;
    }
  }

  /** The keys come in the order of their first occurrence: for any two
      keys, the first comes from a member placed before every member that
      has the second. */
  lemma KeysOrder(members: seq<(string, Json)>)
    ensures var keys := Keys(members);
            forall i, j :: 0 <= i < j < |keys| ==>
              exists a :: 0 <= a < |members| && members[a].0 == keys[i] && forall b :: 0 <= b <= a ==> members[b].0 != keys[j]
  {
    var keys := Keys(members);
    forall i, j | 0 <= i < j < |keys|
      ensures exists a :: 0 <= a < |members| && members[a].0 == keys[i] && forall b :: 0 <= b <= a ==> members[b].0 != keys[j]
    {
      var a := FirstIndex(members, keys[i]);
      assert a < FirstIndex(members, keys[j]);
      assert members[a].0 == keys[i];
    }
  }

  /** Truncation toward zero of a real, as `int(float)` does. */
  function Truncate(f: real): int {
    if f >= 0.0 then f.Floor else -((-f).Floor)
  }

  /** What `int(v)` does: a value, a `ValueError` or `TypeError`, or an
      `OverflowError`. */
  datatype IntConversion = Converted(value: int) | Refused | Overflow

  /** `int(max_products)`. NaN raises `ValueError`, an infinity
      `OverflowError`; null, lists and objects raise `TypeError`. */
  function IntOf(v: Json): IntConversion {
    match v
    case JInt(i) => Converted(i)
    case JBool(b) => Converted(if b then 1 else 0)
    case JFloat(f) => Converted(Truncate(f))
    case JInfinity(_) => Overflow
    case JString(s) => (match ParseInt(s) case Some(n) => Converted(n) case None => Refused)
    case _ => Refused
  }

  /** The strings `for category in categories` visits, or `None` when the
      loop or `category.strip()` raises: a list must hold strings only, a
      string yields its characters, an object its keys. */
  function CategoryNames(v: Json): Option<seq<string>> {
    match v
    case JList(items) =>
      if forall k :: 0 <= k < |items| ==> items[k].JString? then
        Some(seq(|items|, k requires 0 <= k < |items| => items[k].s))
      else None
    case JString(s) => Some(seq(|s|, k requires 0 <= k < |s| => [s[k]]))
    case JObject(members) => Some(Keys(members))
    case _ => None
  }

  const SearchPrefix := "https://www.amazon.com/s?k="
  const NoCategories := "No categories provided"
  const NotANumber := "max_products must be a valid number"
  const NotPositive := "max_products must be a positive number"
  const DefaultMaxProducts: int := 100
  const MaxProductsCap: int := 500

  /** The search URL for one category name. */
  function CategoryUrl(category: string): string {
    SearchPrefix + ReplaceSpaces(Strip(category))
  }

  /** The outcome of the validation part of `ScraperView.post`: an error
      response, or the search URLs and product count the scrape is
      started with. */
  datatype ScrapeRequest =
    | BadRequest(error: string)
    | ServerError
    | Accepted(categoryUrls: seq<string>, maxProducts: int)

  /** The request body: not JSON, JSON that is not an object, or an
      object. */
  datatype Body = NotJson | NotAnObject | Members(members: seq<(string, Json)>)

  /** The checked `max_products`: the count used, the message of a 400
      answer, or an exception the check does not catch. */
  datatype MaxProductsCheck = Capped(value: int) | Rejected(error: string) | Raised

  /** The check of `max_products`: default 100, integer, positive, at most
      500. */
  function MaxProductsOf(raw: Json): MaxProductsCheck {
    match IntOf(raw)
    case Refused => Rejected(NotANumber)
    case Overflow => Raised
    case Converted(n) =>
      if n <= 0 then Rejected(NotPositive)
      else Capped(if n > MaxProductsCap then MaxProductsCap else n)
  }

  /** The checks of `ScraperView.post` on the `categories` and
      `max_products` values, then the search URLs. An exception outside
      what the checks catch (categories that cannot be iterated as
      strings, an infinite `max_products`) is the view's 500 answer, whose
      message is the exception text and is not modelled. */
  function Validate(categories: Json, rawMax: Json): ScrapeRequest {
    if !Truthy(categories) then BadRequest(NoCategories)
    else match MaxProductsOf(rawMax)
      case Rejected(e) => BadRequest(e)
      case Raised => ServerError
      case Capped(n) =>
        match CategoryNames(categories)
        case None => ServerError
        case Some(names) => Accepted(seq(|names|, k requires 0 <= k < |names| => CategoryUrl(names[k])), n)
  }

  /** Validation and URL building of `ScraperView.post`; a body that is
      not a JSON object fails in `json.loads` or `data.get`. */
  function ScrapeRequestOf(body: Body): ScrapeRequest {
    match body
    case NotJson => ServerError
    case NotAnObject => ServerError
    case Members(members) =>
      Validate(Lookup(members, "categories").GetOr(JList([])),
               Lookup(members, "max_products").GetOr(JInt(DefaultMaxProducts)))
  }

  /** Missing or empty categories are refused before `max_products` is
      looked at. */
  lemma NoCategoriesFirst(members: seq<(string, Json)>)
    requires Lookup(members, "categories").None? || !Truthy(Lookup(members, "categories").value)
    ensures ScrapeRequestOf(Members(members)) == BadRequest(NoCategories)
  {
  }

  /** Only an accepted request reaches the scrape: one whose categories
      are non-empty and whose `max_products` converts to a positive
      integer. */
  lemma AcceptedIff(categories: Json, rawMax: Json)
    ensures Validate(categories, rawMax).Accepted? <==>
              Truthy(categories) && CategoryNames(categories).Some?
              && IntOf(rawMax).Converted? && IntOf(rawMax).value > 0
    ensures Validate(categories, rawMax).Accepted? ==> 1 <= Validate(categories, rawMax).maxProducts <= MaxProductsCap
  {
  }

  /** The accepted count is always in 1..500; an integer in that range is
      kept, a larger one becomes 500, a missing one 100; a zero or negative
      one is refused as not positive, a value `int()` refuses as not a
      number, and an infinity escapes the check. */
  lemma MaxProductsRules(raw: Json)
    ensures MaxProductsOf(raw).Capped? ==> 1 <= MaxProductsOf(raw).value <= MaxProductsCap
    ensures raw.JInt? && 1 <= raw.i <= MaxProductsCap ==> MaxProductsOf(raw) == Capped(raw.i)
    ensures raw.JInt? && raw.i > MaxProductsCap ==> MaxProductsOf(raw) == Capped(MaxProductsCap)
    ensures IntOf(raw).Converted? && IntOf(raw).value <= 0 ==> MaxProductsOf(raw) == Rejected(NotPositive)
    ensures IntOf(raw).Refused? <==> MaxProductsOf(raw) == Rejected(NotANumber)
    ensures IntOf(raw).Overflow? <==> MaxProductsOf(raw) == Raised
    ensures MaxProductsOf(JInt(DefaultMaxProducts)) == Capped(100)
    ensures MaxProductsOf(JNaN) == Rejected(NotANumber)
    ensures MaxProductsOf(JInfinity(false)) == Raised && MaxProductsOf(JInfinity(true)) == Raised
  {
  }

  /** An infinite `max_products` with non-empty categories is the 500
      answer, not a 400. */
  lemma InfiniteMaxProducts(categories: Json, negative: bool)
    requires Truthy(categories)
    ensures Validate(categories, JInfinity(negative)) == ServerError
  {
  }

  /** A count with more digits than `int()` converts is not a number. */
  lemma LongMaxProductsRefused(s: string)
    requires DigitCount(s) > IntMaxStrDigits
    ensures MaxProductsOf(JString(s)) == Rejected(NotANumber)
  {
    TooManyDigitsRefused(s);
  }

  /** A number sent as a string counts like the number itself. */
  lemma MaxProductsAsString(n: int)
    requires Renderable(n)
    ensures MaxProductsOf(JString(IntToString(n))) == MaxProductsOf(JInt(n))
  {
    ParseIntRoundTrip(n);
  }

  /** JSON strings wrapping the given names. */
  function JStrings(names: seq<string>): (items: seq<Json>)
    ensures |items| == |names|
    ensures forall k :: 0 <= k < |names| ==> items[k] == JString(names[k])
  {
    seq(|names|, k requires 0 <= k < |names| => JString(names[k]))
  }

  /** A list of strings is iterated as those strings. */
  lemma ListOfStrings(names: seq<string>)
    ensures CategoryNames(JList(JStrings(names))) == Some(names)
  {
    var items := JStrings(names);
    assert forall k :: 0 <= k < |items| ==> items[k].JString? && items[k].s == names[k];
    assert seq(|items|, k requires 0 <= k < |items| => items[k].s) == names;
  }

  /** A key repeated in a `categories` object is one dictionary entry, so
      it gives one search URL. */
  lemma RepeatedCategoryKey()
    ensures ScrapeRequestOf(Members([("categories", JObject([("tv", JInt(1)), ("tv", JInt(2))]))]))
            == Accepted([CategoryUrl("tv")], DefaultMaxProducts)
  {
    var members := [("tv", JInt(1)), ("tv", JInt(2))];
    assert members[..1] == [("tv", JInt(1))];
    assert Keys(members[..1]) == ["tv"];
    assert Keys(members) == ["tv"];
  }

  /** A non-empty list of category names gives one search URL per name,
      in order, whose query is the stripped name with spaces turned into
      '+'. */
  lemma AcceptedUrls(names: seq<string>, rawMax: Json)
    requires names != [] && MaxProductsOf(rawMax).Capped?
    ensures var r := Validate(JList(JStrings(names)), rawMax);
            && r.Accepted? && r.maxProducts == MaxProductsOf(rawMax).value && |r.categoryUrls| == |names|
            && forall k :: 0 <= k < |names| ==>
                 r.categoryUrls[k] == SearchPrefix + ReplaceSpaces(Strip(names[k]))
  {
    ListOfStrings(names);
  }

  /** `replace('+', ' ')`, the inverse used when reading the query back. */
  function PlusToSpace(s: string): string {
    seq(|s|, i requires 0 <= i < |s| => if s[i] == '+' then ' ' else s[i])
  }

  /** With no '+' in the text, turning spaces into '+' and back is the
      identity, and leaves no space behind. */
  lemma ReplaceSpacesRoundTrip(t: string)
    requires '+' !in t
    ensures ' ' !in ReplaceSpaces(t)
    ensures PlusToSpace(ReplaceSpaces(t)) == t
  {
    var r := ReplaceSpaces(t);
    assert forall k :: 0 <= k < |r| ==> r[k] != ' ' && (r[k] == '+' <==> t[k] == ' ');
  }

  /** Stripping removes characters and adds none. */
  lemma StripAddsNothing(s: string, c: char)
    requires c !in s
    ensures c !in Strip(s)
  {
    StripRemovesOnlyEnds(s);
  }

  /** The query of a category URL holds no space, and turning '+' back
      into spaces gives the stripped name, provided the name had no '+'. */
  lemma CategoryUrlRoundTrip(category: string)
    requires '+' !in category
    ensures var q := CategoryUrl(category)[|SearchPrefix|..];
            && ' ' !in q
            && PlusToSpace(q) == Strip(category)
  {
    var t := Strip(category);
    StripAddsNothing(category, '+');
    ReplaceSpacesRoundTrip(t);
    assert CategoryUrl(category)[|SearchPrefix|..] == ReplaceSpaces(t);
  }

  /** The URL-building loop of `ScraperView.post`. */
  method BuildCategoryUrls(names: seq<string>) returns (urls: seq<string>)
    ensures |urls| == |names|
    ensures forall k :: 0 <= k < |names| ==> urls[k] == CategoryUrl(names[k])
  {
    urls := [];
    for k := 0 to |names|
      invariant |urls| == k
      invariant forall j :: 0 <= j < k ==> urls[j] == CategoryUrl(names[j])
    {
      var formatted := ReplaceSpaces(Strip(names[k]));
      urls := urls + [SearchPrefix + formatted];
    }
  }

  /** `ScraperView.post` up to the start of the scrape. */
  method HandleScrapeRequest(body: Body) returns (r: ScrapeRequest)
    ensures r == ScrapeRequestOf(body)
  {
    if !body.Members? {
      return ServerError;
    }
    var categories := Lookup(body.members, "categories").GetOr(JList([]));
    var rawMax := Lookup(body.members, "max_products").GetOr(JInt(DefaultMaxProducts));
    if !Truthy(categories) {
      return BadRequest(NoCategories);
    }
    var maxProducts := MaxProductsOf(rawMax);
    if maxProducts.Rejected? {
      return BadRequest(maxProducts.error);
    }
    if maxProducts.Raised? {
      return ServerError;
    }
    var names := CategoryNames(categories);
    if names.None? {
      return ServerError;
    }
    var urls := BuildCategoryUrls(names.value);
    r := Accepted(urls, maxProducts.value);
  }
}
