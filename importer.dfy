/** `import_amazon_data`: load the scraper's JSON snapshot and upsert each
    record into the product table by URL, counting additions and updates.
    The table is a `ProductStore` whose rows are kept in insertion (`id`)
    order. */
module Importer {
  import opened Wrappers
  import opened DetailExtractor

  /** One object of the snapshot, each key present or not. A present
      `image_url` may hold JSON `null`. */
  datatype SnapshotRecord = SnapshotRecord(
    name: Option<string>,
    price: Option<Price>,
    description: Option<string>,
    rating: Option<real>,
    imageUrl: Option<Option<string>>,
    url: Option<string>
  )

  /** An element of the snapshot's top-level list: an object, or anything
      else (on which `product.get` raises). */
  datatype Entry = Object(record: SnapshotRecord) | NotAnObject

  /** The snapshot file: absent, not valid JSON, or the loaded list. */
  datatype SnapshotFile = Missing | Corrupt | Loaded(entries: seq<Entry>)

  /** The values one record is written with, defaults filled in. */
  datatype Fields = Fields(
    name: string,
    price: Price,
    description: string,
    rating: real,
    imageUrl: Option<string>,
    url: string
  )

  /** A stored product row. `lastUpdated` is set when the importer
      refreshes a row and left unset when it creates one. */
  datatype StoredProduct = StoredProduct(
    name: string,
    price: Price,
    description: string,
    rating: real,
    imageUrl: Option<string>,
    url: string,
    source: string,
    lastUpdated: Option<int>
  )

  /** What the import returns: nothing when the file is missing, else the
      pair (added, updated), which is (0, 0) after any exception. */
  datatype ImportResult = NoFile | Counts(added: nat, updated: nat)

  /** `product.get(key, default)` for each field: a present key gives its
      value, a missing one "Unknown Product", 0.0, "", 0.0, "" and "". */
  function FieldsOf(r: SnapshotRecord): (f: Fields)
    ensures r.name.None? ==> f.name == UnknownName
    ensures r.name.Some? ==> f.name == r.name.value
    ensures r.price.None? ==> f.price == Amount(0.0)
    ensures r.price.Some? ==> f.price == r.price.value
    ensures r.description.None? ==> f.description == ""
    ensures r.description.Some? ==> f.description == r.description.value
    ensures r.rating.None? ==> f.rating == 0.0
    ensures r.rating.Some? ==> f.rating == r.rating.value
    ensures r.imageUrl.None? ==> f.imageUrl == Some("")
    ensures r.imageUrl.Some? ==> f.imageUrl == r.imageUrl.value
    ensures r.url.None? ==> f.url == ""
    ensures r.url.Some? ==> f.url == r.url.value
  {
    Fields(
      r.name.GetOr(UnknownName),
      r.price.GetOr(Amount(0.0)),
      r.description.GetOr(""),
      r.rating.GetOr(0.0),
      r.imageUrl.GetOr(Some("")),
      r.url.GetOr(""))
  }

  /** The row `Product.objects.create` adds for a record. */
  function Created(f: Fields): StoredProduct {
    StoredProduct(f.name, f.price, f.description, f.rating, f.imageUrl, f.url, Source, None)
  }

  /** A stored row after the update branch: the record's values, a fresh
      `last_updated`, and its own `url` and `source`. */
  function Refreshed(row: StoredProduct, f: Fields, now: int): StoredProduct {
    row.(name := f.name, price := f.price, description := f.description, rating := f.rating,
         imageUrl := f.imageUrl, lastUpdated := Some(now))
  }

  /** `Product.objects.filter(url=url).first()`: the table is ordered by
      descending `id`, so this is the most recently inserted row with that
      URL. */
  function LastMatch(rows: seq<StoredProduct>, url: string): (k: Option<nat>)
    ensures k.Some? ==> k.value < |rows| && rows[k.value].url == url
  {
    if rows == [] then None
    else if rows[|rows| - 1].url == url then Some(|rows| - 1)
    else LastMatch(rows[..|rows| - 1], url)
  }

  /** The row found is the last with that URL, and none is found exactly
      when no row has it. */
  lemma {:induction false} LastMatchIsLast(rows: seq<StoredProduct>, url: string)
    ensures LastMatch(rows, url).None? <==> forall j :: 0 <= j < |rows| ==> rows[j].url != url
    ensures LastMatch(rows, url).Some? ==> forall j :: LastMatch(rows, url).value < j < |rows| ==> rows[j].url != url
  {
    if rows != [] && rows[|rows| - 1].url != url {
      var init := rows[..|rows| - 1];
      LastMatchIsLast(init, url);
      assert forall j :: 0 <= j < |init| ==> rows[j] == init[j];
    }
  }

  /** One pass of the loop body on the table. */
  function Upsert(rows: seq<StoredProduct>, f: Fields, now: int): seq<StoredProduct> {
    match LastMatch(rows, f.url)
    case Some(k) => rows[k := Refreshed(rows[k], f, now)]
    case None => rows + [Created(f)]
  }

  /** A matched record rewrites exactly the matched row's values and
      timestamp, keeping its URL and source; an unmatched one appends a new
      "amazon" row; nothing else changes. */
  lemma UpsertEffect(rows: seq<StoredProduct>, f: Fields, now: int)
    ensures var r := Upsert(rows, f, now);
            match LastMatch(rows, f.url)
            case Some(k) =>
              && |r| == |rows|
              && r[k].name == f.name && r[k].price == f.price && r[k].description == f.description
              && r[k].rating == f.rating && r[k].imageUrl == f.imageUrl && r[k].lastUpdated == Some(now)
              && r[k].url == rows[k].url == f.url && r[k].source == rows[k].source
              && (forall j :: 0 <= j < |rows| && j != k ==> r[j] == rows[j])
            case None =>
              && |r| == |rows| + 1 && r[..|rows|] == rows
              && r[|rows|] == StoredProduct(f.name, f.price, f.description, f.rating, f.imageUrl, f.url,
                                            Source, None)
  {
    if LastMatch(rows, f.url).None? {
      assert Upsert(rows, f, now)[..|rows|] == rows;
    }
  }

  /** The import loop's state: the table, the two counters, and whether an
      exception ended it. */
  datatype Run = Run(rows: seq<StoredProduct>, added: nat, updated: nat, failed: bool)

  /** The import loop from an entry on. An entry that is not an object, or
      whose values the database refuses to store, raises: the loop stops
      there and earlier upserts stay. */
  function ImportFrom(rows: seq<StoredProduct>, entries: seq<Entry>, added: nat, updated: nat,
                      storable: Fields -> bool, now: int): Run
    decreases |entries|
  {
    if entries == [] then Run(rows, added, updated, false)
    else match entries[0]
      case NotAnObject => Run(rows, added, updated, true)
      case Object(rec) =>
        var f := FieldsOf(rec);
        if !storable(f) then Run(rows, added, updated, true)
        else if LastMatch(rows, f.url).Some? then
          ImportFrom(Upsert(rows, f, now), entries[1..], added, updated + 1, storable, now)
        else
          ImportFrom(Upsert(rows, f, now), entries[1..], added + 1, updated, storable, now)
  }

  /** What `import_amazon_data` returns and the table it leaves. */
  function Import(rows: seq<StoredProduct>, file: SnapshotFile, storable: Fields -> bool, now: int)
    : (ImportResult, seq<StoredProduct>)
  {
    match file
    case Missing => (NoFile, rows)
    case Corrupt => (Counts(0, 0), rows)
    case Loaded(entries) =>
      var run := ImportFrom(rows, entries, 0, 0, storable, now);
      (if run.failed then Counts(0, 0) else Counts(run.added, run.updated), run.rows)
  }

  // ------------------------------------------------------------ properties

  /** The table grows by exactly the additions, every entry handled is
      counted once, and, without an exception, every entry was handled. */
  lemma {:induction false} ImportFromCounts(rows: seq<StoredProduct>, entries: seq<Entry>, added: nat, updated: nat,
                                            storable: Fields -> bool, now: int)
    ensures var run := ImportFrom(rows, entries, added, updated, storable, now);
            && |run.rows| - |rows| == run.added - added
            && added <= run.added && updated <= run.updated
            && run.added - added + run.updated - updated <= |entries|
            && (!run.failed ==> run.added - added + run.updated - updated == |entries|)
    decreases |entries|
  {
    if entries != [] && entries[0].Object? && storable(FieldsOf(entries[0].record)) {
      var f := FieldsOf(entries[0].record);
      var known := LastMatch(rows, f.url).Some?;
      ImportFromStep(rows, entries, added, updated, storable, now);
      UpsertEffect(rows, f, now);
      ImportFromCounts(Upsert(rows, f, now), entries[1..], if known then added else added + 1,
                       if known then updated + 1 else updated, storable, now);
    }
  }

  /** No row is removed, and every row keeps its URL and source. */
  lemma {:induction false} ImportFromKeepsRows(rows: seq<StoredProduct>, entries: seq<Entry>, added: nat, updated: nat,
                                               storable: Fields -> bool, now: int)
    ensures var run := ImportFrom(rows, entries, added, updated, storable, now);
            && |run.rows| >= |rows|
            && forall j :: 0 <= j < |rows| ==> run.rows[j].url == rows[j].url && run.rows[j].source == rows[j].source
    decreases |entries|
  {
    if entries != [] && entries[0].Object? && storable(FieldsOf(entries[0].record)) {
      var f := FieldsOf(entries[0].record);
      var known := LastMatch(rows, f.url).Some?;
      var next := Upsert(rows, f, now);
      ImportFromStep(rows, entries, added, updated, storable, now);
      UpsertEffect(rows, f, now);
      ImportFromKeepsRows(next, entries[1..], if known then added else added + 1,
                          if known then updated + 1 else updated, storable, now);
      if !known {
        assert forall j :: 0 <= j < |rows| ==> next[j] == rows[j];
      }
    }
  }

  /** The counters and the table agree: the table grows by exactly the
      additions, even when an exception cut the import short (and (0, 0)
      is reported); on success `added + updated` is the number of records;
      no stored row is removed or loses its URL or source. A missing or
      unreadable file leaves the table as it was. */
  lemma ImportCounts(rows: seq<StoredProduct>, file: SnapshotFile, storable: Fields -> bool, now: int)
    ensures var (result, after) := Import(rows, file, storable, now);
            && |after| >= |rows|
            && (forall j :: 0 <= j < |rows| ==> after[j].url == rows[j].url && after[j].source == rows[j].source)
            && (file.Loaded? ==>
                  var run := ImportFrom(rows, file.entries, 0, 0, storable, now);
                  && |after| == |rows| + run.added
                  && (run.failed ==> result == Counts(0, 0))
                  && (!run.failed ==> result == Counts(run.added, run.updated)
                                      && run.added + run.updated == |file.entries|))
            && (file.Missing? ==> result == NoFile && after == rows)
            && (file.Corrupt? ==> result == Counts(0, 0) && after == rows)
  {
    if file.Loaded? {
      ImportFromCounts(rows, file.entries, 0, 0, storable, now);
      ImportFromKeepsRows(rows, file.entries, 0, 0, storable, now);
    }
  }

  /** No two rows share a URL. */
  ghost predicate DistinctUrls(rows: seq<StoredProduct>) {
    forall i, j :: 0 <= i < j < |rows| ==> rows[i].url != rows[j].url
  }

  /** An upsert never introduces a second row for a URL. */
  lemma UpsertKeepsDistinct(rows: seq<StoredProduct>, f: Fields, now: int)
    requires DistinctUrls(rows)
    ensures DistinctUrls(Upsert(rows, f, now))
  {
    UpsertEffect(rows, f, now);
    LastMatchIsLast(rows, f.url);
    var r := Upsert(rows, f, now);
    if LastMatch(rows, f.url).None? {
      forall i, j | 0 <= i < j < |r|
        ensures r[i].url != r[j].url
      {
        if j == |rows| {
          assert r[i] == rows[i];
        } else {
          assert r[i] == rows[i] && r[j] == rows[j];
        }
      }
    }
  }

  /** Starting from a table without duplicate URLs, the import keeps it so. */
  lemma {:induction false} ImportFromKeepsDistinct(rows: seq<StoredProduct>, entries: seq<Entry>, added: nat,
                                                   updated: nat, storable: Fields -> bool, now: int)
    requires DistinctUrls(rows)
    ensures DistinctUrls(ImportFrom(rows, entries, added, updated, storable, now).rows)
    decreases |entries|
  {
    if entries != [] && entries[0].Object? {
      var f := FieldsOf(entries[0].record);
      if storable(f) {
        UpsertKeepsDistinct(rows, f, now);
        var next := Upsert(rows, f, now);
        if LastMatch(rows, f.url).Some? {
          ImportFromKeepsDistinct(next, entries[1..], added, updated + 1, storable, now);
        } else {
          ImportFromKeepsDistinct(next, entries[1..], added + 1, updated, storable, now);
        }
      }
    }
  }

  /** Some row has this URL. */
  ghost predicate HasUrl(rows: seq<StoredProduct>, url: string) {
    exists j :: 0 <= j < |rows| && rows[j].url == url
  }

  /** The URL of every object entry. */
  function EntryUrl(e: Entry): string
    requires e.Object?
  {
    FieldsOf(e.record).url
  }

  /** An upsert leaves a row for the record's URL and keeps every URL that
      had one. */
  lemma UpsertKeepsUrls(rows: seq<StoredProduct>, f: Fields, now: int)
    ensures HasUrl(Upsert(rows, f, now), f.url)
    ensures forall url :: HasUrl(rows, url) ==> HasUrl(Upsert(rows, f, now), url)
  {
    var next := Upsert(rows, f, now);
    UpsertEffect(rows, f, now);
    if LastMatch(rows, f.url).None? {
      assert next[|rows|].url == f.url;
    }
    forall url | HasUrl(rows, url)
      ensures HasUrl(next, url)
    {
      var j :| 0 <= j < |rows| && rows[j].url == url;
      assert next[j].url == url;
    }
  }

  /** One storable record: the import goes on from the upserted rows. */
  lemma ImportFromStep(rows: seq<StoredProduct>, entries: seq<Entry>, added: nat, updated: nat,
                       storable: Fields -> bool, now: int)
    requires entries != [] && entries[0].Object? && storable(FieldsOf(entries[0].record))
    ensures var f := FieldsOf(entries[0].record);
            var known := LastMatch(rows, f.url).Some?;
            ImportFrom(rows, entries, added, updated, storable, now)
            == ImportFrom(Upsert(rows, f, now), entries[1..], if known then added else added + 1,
                          if known then updated + 1 else updated, storable, now)
  {
  }

  /** The import keeps a row for every URL that had one. */
  lemma {:induction false} ImportFromKeeps(rows: seq<StoredProduct>, entries: seq<Entry>, added: nat, updated: nat,
                                           storable: Fields -> bool, now: int)
    ensures forall url :: HasUrl(rows, url) ==> HasUrl(ImportFrom(rows, entries, added, updated, storable, now).rows, url)
    decreases |entries|
  {
    if entries != [] && entries[0].Object? && storable(FieldsOf(entries[0].record)) {
      var f := FieldsOf(entries[0].record);
      var known := LastMatch(rows, f.url).Some?;
      ImportFromStep(rows, entries, added, updated, storable, now);
      UpsertKeepsUrls(rows, f, now);
      ImportFromKeeps(Upsert(rows, f, now), entries[1..], if known then added else added + 1,
                      if known then updated + 1 else updated, storable, now);
    }
  }

  /** A successful import leaves a row for the URL of every record. */
  lemma {:induction false} ImportFromCovers(rows: seq<StoredProduct>, entries: seq<Entry>, added: nat, updated: nat,
                                            storable: Fields -> bool, now: int)
    ensures var run := ImportFrom(rows, entries, added, updated, storable, now);
            !run.failed ==> forall i :: 0 <= i < |entries| ==> entries[i].Object? && HasUrl(run.rows, EntryUrl(entries[i]))
    decreases |entries|
  {
    if entries != [] && entries[0].Object? && storable(FieldsOf(entries[0].record)) {
      var f := FieldsOf(entries[0].record);
      var known := LastMatch(rows, f.url).Some?;
      var next := Upsert(rows, f, now);
      var a, u := if known then added else added + 1, if known then updated + 1 else updated;
      ImportFromStep(rows, entries, added, updated, storable, now);
      UpsertKeepsUrls(rows, f, now);
      ImportFromKeeps(next, entries[1..], a, u, storable, now);
      ImportFromCovers(next, entries[1..], a, u, storable, now);
      var run := ImportFrom(next, entries[1..], a, u, storable, now);
      if !run.failed {
        forall i | 0 <= i < |entries|
          ensures entries[i].Object? && HasUrl(run.rows, EntryUrl(entries[i]))
        {
          if i > 0 {
            assert entries[i] == entries[1..][i - 1];
          }
        }
      }
    }
  }

  /** When every record's URL already has a row, nothing is added. */
  lemma {:induction false} ImportFromAllKnown(rows: seq<StoredProduct>, entries: seq<Entry>, added: nat, updated: nat,
                                              storable: Fields -> bool, now: int)
    requires forall i :: 0 <= i < |entries| ==> entries[i].Object? && HasUrl(rows, EntryUrl(entries[i]))
    ensures ImportFrom(rows, entries, added, updated, storable, now).added == added
    decreases |entries|
  {
    if entries != [] {
      var f := FieldsOf(entries[0].record);
      if storable(f) {
        LastMatchIsLast(rows, f.url);
        var next := Upsert(rows, f, now);
        UpsertEffect(rows, f, now);
        forall i | 0 <= i < |entries[1..]|
          ensures entries[1..][i].Object? && HasUrl(next, EntryUrl(entries[1..][i]))
        {
          assert entries[1..][i] == entries[i + 1];
          var j :| 0 <= j < |rows| && rows[j].url == EntryUrl(entries[i + 1]);
          assert next[j].url == rows[j].url;
        }
        ImportFromAllKnown(next, entries[1..], added, updated + 1, storable, now);
      }
    }
  }

  /** Importing a snapshot that was just imported successfully adds
      nothing and, when it succeeds again, updates every record. */
  lemma ReimportAddsNothing(rows: seq<StoredProduct>, entries: seq<Entry>, storable: Fields -> bool,
                            now: int, later: int)
    requires !ImportFrom(rows, entries, 0, 0, storable, now).failed
    ensures var first := ImportFrom(rows, entries, 0, 0, storable, now);
            var second := ImportFrom(first.rows, entries, 0, 0, storable, later);
            second.added == 0 && (!second.failed ==> second.updated == |entries|)
  {
    ImportFromCovers(rows, entries, 0, 0, storable, now);
    var first := ImportFrom(rows, entries, 0, 0, storable, now);
    ImportFromAllKnown(first.rows, entries, 0, 0, storable, later);
    ImportFromCounts(first.rows, entries, 0, 0, storable, later);
  }

  /** Two records with the same new URL in one snapshot: the first is
      added and the second updates the row it created. */
  lemma DuplicateUrlInSnapshot(rows: seq<StoredProduct>, a: SnapshotRecord, b: SnapshotRecord,
                               storable: Fields -> bool, now: int)
    requires FieldsOf(a).url == FieldsOf(b).url
    requires forall j :: 0 <= j < |rows| ==> rows[j].url != FieldsOf(a).url
    requires storable(FieldsOf(a)) && storable(FieldsOf(b))
    ensures var (result, after) := Import(rows, Loaded([Object(a), Object(b)]), storable, now);
            && result == Counts(1, 1)
            && |after| == |rows| + 1
            && after[|rows|] == Refreshed(Created(FieldsOf(a)), FieldsOf(b), now)
  {
    var fa, fb := FieldsOf(a), FieldsOf(b);
    var entries := [Object(a), Object(b)];
    LastMatchIsLast(rows, fa.url);
    var once := rows + [Created(fa)];
    assert Upsert(rows, fa, now) == once;
    assert entries[1..] == [Object(b)];
    assert LastMatch(once, fb.url) == Some(|rows|);
    var twice := once[|rows| := Refreshed(once[|rows|], fb, now)];
    assert Upsert(once, fb, now) == twice;
    assert ImportFrom(twice, [], 1, 1, storable, now) == Run(twice, 1, 1, false);
    assert [Object(b)][1..] == [];
    assert ImportFrom(once, [Object(b)], 1, 0, storable, now) == Run(twice, 1, 1, false);
    assert ImportFrom(rows, entries, 0, 0, storable, now) == Run(twice, 1, 1, false);
  }

  // --------------------------------------------------------------- the table

  /** The product table. */
  class ProductStore {
    var rows: seq<StoredProduct>

    constructor (initial: seq<StoredProduct>)
      ensures rows == initial
    {
      rows := initial;
    }

    /** `Product.objects.filter(url=url).first()`: scan from the newest row. */
    method FindByUrl(url: string) returns (k: Option<nat>)
      ensures k == LastMatch(rows, url)
    {
      var i := |rows|;
      assert rows[..i] == rows;
      while i > 0
        invariant 0 <= i <= |rows|
        invariant LastMatch(rows[..i], url) == LastMatch(rows, url)
      {
        assert rows[..i][..i - 1] == rows[..i - 1];
        if rows[i - 1].url == url {
          return Some(i - 1);
        }
        i := i - 1;
      }
      return None;
    }

    /** The update branch: assign the fields and `save()`. */
    method Refresh(k: nat, f: Fields, now: int)
      requires k < |rows|
      modifies this
      ensures rows == old(rows)[k := Refreshed(old(rows)[k], f, now)]
    {
      rows := rows[k := Refreshed(rows[k], f, now)];
    }

    /** `Product.objects.create(...)`. */
    method Create(f: Fields)
      modifies this
      ensures rows == old(rows) + [Created(f)]
    {
      rows := rows + [Created(f)];
    }

    /** `import_amazon_data`: `storable` says which values the database
        accepts (a `save` or `create` it refuses raises), `now` is the
        clock. */
    method ImportAmazonData(file: SnapshotFile, storable: Fields -> bool, now: int) returns (result: ImportResult)
      modifies this
      ensures (result, rows) == Import(old(rows), file, storable, now)
    {
      if file.Missing? {
        return NoFile;
      }
      if file.Corrupt? {
        return Counts(0, 0);
      }
      var entries := file.entries;
      var added, updated := 0, 0;
      var i := 0;
      while i < |entries|
        invariant 0 <= i <= |entries|
        invariant ImportFrom(rows, entries[i..], added, updated, storable, now)
                  == ImportFrom(old(rows), entries, 0, 0, storable, now)
      {
        assert entries[i..][0] == entries[i] && entries[i..][1..] == entries[i + 1..];
        if entries[i].NotAnObject? {
          return Counts(0, 0);
        }
        var f := FieldsOf(entries[i].record);
        if !storable(f) {
          return Counts(0, 0);
        }
        ghost var before := rows;
        var existing := FindByUrl(f.url);
        if existing.Some? {
          Refresh(existing.value, f, now);
          updated := updated + 1;
        } else {
          Create(f);
          added := added + 1;
        }
        assert rows == Upsert(before, f, now);
        i := i + 1;
      }
      assert entries[i..] == [];
      return Counts(added, updated);
    }
  }
}
