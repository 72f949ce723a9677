/**
 * Processing one workbook (`process_excel_file`) and folding the results of
 * all workbooks into one dataset keyed by period (the loop of `run`).
 */
module Accumulation {
  import opened Wrappers
  import opened Strings
  import opened Cells
  import opened Catalog
  import opened FileNames
  import opened Extraction

  /**
   * A workbook as the reader sees it: `Unreadable` when opening or reading it
   * raises, otherwise its sheets by name.
   */
  datatype Workbook = Unreadable | Opened(sheets: map<string, Grid>)

  /**
   * An input file: its name, its contents, and the month (`%Y-%m`) the clock
   * shows while it is processed, used when the name carries no period.
   */
  datatype SourceFile = SourceFile(name: string, book: Workbook, clockPeriod: string)

  /** The only sheet that is read. */
  const ValueSheet: string := "Value"

  /** `all_data`: period key to the merged extraction results of that period. */
  type Dataset = map<string, ExtractionResult>

  /** Every value is non-empty and every code is a column of the catalog. */
  predicate WellFormedResult(d: ExtractionResult) {
    forall k :: k in d ==> d[k] != "" && k in CatalogCodes()
  }

  predicate WellFormed(ds: Dataset) {
    forall p :: p in ds ==> WellFormedResult(ds[p])
  }

  /** The period of a file and the sheet of interest, if it can be read. */
  function ValueGrid(f: SourceFile): Option<Grid> {
    if f.book.Opened? && ValueSheet in f.book.sheets then Some(f.book.sheets[ValueSheet]) else None
  }

  /**
   * `process_excel_file`: the period comes from the name whatever happens to
   * the workbook; an unreadable workbook or one without a `Value` sheet gives
   * an empty result, otherwise the `Value` sheet is extracted as the asset
   * type the name indicates.
   */
  function ProcessFile(f: SourceFile): (r: (string, ExtractionResult))
    ensures r.0 == PeriodOf(f.name, f.clockPeriod)
    ensures ValueGrid(f).None? ==> r.1 == map[]
    ensures WellFormedResult(r.1)
  {
    var period := PeriodOf(f.name, f.clockPeriod);
    match ValueGrid(f)
    case None => (period, map[])
    case Some(grid) =>
      ExtractContents(grid, SheetTypeOf(f.name));
      (period, Extract(grid, SheetTypeOf(f.name)))
  }

  /**
   * A readable file yields, for every indicator, the value `Expected` assigns
   * it on the `Value` sheet under the name's asset type; its codes all carry
   * that asset type's prefix, and there are at most 42 of them.
   */
  lemma ProcessFileContents(f: SourceFile)
    ensures ValueGrid(f).Some? ==>
              forall ind: Indicator :: Lookup(ProcessFile(f).1, Code(ind)) == Expected(ValueGrid(f).value, SheetTypeOf(f.name), ind)
    ensures forall k :: k in ProcessFile(f).1 ==> StartsWith(k, SheetPrefix(SheetTypeOf(f.name)))
    ensures |ProcessFile(f).1| <= 42
  {
    if ValueGrid(f).Some? {
      var grid, t := ValueGrid(f).value, SheetTypeOf(f.name);
      ExtractCharacterised(grid, t);
      ExtractContents(grid, t);
      ExtractSize(grid, t);
    }
  }

  /** `all_data.setdefault(period, {}).update(data)`; `MergeMeaning` says what it does. */
  function Merge(ds: Dataset, p: string, d: ExtractionResult): Dataset {
    ds[p := (if p in ds then ds[p] else map[]) + d]
  }

  /**
   * After a merge the period exists even when `d` is empty, `d`'s values
   * override, the period's other values stay, and no other period changes.
   */
  lemma MergeMeaning(ds: Dataset, p: string, d: ExtractionResult)
    ensures Merge(ds, p, d).Keys == ds.Keys + {p}
    ensures forall k :: k in d ==> k in Merge(ds, p, d)[p] && Merge(ds, p, d)[p][k] == d[k]
    ensures p in ds ==> forall k :: k in ds[p] && k !in d ==> k in Merge(ds, p, d)[p] && Merge(ds, p, d)[p][k] == ds[p][k]
    ensures Merge(ds, p, d)[p].Keys == (if p in ds then ds[p].Keys else {}) + d.Keys
    ensures forall q :: q in ds && q != p ==> Merge(ds, p, d)[q] == ds[q]
  {
  }

  /** Merging the same result twice is merging it once. */
  lemma MergeIdempotent(ds: Dataset, p: string, d: ExtractionResult)
    ensures Merge(Merge(ds, p, d), p, d) == Merge(ds, p, d)
  {
    var once := Merge(ds, p, d);
    assert once[p] + d == once[p];
  }

  /** Results for different periods can be merged in either order. */
  lemma MergeCommutesAcrossPeriods(ds: Dataset, p: string, d: ExtractionResult, q: string, e: ExtractionResult)
    requires p != q
    ensures Merge(Merge(ds, p, d), q, e) == Merge(Merge(ds, q, e), p, d)
  {
    var x := (if p in ds then ds[p] else map[]) + d;
    var y := (if q in ds then ds[q] else map[]) + e;
    assert Merge(Merge(ds, p, d), q, e) == ds[p := x][q := y];
    assert Merge(Merge(ds, q, e), p, d) == ds[q := y][p := x];
    UpdatesCommute(ds, p, x, q, y);
  }

  lemma UpdatesCommute<K, V>(m: map<K, V>, a: K, x: V, b: K, y: V)
    requires a != b
    ensures m[a := x][b := y] == m[b := y][a := x]
  {
  }

  /** Unions of maps with disjoint keys can be taken in either order. */
  lemma UnionCommutes<K, V>(m: map<K, V>, d: map<K, V>, e: map<K, V>)
    requires d.Keys !! e.Keys
    ensures m + d + e == m + e + d
    ensures (m + d + e).Keys == m.Keys + d.Keys + e.Keys
  {
  }

  /**
   * Results with disjoint codes for the same period (an ETF and a REIT
   * workbook of one month) can be merged in either order: the period ends
   * up with their union.
   */
  lemma MergeCommutesDisjoint(ds: Dataset, p: string, d: ExtractionResult, e: ExtractionResult)
    requires d.Keys !! e.Keys
    ensures Merge(Merge(ds, p, d), p, e) == Merge(Merge(ds, p, e), p, d)
    ensures Merge(Merge(ds, p, d), p, e)[p].Keys == (if p in ds then ds[p].Keys else {}) + d.Keys + e.Keys
  {
    var base: ExtractionResult := if p in ds then ds[p] else map[];
    UnionCommutes(base, d, e);
    UpdateTwice(ds, p, base + d, base + d + e);
    UpdateTwice(ds, p, base + e, base + e + d);
  }

  lemma UpdateTwice<K, V>(m: map<K, V>, a: K, x: V, y: V)
    ensures m[a := x][a := y] == m[a := y]
  {
  }

  /** Merging keeps a dataset well formed. */
  lemma MergeWellFormed(ds: Dataset, p: string, d: ExtractionResult)
    requires WellFormed(ds) && WellFormedResult(d)
    ensures WellFormed(Merge(ds, p, d))
  {
  }

  /** One processed file: its period key and its extraction result. */
  type Processed = (string, ExtractionResult)

  /** The results of the files, in file order. */
  function Results(files: seq<SourceFile>): (rs: seq<Processed>)
    ensures |rs| == |files|
    ensures forall i :: 0 <= i < |files| ==> rs[i] == ProcessFile(files[i])
  {
    seq(|files|, i requires 0 <= i < |files| => ProcessFile(files[i]))
  }

  /** Merging results into an empty dataset, first result first. */
  function MergeAll(rs: seq<Processed>): (ds: Dataset)
    ensures forall p :: p in ds ==> exists i :: 0 <= i < |rs| && rs[i].0 == p
    decreases |rs|
  {
    if rs == [] then map[]
    else
      var last := rs[|rs| - 1];
      Merge(MergeAll(rs[..|rs| - 1]), last.0, last.1)
  }

  /** Merging well-formed results gives a well-formed dataset. */
  lemma {:induction false} MergeAllWellFormed(rs: seq<Processed>)
    requires forall i :: 0 <= i < |rs| ==> WellFormedResult(rs[i].1)
    ensures WellFormed(MergeAll(rs))
    decreases |rs|
  {
    if rs != [] {
      var last := rs[|rs| - 1];
      MergeAllWellFormed(rs[..|rs| - 1]);
      MergeWellFormed(MergeAll(rs[..|rs| - 1]), last.0, last.1);
    }
  }

  /** The loop of `run`: every file's result is merged into its period, first file first. */
  function Accumulate(files: seq<SourceFile>): (ds: Dataset)
    ensures WellFormed(ds)
  {
    MergeAllWellFormed(Results(files));
    MergeAll(Results(files))
  }

  /**
   * The value a code should have in a period: taken from the last result of
   * that period that contains the code.
   */
  function LatestValue(rs: seq<Processed>, p: string, k: string): Option<string>
    decreases |rs|
  {
    if rs == [] then None
    else
      var last := rs[|rs| - 1];
      if last.0 == p && k in last.1 then Some(last.1[k]) else LatestValue(rs[..|rs| - 1], p, k)
  }

  /** The period keys of a list of results, in order. */
  function PeriodsOf(rs: seq<Processed>): (ps: seq<string>)
    ensures |ps| == |rs| && forall i :: 0 <= i < |rs| ==> ps[i] == rs[i].0
  {
    seq(|rs|, i requires 0 <= i < |rs| => rs[i].0)
  }

  lemma PeriodsOfSnoc(rs: seq<Processed>)
    requires rs != []
    ensures PeriodsOf(rs) == PeriodsOf(rs[..|rs| - 1]) + [rs[|rs| - 1].0]
  {
  }

  /** A period appears in the merged dataset exactly when some result has it, even an empty one. */
  lemma {:induction false} MergeAllPeriods(rs: seq<Processed>, p: string)
    ensures p in MergeAll(rs) <==> p in PeriodsOf(rs)
    decreases |rs|
  {
    if rs != [] {
      var init := rs[..|rs| - 1];
      MergeAllPeriods(init, p);
      PeriodsOfSnoc(rs);
    }
  }

  /** A period no result has gives no value. */
  lemma {:induction false} NoLatestWithoutPeriod(rs: seq<Processed>, p: string, k: string)
    requires p !in PeriodsOf(rs)
    ensures LatestValue(rs, p, k) == None
    decreases |rs|
  {
    if rs != [] {
      PeriodsOfSnoc(rs);
      NoLatestWithoutPeriod(rs[..|rs| - 1], p, k);
    }
  }

  /** Each code of a merged period holds the value of the last result of that period that produced it. */
  lemma {:induction false} MergeAllLatest(rs: seq<Processed>, p: string, k: string)
    requires p in MergeAll(rs)
    ensures Lookup(MergeAll(rs)[p], k) == LatestValue(rs, p, k)
    decreases |rs|
  {
    var init := rs[..|rs| - 1];
    if p in MergeAll(init) {
      MergeAllLatest(init, p, k);
    } else {
      MergeAllPeriods(init, p);
      NoLatestWithoutPeriod(init, p, k);
    }
  }

  /**
   * The accumulated dataset has a row for exactly the periods of the files
   * (also those whose files yielded nothing), and each code of a period
   * holds the value of the last file of that period that produced it.
   */
  lemma AccumulateCharacterised(files: seq<SourceFile>)
    ensures forall p :: p in Accumulate(files) <==> exists i :: 0 <= i < |files| && PeriodOf(files[i].name, files[i].clockPeriod) == p
    ensures forall p, k :: p in Accumulate(files) ==> Lookup(Accumulate(files)[p], k) == LatestValue(Results(files), p, k)
  {
    var rs := Results(files);
    forall p ensures p in MergeAll(rs) <==> exists i :: 0 <= i < |files| && PeriodOf(files[i].name, files[i].clockPeriod) == p {
      MergeAllPeriods(rs, p);
    }
    forall p, k | p in MergeAll(rs) ensures Lookup(MergeAll(rs)[p], k) == LatestValue(rs, p, k) {
      MergeAllLatest(rs, p, k);
    }
  }
}
