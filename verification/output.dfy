/**
 * The artefacts a run produces: the data table (`_create_output_csv`), the
 * metadata table (`_create_metadata_csv`), their file names and the archive
 * holding both (`_create_zip_archive`), and the run itself (`run`). Tables
 * are rows of cell strings; CSV quoting and compression are not modelled.
 */
module Output {
  import opened Wrappers
  import opened Strings
  import opened Catalog
  import opened Extraction
  import opened Accumulation

  type Row = seq<string>
  type Table = seq<Row>

  // ---- The data table ----

  /** `period_data.get(col, '')` for every column, in column order. */
  function Render(codes: seq<string>, d: ExtractionResult): (r: Row)
    ensures |r| == |codes|
    ensures forall i :: 0 <= i < |codes| ==> r[i] == if codes[i] in d then d[codes[i]] else ""
  {
    seq(|codes|, i requires 0 <= i < |codes| => if codes[i] in d then d[codes[i]] else "")
  }

  /** Reads a result back from a rendered row: every non-empty cell is the value of its column's code. */
  function ParseCells(codes: seq<string>, cells: seq<string>): (d: ExtractionResult)
    requires |codes| == |cells|
    ensures forall k :: k in d ==> k in codes && d[k] != ""
    decreases |codes|
  {
    if codes == [] then map[]
    else
      var rest := ParseCells(codes[1..], cells[1..]);
      if cells[0] == "" then rest else rest[codes[0] := cells[0]]
  }

  /** Rendering the columns after the first is rendering without the first column's code. */
  lemma RenderTail(codes: seq<string>, d: ExtractionResult)
    requires Distinct(codes) && codes != []
    ensures Render(codes, d)[1..] == Render(codes[1..], d - {codes[0]})
  {
    var r, r' := Render(codes, d)[1..], Render(codes[1..], d - {codes[0]});
    forall i | 0 <= i < |r| ensures r[i] == r'[i] {
      assert codes[1..][i] == codes[i + 1] != codes[0];
    }
  }

  lemma DistinctTail<T>(s: seq<T>)
    requires Distinct(s) && s != []
    ensures Distinct(s[1..])
  {
    forall i, j | 0 <= i < j < |s| - 1 ensures s[1..][i] != s[1..][j] {
      assert s[i + 1] != s[j + 1];
    }
  }

  lemma RemoveThenRestore<K, V>(m: map<K, V>, k: K)
    requires k in m
    ensures (m - {k})[k := m[k]] == m
  {
  }

  lemma RemoveAbsent<K, V>(m: map<K, V>, k: K)
    requires k !in m
    ensures m - {k} == m
  {
  }

  /** Codes of `d` other than the first column's lie in the remaining columns. */
  lemma TailCovers(codes: seq<string>, d: ExtractionResult)
    requires codes != [] && forall k :: k in d ==> k in codes && d[k] != ""
    ensures forall k :: k in d - {codes[0]} ==> k in codes[1..] && (d - {codes[0]})[k] != ""
  {
    forall k | k in d - {codes[0]} ensures k in codes[1..] {
      var j :| 0 <= j < |codes| && codes[j] == k;
      assert codes[1..][j - 1] == k;
    }
  }

  /**
   * Rendering loses nothing: over distinct codes, a result whose values are
   * non-empty and whose codes are all columns is read back unchanged.
   */
  lemma {:induction false} ParseRender(codes: seq<string>, d: ExtractionResult)
    requires Distinct(codes)
    requires forall k :: k in d ==> k in codes && d[k] != ""
    ensures ParseCells(codes, Render(codes, d)) == d
    decreases |codes|
  {
    if codes != [] {
      var c, r := codes[0], Render(codes, d);
      var d' := d - {c};
      RenderTail(codes, d);
      DistinctTail(codes);
      TailCovers(codes, d);
      ParseRender(codes[1..], d');
      assert ParseCells(codes[1..], r[1..]) == d';
      if c in d {
        assert ParseCells(codes, r) == d'[c := d[c]];
        RemoveThenRestore(d, c);
      } else {
        assert ParseCells(codes, r) == d';
        RemoveAbsent(d, c);
      }
    } else {
      assert d.Keys == {};
    }
  }

  /** The header rows: an empty corner cell, then the codes, then the descriptions. */
  function CodeHeader(): Row {
    [""] + CatalogCodes()
  }

  function DescriptionHeader(): Row {
    [""] + CatalogDescriptions()
  }

  /** One data row per period in `periods`: the period, then the period's values in column order. */
  function DataRows(ds: Dataset, periods: seq<string>): (rows: Table)
    requires forall p :: p in periods ==> p in ds
    ensures |rows| == |periods|
    ensures forall i :: 0 <= i < |rows| ==> |rows[i]| == 1 + |CatalogCodes()| && rows[i][0] == periods[i]
  {
    seq(|periods|, i requires 0 <= i < |periods| => [periods[i]] + Render(CatalogCodes(), ds[periods[i]]))
  }

  /**
   * `_create_output_csv`: the two header rows, then one row per period in
   * ascending order; every row has one cell more than the catalog has columns.
   */
  function DataTable(ds: Dataset): (t: Table)
    ensures |t| == 2 + |ds|
    ensures t[0] == CodeHeader() && t[1] == DescriptionHeader()
    ensures forall i :: 0 <= i < |t| ==> |t[i]| == 85
    ensures forall i, j :: 2 <= i < j < |t| ==> LexLe(t[i][0], t[j][0]) && t[i][0] != t[j][0]
  {
    CatalogSize();
    [CodeHeader(), DescriptionHeader()] + DataRows(ds, Sorted(ds.Keys))
  }

  /** Reads data rows back: `None` when a row is not one period cell plus one cell per column. */
  function ParseRows(rows: Table): Option<Dataset>
    decreases |rows|
  {
    if rows == [] then Some(map[])
    else if |rows[0]| != 1 + |CatalogCodes()| then None
    else
      match ParseRows(rows[1..])
      case None => None
      case Some(rest) => Some(rest[rows[0][0] := ParseCells(CatalogCodes(), rows[0][1..])])
  }

  /** Reads a data table back: `None` unless it starts with the two header rows. */
  function ParseDataTable(t: Table): Option<Dataset> {
    if |t| >= 2 && t[0] == CodeHeader() && t[1] == DescriptionHeader() then ParseRows(t[2..]) else None
  }

  /** The rows of any list of periods read back to those periods' results. */
  lemma {:induction false} ParseDataRows(ds: Dataset, periods: seq<string>)
    requires WellFormed(ds)
    requires forall p :: p in periods ==> p in ds
    ensures ParseRows(DataRows(ds, periods)).Some?
    ensures forall p :: p in ParseRows(DataRows(ds, periods)).value <==> p in periods
    ensures forall p :: p in periods ==> ParseRows(DataRows(ds, periods)).value[p] == ds[p]
    decreases |periods|
  {
    if periods != [] {
      var rows := DataRows(ds, periods);
      var p := periods[0];
      assert rows[1..] == DataRows(ds, periods[1..]);
      ParseDataRows(ds, periods[1..]);
      CatalogComplete();
      assert rows[0][1..] == Render(CatalogCodes(), ds[p]);
      ParseRender(CatalogCodes(), ds[p]);
    }
  }

  /** The data table of a well-formed dataset reads back to exactly that dataset. */
  lemma DataTableRoundTrip(ds: Dataset)
    requires WellFormed(ds)
    ensures ParseDataTable(DataTable(ds)) == Some(ds)
  {
    var periods := Sorted(ds.Keys);
    var rows := DataRows(ds, periods);
    DropHeaders(CodeHeader(), DescriptionHeader(), rows);
    ParseDataRows(ds, periods);
    SameMap(ParseRows(rows).value, ds);
  }

  lemma DropHeaders(a: Row, b: Row, rows: Table)
    ensures ([a, b] + rows)[2..] == rows
  {
  }

  /** Two maps with the same keys and the same value at each key are equal. */
  lemma SameMap<K, V>(m: map<K, V>, n: map<K, V>)
    requires forall k :: k in m <==> k in n
    requires forall k :: k in m ==> m[k] == n[k]
    ensures m == n
  {
  }

  // ---- The metadata table ----

  function MetaHeader(): Row {
    ["CODE", "DESCRIPTION", "UNIT", "FREQUENCY", "SOURCE", "DATASET",
     "LAST_UPDATE", "NEXT_RELEASE_DATE", "DATA_TYPE", "CATEGORY"]
  }

  /** The metadata of column `i`, stamped with the clock reading `lastUpdate`. */
  function MetaRow(i: nat, lastUpdate: string): Row
    requires i < |CatalogCodes()|
  {
    [CatalogCodes()[i], CatalogDescriptions()[i], "Thousand JPY", "Monthly", "Japan Exchange Group (JPX)",
     DatasetName, lastUpdate, "", "Numeric", "Trading Statistics"]
  }

  /**
   * `_create_metadata_csv`: a header and one row per catalog column; the
   * clock is read once per row, so row `i` carries `clock[i]`.
   */
  function MetaTable(clock: seq<string>): (t: Table)
    requires |clock| == |CatalogCodes()|
    ensures |t| == 1 + |CatalogCodes()| && t[0] == MetaHeader()
    ensures forall i :: 0 < i < |t| ==> |t[i]| == |MetaHeader()|
  {
    [MetaHeader()] + seq(|clock|, i requires 0 <= i < |clock| => MetaRow(i, clock[i]))
  }

  /**
   * The metadata lists the data table's columns in the same order: row `i`
   * holds the code and the description heading data column `i` (the data
   * table's first two rows are these headers), and its last-update cell is
   * the clock reading taken for it.
   */
  lemma MetaMatchesData(clock: seq<string>, i: nat)
    requires |clock| == |CatalogCodes()| && i < |CatalogCodes()|
    ensures MetaTable(clock)[i + 1][0] == CodeHeader()[i + 1]
    ensures MetaTable(clock)[i + 1][1] == DescriptionHeader()[i + 1]
    ensures MetaTable(clock)[i + 1][6] == clock[i]
  {
    MetaRowAt(clock, i);
    HeadersAt(i);
  }

  lemma MetaRowAt(clock: seq<string>, i: nat)
    requires |clock| == |CatalogCodes()| && i < |CatalogCodes()|
    ensures MetaTable(clock)[i + 1] == MetaRow(i, clock[i])
  {
  }

  lemma HeadersAt(i: nat)
    requires i < |CatalogCodes()|
    ensures CodeHeader()[i + 1] == CatalogCodes()[i] && DescriptionHeader()[i + 1] == CatalogDescriptions()[i]
  {
  }

  /** The code in metadata row `i` reads back to indicator `i` of the catalog. */
  lemma MetaCodeParses(clock: seq<string>, i: nat)
    requires |clock| == |CatalogCodes()| && i < |CatalogCodes()|
    ensures ParseCode(MetaTable(clock)[i + 1][0]) == Some(Columns()[i])
  {
    MetaRowAt(clock, i);
    ParseCodeOfCode(Columns()[i]);
  }

  // ---- File names ----

  function DataFileName(stamp: string): string {
    "JTMD_DATA_" + stamp + ".csv"
  }

  function MetaFileName(stamp: string): string {
    "JTMD_META_" + stamp + ".csv"
  }

  function ArchiveName(stamp: string): string {
    "JTMD_" + stamp + ".zip"
  }

  /** The three names never collide, whatever the stamps, and each determines its stamp. */
  lemma FileNamesDistinct(s: string, s': string)
    ensures DataFileName(s) != MetaFileName(s')
    ensures DataFileName(s) != ArchiveName(s') && MetaFileName(s) != ArchiveName(s')
    ensures DataFileName(s) == DataFileName(s') ==> s == s'
    ensures MetaFileName(s) == MetaFileName(s') ==> s == s'
    ensures ArchiveName(s) == ArchiveName(s') ==> s == s'
  {
    assert DataFileName(s)[5] != MetaFileName(s')[5];
    var d, a := DataFileName(s), ArchiveName(s');
    assert d[|d| - 1] != a[|a| - 1];
    var m := MetaFileName(s);
    assert m[|m| - 1] != a[|a| - 1];
    if DataFileName(s) == DataFileName(s') {
      assert s == DataFileName(s)[10..|DataFileName(s)| - 4];
    }
    if MetaFileName(s) == MetaFileName(s') {
      assert s == MetaFileName(s)[10..|MetaFileName(s)| - 4];
    }
    if ArchiveName(s) == ArchiveName(s') {
      assert s == ArchiveName(s)[5..|ArchiveName(s)| - 4];
    }
  }

  // ---- The run ----

  /** What a run writes: the two tables under their names and the archive's name and members. */
  datatype Artifacts = Artifacts(
    dataName: string, data: Table,
    metaName: string, meta: Table,
    archiveName: string, members: seq<string>)

  /**
   * The three writing steps of `run` for an accumulated, hence well-formed,
   * dataset: the data table of the dataset, which reads back to it, the
   * metadata table, and an archive holding the two files under their own names.
   */
  function WriteOutputs(ds: Dataset, stamp: string, clock: seq<string>): (a: Artifacts)
    requires WellFormed(ds) && |clock| == |CatalogCodes()|
    ensures a.data == DataTable(ds) && ParseDataTable(a.data) == Some(ds)
    ensures a.members == [a.dataName, a.metaName]
    ensures a.dataName != a.metaName && a.archiveName !in a.members
    ensures a.dataName == DataFileName(stamp) && a.metaName == MetaFileName(stamp) && a.archiveName == ArchiveName(stamp)
    ensures a.meta == MetaTable(clock)
  {
    DataTableRoundTrip(ds);
    FileNamesDistinct(stamp, stamp);
    var dataName, metaName := DataFileName(stamp), MetaFileName(stamp);
    Artifacts(dataName, DataTable(ds), metaName, MetaTable(clock), ArchiveName(stamp), [dataName, metaName])
  }

  /**
   * `run`: nothing when there are no input files; otherwise the files are
   * accumulated and both tables and the archive are written under the run's
   * date stamp. The check for an empty dataset is kept, although it cannot
   * fire: every file contributes its period.
   */
  function Run(files: seq<SourceFile>, stamp: string, clock: seq<string>): (r: Option<Artifacts>)
    requires |clock| == |CatalogCodes()|
    ensures r.None? <==> files == []
    ensures r.Some? ==> r.value.data == DataTable(Accumulate(files))
    ensures r.Some? ==> ParseDataTable(r.value.data) == Some(Accumulate(files))
    ensures r.Some? ==> r.value.members == [r.value.dataName, r.value.metaName]
    ensures r.Some? ==> r.value.dataName != r.value.metaName && r.value.archiveName !in r.value.members
    ensures r.Some? ==> r.value.dataName == DataFileName(stamp) && r.value.metaName == MetaFileName(stamp)
                        && r.value.archiveName == ArchiveName(stamp)
    ensures r.Some? ==> r.value.meta == MetaTable(clock)
  {
    if files == [] then None
    else
      var ds := Accumulate(files);
      assert ds != map[] by {
        MergeAllPeriods(Results(files), Results(files)[0].0);
      }
      if ds == map[] then None else Some(WriteOutputs(ds, stamp, clock))
  }
}
