/**
 * The extractor's constant tables: the indicator catalog (`column_mapping`),
 * the category structure with its balance search windows, and the fixed
 * coordinates of the sales and purchases fields.
 *
 * Every code has the shape `JTMD.<ASSET>.<METRIC>.<CATEGORY>.M`; the catalog
 * lists ETF balance, sales and purchases, then the same for REIT, each over
 * the fourteen categories in the order of the category structure.
 */
module Catalog {
  import opened Wrappers
  import opened Strings

  datatype AssetType = ETF | REIT
  datatype Metric = Balance | Sales | Purchases
  datatype Category =
    | PROP | BROKER | TOT | INST | INDIV | FOR | SECCOS
    | INVTRUST | BUSCORP | OTHINST | INSTFIN | INS | BK | OTHERFIN

  /** One time series of the catalog. */
  datatype Indicator = Indicator(asset: AssetType, metric: Metric, category: Category)

  const DatasetName := "JTMD"
  const FrequencyName := "M"

  function AssetName(a: AssetType): string {
    match a
    case ETF => "ETF"
    case REIT => "REIT"
  }

  function MetricName(m: Metric): string {
    match m
    case Balance => "BAL"
    case Sales => "SAL"
    case Purchases => "PURCH"
  }

  function CategoryName(c: Category): string {
    match c
    case PROP => "PROP"
    case BROKER => "BROKER"
    case TOT => "TOT"
    case INST => "INST"
    case INDIV => "INDIV"
    case FOR => "FOR"
    case SECCOS => "SECCOS"
    case INVTRUST => "INVTRUST"
    case BUSCORP => "BUSCORP"
    case OTHINST => "OTHINST"
    case INSTFIN => "INSTFIN"
    case INS => "INS"
    case BK => "BK"
    case OTHERFIN => "OTHERFIN"
  }

  function MetricLabel(m: Metric): string {
    match m
    case Balance => "Balance"
    case Sales => "Sales"
    case Purchases => "Purchases"
  }

  function CategoryLabel(c: Category): string {
    match c
    case PROP => "Proprietary"
    case BROKER => "Brokerage"
    case TOT => "Total"
    case INST => "Institutions"
    case INDIV => "Individuals"
    case FOR => "Foreigners"
    case SECCOS => "Securities Cos."
    case INVTRUST => "Investment Trusts"
    case BUSCORP => "Business Cos."
    case OTHINST => "Other Cos."
    case INSTFIN => "Financial Institutions"
    case INS => "Life/Non-Life Insurance"
    case BK => "Banks"
    case OTHERFIN => "Other Financials"
  }

  function AssetFromName(n: string): Option<AssetType> {
    if n == "ETF" then Some(ETF) else if n == "REIT" then Some(REIT) else None
  }

  function MetricFromName(n: string): Option<Metric> {
    if n == "BAL" then Some(Balance)
    else if n == "SAL" then Some(Sales)
    else if n == "PURCH" then Some(Purchases)
    else None
  }

  function CategoryFromName(n: string): Option<Category> {
    if n == "PROP" then Some(PROP)
    else if n == "BROKER" then Some(BROKER)
    else if n == "TOT" then Some(TOT)
    else if n == "INST" then Some(INST)
    else if n == "INDIV" then Some(INDIV)
    else if n == "FOR" then Some(FOR)
    else if n == "SECCOS" then Some(SECCOS)
    else if n == "INVTRUST" then Some(INVTRUST)
    else if n == "BUSCORP" then Some(BUSCORP)
    else if n == "OTHINST" then Some(OTHINST)
    else if n == "INSTFIN" then Some(INSTFIN)
    else if n == "INS" then Some(INS)
    else if n == "BK" then Some(BK)
    else if n == "OTHERFIN" then Some(OTHERFIN)
    else None
  }

  /** The dot-separated fields of an indicator's code. */
  function Fields(ind: Indicator): (f: seq<string>)
    ensures |f| == 5
    ensures forall i :: 0 <= i < |f| ==> '.' !in f[i]
  {
    [DatasetName, AssetName(ind.asset), MetricName(ind.metric), CategoryName(ind.category), FrequencyName]
  }

  /** The indicator code, e.g. `JTMD.ETF.BAL.PROP.M`. */
  function Code(ind: Indicator): string {
    Join(Fields(ind), '.')
  }

  /** The human-readable description, e.g. `ETF, Balance, Proprietary`. */
  function Description(ind: Indicator): string {
    AssetName(ind.asset) + ", " + MetricLabel(ind.metric) + ", " + CategoryLabel(ind.category)
  }

  /** Reads an indicator back from its code; `None` for anything outside the catalog. */
  function ParseCode(s: string): Option<Indicator> {
    var f := Split(s, '.');
    if |f| == 5 && f[0] == DatasetName && f[4] == FrequencyName then
      match (AssetFromName(f[1]), MetricFromName(f[2]), CategoryFromName(f[3]))
      case (Some(a), Some(m), Some(c)) => Some(Indicator(a, m, c))
      case _ => None
    else None
  }

  /** Every code reads back as the indicator it was built from. */
  lemma ParseCodeOfCode(ind: Indicator)
    ensures ParseCode(Code(ind)) == Some(ind)
  {
    SplitJoin(Fields(ind), '.');
    assert AssetFromName(AssetName(ind.asset)) == Some(ind.asset) by {
      match ind.asset
      case ETF =>
      case REIT =>
    }
    assert MetricFromName(MetricName(ind.metric)) == Some(ind.metric) by {
      match ind.metric
      case Balance =>
      case Sales =>
      case Purchases =>
    }
    CategoryNameParses(ind.category);
  }

  lemma CategoryNameParses(c: Category)
    ensures CategoryFromName(CategoryName(c)) == Some(c)
  {
    match c
    case PROP =>
    case BROKER =>
    case TOT =>
    case INST =>
    case INDIV =>
    case FOR =>
    case SECCOS =>
    case INVTRUST =>
    case BUSCORP =>
    case OTHINST =>
    case INSTFIN =>
    case INS =>
    case BK =>
    case OTHERFIN =>
  }

  /** Distinct indicators have distinct codes. */
  lemma CodeInjective(i: Indicator, j: Indicator)
    ensures Code(i) == Code(j) ==> i == j
  {
    ParseCodeOfCode(i);
    ParseCodeOfCode(j);
  }

  lemma CodesInjective()
    ensures forall i: Indicator, j: Indicator :: Code(i) == Code(j) ==> i == j
  {
    forall i: Indicator, j: Indicator ensures Code(i) == Code(j) ==> i == j {
      CodeInjective(i, j);
    }
  }

  /** `f"JTMD.{sheet_type.upper()}"`, the prefix that selects one asset type's fixed fields. */
  function SheetPrefix(t: AssetType): string {
    DatasetName + "." + AssetName(t)
  }

  /** The first two fields of a code, joined, are its asset type's prefix. */
  lemma CodeHasPrefix(ind: Indicator)
    ensures StartsWith(Code(ind), SheetPrefix(ind.asset))
  {
    var f := Fields(ind);
    JoinStartsWithTwo(f, '.');
    assert f[0] + ['.'] + f[1] == SheetPrefix(ind.asset);
  }

  /** A code starts with an asset type's prefix exactly when it belongs to that asset type. */
  lemma PrefixSelectsAsset(ind: Indicator, t: AssetType)
    ensures StartsWith(Code(ind), SheetPrefix(t)) <==> ind.asset == t
  {
    CodeHasPrefix(ind);
    var own := SheetPrefix(ind.asset);
    if ind.asset != t {
      assert Code(ind)[5] == own[5] != SheetPrefix(t)[5];
    }
  }

  // ---- The catalog (`column_mapping`) ----

  const Assets: seq<AssetType> := [ETF, REIT]
  const Metrics: seq<Metric> := [Balance, Sales, Purchases]

  /** The categories in the order of the category structure. */
  const Categories: seq<Category> :=
    [PROP, BROKER, TOT, INST, INDIV, FOR, SECCOS, INVTRUST, BUSCORP, OTHINST, INSTFIN, INS, BK, OTHERFIN]

  predicate Distinct<T(==)>(s: seq<T>) {
    forall i, j :: 0 <= i < j < |s| ==> s[i] != s[j]
  }

  /** The position of a category in `Categories`. */
  function CategoryIndex(c: Category): (i: nat)
    ensures i < |Categories| && Categories[i] == c
  {
    match c
    case PROP => 0
    case BROKER => 1
    case TOT => 2
    case INST => 3
    case INDIV => 4
    case FOR => 5
    case SECCOS => 6
    case INVTRUST => 7
    case BUSCORP => 8
    case OTHINST => 9
    case INSTFIN => 10
    case INS => 11
    case BK => 12
    case OTHERFIN => 13
  }

  lemma CategoriesDistinct()
    ensures Distinct(Categories)
  {
  }

  /** The fourteen columns of one asset type and metric, in category order. */
  function MetricBlock(a: AssetType, m: Metric): (r: seq<Indicator>)
    ensures |r| == |Categories|
  {
    seq(|Categories|, i requires 0 <= i < |Categories| => Indicator(a, m, Categories[i]))
  }

  function AssetBlock(a: AssetType): (r: seq<Indicator>) {
    MetricBlock(a, Balance) + MetricBlock(a, Sales) + MetricBlock(a, Purchases)
  }

  /** The catalog's indicators in the order of `column_mapping`. */
  function Columns(): seq<Indicator> {
    AssetBlock(ETF) + AssetBlock(REIT)
  }

  /** The catalog's codes, in column order. */
  function CatalogCodes(): (r: seq<string>)
    ensures |r| == |Columns()|
    ensures forall i :: 0 <= i < |Columns()| ==> r[i] == Code(Columns()[i])
  {
    seq(|Columns()|, i requires 0 <= i < |Columns()| => Code(Columns()[i]))
  }

  /** The catalog's descriptions, in column order. */
  function CatalogDescriptions(): (r: seq<string>)
    ensures |r| == |Columns()|
    ensures forall i :: 0 <= i < |Columns()| ==> r[i] == Description(Columns()[i])
  {
    seq(|Columns()|, i requires 0 <= i < |Columns()| => Description(Columns()[i]))
  }

  /** Position `14 * m + k` of an asset type's block is metric `m`, category `k`. */
  lemma AssetBlockAt(a: AssetType, m: nat, k: nat)
    requires m < |Metrics| && k < |Categories|
    ensures |AssetBlock(a)| == 42
    ensures AssetBlock(a)[14 * m + k] == Indicator(a, Metrics[m], Categories[k])
  {
    var b, s, p := MetricBlock(a, Balance), MetricBlock(a, Sales), MetricBlock(a, Purchases);
    assert AssetBlock(a) == b + s + p;
    assert |b| == 14 && |s| == 14 && |p| == 14;
    if m == 0 {
      assert Metrics[m] == Balance;
      assert (b + s + p)[14 * m + k] == b[k];
    } else if m == 1 {
      assert Metrics[m] == Sales;
      assert (b + s + p)[14 * m + k] == s[k];
    } else {
      assert Metrics[m] == Purchases;
      assert (b + s + p)[14 * m + k] == p[k];
    }
  }

  /** Every indicator of an asset type lies in that type's block. */
  lemma InAssetBlock(ind: Indicator)
    ensures ind in AssetBlock(ind.asset)
  {
    var m := match ind.metric case Balance => 0 case Sales => 1 case Purchases => 2;
    var k := CategoryIndex(ind.category);
    AssetBlockAt(ind.asset, m, k);
  }

  /** The set of codes of a list of indicators: no larger than the list, and holding each one's code. */
  function CodesOf(s: seq<Indicator>): (r: set<string>)
    ensures |r| <= |s|
    ensures forall ind :: ind in s ==> Code(ind) in r
    decreases |s|
  {
    if s == [] then {}
    else
      var rest := CodesOf(s[1..]);
      assert forall ind :: ind in s ==> ind == s[0] || ind in s[1..];
      {Code(s[0])} + rest
  }

  /** A subset is no larger than its superset. */
  lemma {:induction false} SubsetNoLarger<T>(a: set<T>, b: set<T>)
    requires a <= b
    ensures |a| <= |b|
    decreases |b|
  {
    if a != {} {
      var x :| x in a;
      SubsetNoLarger(a - {x}, b - {x});
    }
  }

  /** The column of an indicator: 42 per asset type, 14 per metric. */
  function ColumnIndex(ind: Indicator): (i: nat)
    ensures i < |Columns()| && Columns()[i] == ind
  {
    var a := if ind.asset == ETF then 0 else 1;
    var m := match ind.metric case Balance => 0 case Sales => 1 case Purchases => 2;
    var k := CategoryIndex(ind.category);
    AssetBlockAt(ind.asset, m, k);
    AssetBlockAt(ETF, m, k);
    assert Columns() == AssetBlock(ETF) + AssetBlock(REIT);
    assert Columns()[42 * a + 14 * m + k] == AssetBlock(ind.asset)[14 * m + k] by {
      if ind.asset == ETF {
        assert (AssetBlock(ETF) + AssetBlock(REIT))[14 * m + k] == AssetBlock(ETF)[14 * m + k];
      } else {
        assert (AssetBlock(ETF) + AssetBlock(REIT))[42 + 14 * m + k] == AssetBlock(REIT)[14 * m + k];
      }
    }
    42 * a + 14 * m + k
  }

  /** Column `i` is the one `ColumnIndex` gives for its indicator. */
  lemma ColumnsInverse(i: nat)
    requires i < |Columns()|
    ensures ColumnIndex(Columns()[i]) == i
  {
    var a := if i < 42 then 0 else 1;
    var r := i - 42 * a;
    var m := if r < 14 then 0 else if r < 28 then 1 else 2;
    var k := r - 14 * m;
    AssetBlockAt(Assets[a], m, k);
    assert Columns()[i] == AssetBlock(Assets[a])[14 * m + k];
    CategoriesDistinct();
    assert CategoryIndex(Categories[k]) == k;
  }

  /** The catalog has 84 columns: 2 asset types, 3 metrics, 14 categories. */
  lemma CatalogSize()
    ensures |Columns()| == 84 && |CatalogCodes()| == 84 && |CatalogDescriptions()| == 84
  {
    AssetBlockAt(ETF, 0, 0);
    AssetBlockAt(REIT, 0, 0);
  }

  /** Every indicator's code is a column of the data table. */
  lemma CodeInCatalog(ind: Indicator)
    ensures Code(ind) in CatalogCodes()
  {
    assert CatalogCodes()[ColumnIndex(ind)] == Code(ind);
  }

  /**
   * The catalog holds 84 columns, every indicator exactly once, so its codes
   * are 84 distinct strings and every code of every indicator is among them.
   */
  lemma CatalogComplete()
    ensures |Columns()| == 84
    ensures Distinct(Columns())
    ensures Distinct(CatalogCodes())
    ensures forall ind: Indicator :: Code(ind) in CatalogCodes()
  {
    AssetBlockAt(ETF, 0, 0);
    AssetBlockAt(REIT, 0, 0);
    forall i, j | 0 <= i < j < |Columns()| ensures Columns()[i] != Columns()[j] {
      ColumnsInverse(i);
      ColumnsInverse(j);
    }
    CodesInjective();
    forall ind: Indicator ensures Code(ind) in CatalogCodes() {
      CodeInCatalog(ind);
    }
  }

  // ---- The category structure ----

  /** `search_offsets`: how far below its base row a balance may drift. */
  const SearchOffsets: seq<nat> := [0, 1, 2]

  /** Balances are read from column G. */
  const BalanceColumn: nat := 6

  /** `base_row` of each category. */
  function BaseRow(c: Category): nat {
    match c
    case PROP => 13
    case BROKER => 16
    case TOT => 19
    case INST => 24
    case INDIV => 27
    case FOR => 30
    case SECCOS => 33
    case INVTRUST => 38
    case BUSCORP => 41
    case OTHINST => 44
    case INSTFIN => 47
    case INS => 52
    case BK => 55
    case OTHERFIN => 58
  }

  /** The balance windows of consecutive categories never overlap. */
  lemma BalanceWindowsDisjoint()
    ensures forall i :: 0 <= i < |Categories| - 1 ==>
              BaseRow(Categories[i]) + SearchOffsets[|SearchOffsets| - 1] < BaseRow(Categories[i + 1])
  {
  }

  // ---- The fixed mappings ----

  /** Sales and purchases are read from column E. */
  const FixedColumn: nat := 4

  /** One entry of `fixed_mappings`. */
  datatype FixedEntry = FixedEntry(ind: Indicator, row: nat, col: nat)

  /** The `row` of each sales and purchases field. */
  function FixedRow(m: Metric, c: Category): nat
    requires m != Balance
  {
    var (sales, purchases) :=
      match c
      case PROP => (13, 14)
      case BROKER => (16, 17)
      case TOT => (19, 20)
      case INST => (24, 25)
      case INDIV => (27, 28)
      case FOR => (30, 31)
      case SECCOS => (33, 34)
      case INVTRUST => (38, 39)
      case BUSCORP => (41, 42)
      case OTHINST => (44, 45)
      case INSTFIN => (47, 48)
      case INS => (52, 53)
      case BK => (55, 56)
      case OTHERFIN => (58, 59);
    if m == Sales then sales else purchases
  }

  /** Entry `i` of an asset type's table: category `i / 2`, sales at even and purchases at odd `i`. */
  function FixedEntryAt(a: AssetType, cats: seq<Category>, i: nat): FixedEntry
    requires i < 2 * |cats|
  {
    var c := cats[i / 2];
    var m := if i % 2 == 0 then Sales else Purchases;
    FixedEntry(Indicator(a, m, c), FixedRow(m, c), FixedColumn)
  }

  /** Sales then purchases of every category in `cats`, for one asset type. */
  function FixedEntries(a: AssetType, cats: seq<Category>): (r: seq<FixedEntry>)
    ensures |r| == 2 * |cats|
    ensures forall e :: e in r ==>
              && e.ind.asset == a && e.ind.metric != Balance && e.ind.category in cats
              && e.row == FixedRow(e.ind.metric, e.ind.category) && e.col == FixedColumn
    ensures forall j, m :: 0 <= j < |cats| && m != Balance ==>
              FixedEntry(Indicator(a, m, cats[j]), FixedRow(m, cats[j]), FixedColumn) in r
    ensures Distinct(cats) ==> forall i, j :: 0 <= i < j < |r| ==> r[i].ind != r[j].ind
  {
    var r := seq(2 * |cats|, i requires 0 <= i < 2 * |cats| => FixedEntryAt(a, cats, i));
    forall j, m | 0 <= j < |cats| && m != Balance
      ensures FixedEntry(Indicator(a, m, cats[j]), FixedRow(m, cats[j]), FixedColumn) in r
    {
      if m == Sales {
        assert r[2 * j] == FixedEntryAt(a, cats, 2 * j);
      } else {
        assert r[2 * j + 1] == FixedEntryAt(a, cats, 2 * j + 1);
      }
    }
    r
  }

  /** `fixed_mappings`: 28 entries for ETF, then 28 for REIT. */
  function FixedTable(): seq<FixedEntry> {
    FixedEntries(ETF, Categories) + FixedEntries(REIT, Categories)
  }

  /**
   * Within one asset type no two fixed fields share a cell, and each sales
   * field sits on its category's base row with its purchases field just below.
   */
  lemma FixedCoordinatesDistinct(m: Metric, c: Category, m': Metric, c': Category)
    requires m != Balance && m' != Balance
    requires (m, c) != (m', c')
    ensures FixedRow(m, c) != FixedRow(m', c')
    ensures FixedRow(Sales, c) == BaseRow(c) && FixedRow(Purchases, c) == BaseRow(c) + 1
  {
  }
}
