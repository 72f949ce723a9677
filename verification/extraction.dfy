/**
 * Extraction of one sheet (`_extract_from_sheet`): the sales and purchases
 * fields are read at fixed coordinates, each balance is searched for in a
 * window of three rows below its category's base row (`find_balance_in_category`).
 * Coordinates outside the grid and blank cells never fail; the field is
 * simply absent from the result.
 */
module Extraction {
  import opened Wrappers
  import opened Strings
  import opened Cells
  import opened Catalog

  /** Indicator code to formatted value; a missing code means "not found". */
  type ExtractionResult = map<string, string>

  function Lookup(m: map<string, string>, k: string): Option<string> {
    if k in m then Some(m[k]) else None
  }

  /**
   * The normalised value at `(row, col)`, or `None` when the coordinate lies
   * outside the grid (an `IndexError` in the source, or a row too short for
   * the balance column) or the cell normalises to `""`.
   */
  function CellAt(grid: Grid, row: nat, col: nat): (r: Option<string>)
    ensures r.Some? <==> row < |grid| && col < |grid[row]| && Normalize(grid[row][col]) != ""
    ensures r.Some? ==> r.value == Normalize(grid[row][col]) && r.value != ""
  {
    if row < |grid| && col < |grid[row]| then
      var v := Normalize(grid[row][col]);
      if v != "" then Some(v) else None
    else None
  }

  /** One probe of a balance search: column G of row `base + offset`. */
  function Probe(grid: Grid, base: nat, offset: nat): Option<string> {
    CellAt(grid, base + offset, BalanceColumn)
  }

  /** The value of the first probe in `offsets` that finds one. */
  function FirstInWindow(grid: Grid, base: nat, offsets: seq<nat>): (r: Option<string>)
    ensures r.None? <==> forall k :: 0 <= k < |offsets| ==> Probe(grid, base, offsets[k]).None?
    ensures r.Some? ==> r.value != ""
    decreases |offsets|
  {
    if |offsets| == 0 then None
    else
      match Probe(grid, base, offsets[0])
      case Some(v) => Some(v)
      case None =>
        var r := FirstInWindow(grid, base, offsets[1..]);
        assert forall k :: 0 < k < |offsets| ==> offsets[k] == offsets[1..][k - 1];
        r
  }

  /** When probe `k` is the first to find a value, the search returns that value. */
  lemma {:induction false} FirstInWindowIsFirst(grid: Grid, base: nat, offsets: seq<nat>, k: nat)
    requires k < |offsets| && Probe(grid, base, offsets[k]).Some?
    requires forall j :: 0 <= j < k ==> Probe(grid, base, offsets[j]).None?
    ensures FirstInWindow(grid, base, offsets) == Probe(grid, base, offsets[k])
    decreases k
  {
    if k > 0 {
      assert Probe(grid, base, offsets[0]).None?;
      assert forall j :: 0 <= j < k - 1 ==> offsets[1..][j] == offsets[j + 1];
      FirstInWindowIsFirst(grid, base, offsets[1..], k - 1);
    }
  }

  /**
   * `find_balance_in_category`: the balance code of category `c` paired with
   * the first value found in the category's search window.
   */
  function FindBalance(grid: Grid, c: Category, t: AssetType): (r: Option<(string, string)>)
    ensures r.Some? ==> r.value.0 == BalanceCode(t, c)
    ensures r.Some? <==> FirstInWindow(grid, BaseRow(c), SearchOffsets).Some?
  {
    match FirstInWindow(grid, BaseRow(c), SearchOffsets)
    case Some(v) => Some((BalanceCode(t, c), v))
    case None => None
  }

  /** A three-probe window returns the first of its probes that finds a value. */
  lemma WindowOfThree(grid: Grid, b: nat, offs: seq<nat>)
    requires offs == [0, 1, 2]
    ensures var r := FirstInWindow(grid, b, offs);
            && (Probe(grid, b, 0).Some? ==> r == Probe(grid, b, 0))
            && (Probe(grid, b, 0).None? ==> r == FirstInWindow(grid, b, [1, 2]))
            && (Probe(grid, b, 1).Some? ==> FirstInWindow(grid, b, [1, 2]) == Probe(grid, b, 1))
            && (Probe(grid, b, 1).None? ==> FirstInWindow(grid, b, [1, 2]) == Probe(grid, b, 2))
  {
    assert offs[1..] == [1, 2];
    assert [1, 2][1..] == [2];
    assert [2][1..] == [];
  }

  /**
   * The search window is rows `base_row + 0`, `+ 1`, `+ 2` of column G: the
   * search fails exactly when all three probes come back empty, and otherwise
   * returns the non-empty value of the smallest offset whose probe succeeds.
   */
  lemma FindBalanceWindow(grid: Grid, c: Category, t: AssetType)
    ensures var r := FindBalance(grid, c, t);
            var b := BaseRow(c);
            && (r.None? <==> Probe(grid, b, 0).None? && Probe(grid, b, 1).None? && Probe(grid, b, 2).None?)
            && (Probe(grid, b, 0).Some? ==> r == Some((BalanceCode(t, c), Probe(grid, b, 0).value)))
            && (Probe(grid, b, 0).None? && Probe(grid, b, 1).Some? ==>
                  r == Some((BalanceCode(t, c), Probe(grid, b, 1).value)))
            && (Probe(grid, b, 0).None? && Probe(grid, b, 1).None? && Probe(grid, b, 2).Some? ==>
                  r == Some((BalanceCode(t, c), Probe(grid, b, 2).value)))
            && (r.Some? ==> r.value.1 != "")
  {
    WindowOfThree(grid, BaseRow(c), SearchOffsets);
  }

  /** The mappings whose code starts with `prefix` (`relevant_mappings`). */
  function Relevant(entries: seq<FixedEntry>, prefix: string): (r: seq<FixedEntry>)
    ensures forall e :: e in r <==> e in entries && StartsWith(Code(e.ind), prefix)
    decreases |entries|
  {
    if entries == [] then []
    else
      var rest := Relevant(entries[1..], prefix);
      assert forall e :: e in entries <==> e == entries[0] || e in entries[1..];
      if StartsWith(Code(entries[0].ind), prefix) then [entries[0]] + rest else rest
  }

  lemma {:induction false} RelevantConcat(a: seq<FixedEntry>, b: seq<FixedEntry>, prefix: string)
    ensures Relevant(a + b, prefix) == Relevant(a, prefix) + Relevant(b, prefix)
    decreases |a|
  {
    if a == [] {
      assert a + b == b;
    } else {
      assert (a + b)[1..] == a[1..] + b;
      RelevantConcat(a[1..], b, prefix);
    }
  }

  lemma {:induction false} RelevantKeepsAll(entries: seq<FixedEntry>, prefix: string)
    requires forall e :: e in entries ==> StartsWith(Code(e.ind), prefix)
    ensures Relevant(entries, prefix) == entries
    decreases |entries|
  {
    if entries != [] {
      RelevantKeepsAll(entries[1..], prefix);
      assert entries == [entries[0]] + entries[1..];
    }
  }

  lemma {:induction false} RelevantDropsAll(entries: seq<FixedEntry>, prefix: string)
    requires forall e :: e in entries ==> !StartsWith(Code(e.ind), prefix)
    ensures Relevant(entries, prefix) == []
    decreases |entries|
  {
    if entries != [] {
      assert entries[0] in entries;
      RelevantDropsAll(entries[1..], prefix);
    }
  }

  /** Filtering one asset type's entries by an asset prefix keeps all or nothing. */
  lemma RelevantOfAssetEntries(a: AssetType, t: AssetType, cats: seq<Category>)
    ensures Relevant(FixedEntries(a, cats), SheetPrefix(t)) == if a == t then FixedEntries(a, cats) else []
  {
    var es := FixedEntries(a, cats);
    forall x | x in es ensures StartsWith(Code(x.ind), SheetPrefix(t)) <==> a == t {
      PrefixSelectsAsset(x.ind, t);
    }
    if a == t {
      RelevantKeepsAll(es, SheetPrefix(t));
    } else {
      RelevantDropsAll(es, SheetPrefix(t));
    }
  }

  lemma RelevantOfBothAssets(t: AssetType, cats: seq<Category>)
    ensures Relevant(FixedEntries(ETF, cats) + FixedEntries(REIT, cats), SheetPrefix(t)) == FixedEntries(t, cats)
  {
    var e, r := FixedEntries(ETF, cats), FixedEntries(REIT, cats);
    RelevantConcat(e, r, SheetPrefix(t));
    RelevantOfAssetEntries(ETF, t, cats);
    RelevantOfAssetEntries(REIT, t, cats);
    if t == ETF {
      assert e + [] == e;
    } else {
      assert [] + r == r;
    }
  }

  /**
   * Filtering the whole fixed table by an asset type's prefix keeps exactly
   * that asset type's 28 entries, in table order.
   */
  lemma RelevantFixedIsAssetTable(t: AssetType)
    ensures Relevant(FixedTable(), SheetPrefix(t)) == FixedEntries(t, Categories)
    ensures |Relevant(FixedTable(), SheetPrefix(t))| == 28
  {
    RelevantOfBothAssets(t, Categories);
  }

  // ---- Both loops as sequences of writes ----

  /** One loop step: the code it is about and the value it found, if any. */
  datatype Write = Write(code: string, value: Option<string>)

  /** The codes of a sequence of writes, in order. */
  function WriteCodes(ws: seq<Write>): (cs: seq<string>)
    ensures |cs| == |ws| && forall i :: 0 <= i < |ws| ==> cs[i] == ws[i].code
  {
    seq(|ws|, i requires 0 <= i < |ws| => ws[i].code)
  }

  /** One step: a found value is stored under its code (`extracted_data[code] = value`). */
  function Step(acc: ExtractionResult, w: Write): ExtractionResult {
    match w.value
    case Some(v) => acc[w.code := v]
    case None => acc
  }

  /**
   * The writes performed in order. Only codes written can appear, codes not
   * written keep their value, and non-empty values stay non-empty.
   */
  function Apply(acc: ExtractionResult, ws: seq<Write>): (r: ExtractionResult)
    ensures forall k :: k in r ==> k in acc || k in WriteCodes(ws)
    ensures forall k :: k !in WriteCodes(ws) ==> Lookup(r, k) == Lookup(acc, k)
    ensures NoEmptyValue(acc) && NoEmptyWrite(ws) ==> NoEmptyValue(r)
    decreases |ws|
  {
    if ws == [] then acc
    else
      WriteCodesCons(ws);
      Apply(Step(acc, ws[0]), ws[1..])
  }

  predicate NoEmptyValue(acc: ExtractionResult) {
    forall k :: k in acc ==> acc[k] != ""
  }

  predicate NoEmptyWrite(ws: seq<Write>) {
    forall i :: 0 <= i < |ws| ==> ws[i].value != Some("")
  }

  lemma WriteCodesCons(ws: seq<Write>)
    requires ws != []
    ensures WriteCodes(ws) == [ws[0].code] + WriteCodes(ws[1..])
    ensures NoEmptyWrite(ws) ==> ws[0].value != Some("") && NoEmptyWrite(ws[1..])
  {
    if NoEmptyWrite(ws) {
      forall i | 0 <= i < |ws[1..]| ensures ws[1..][i].value != Some("") {
        assert ws[1..][i] == ws[i + 1];
      }
    }
  }

  /** With distinct codes, each code ends up with its own write's value, or keeps its old one. */
  lemma {:induction false} ApplyFinds(acc: ExtractionResult, ws: seq<Write>, i: nat)
    requires Distinct(WriteCodes(ws)) && i < |ws|
    ensures Lookup(Apply(acc, ws), ws[i].code) == if ws[i].value.Some? then ws[i].value else Lookup(acc, ws[i].code)
    decreases |ws|
  {
    var tail := ws[1..];
    assert WriteCodes(ws) == [ws[0].code] + WriteCodes(tail);
    if i == 0 {
      assert ws[0].code !in WriteCodes(tail) by {
        forall j | 0 <= j < |tail| ensures WriteCodes(tail)[j] != ws[0].code {
          assert WriteCodes(ws)[j + 1] == WriteCodes(tail)[j];
        }
      }
    } else {
      assert Distinct(WriteCodes(tail)) by {
        forall j, l | 0 <= j < l < |tail| ensures WriteCodes(tail)[j] != WriteCodes(tail)[l] {
          assert WriteCodes(ws)[j + 1] != WriteCodes(ws)[l + 1];
        }
      }
      assert tail[i - 1] == ws[i];
      ApplyFinds(Step(acc, ws[0]), tail, i - 1);
      assert ws[0].code != ws[i].code by {
        assert WriteCodes(ws)[0] != WriteCodes(ws)[i];
      }
    }
  }

  // ---- The fixed-coordinate loop ----

  /** The fixed loop's writes: each entry's code with its cell's value. */
  function FixedWrites(grid: Grid, entries: seq<FixedEntry>): (ws: seq<Write>)
    ensures |ws| == |entries|
    ensures forall i :: 0 <= i < |entries| ==>
              ws[i] == Write(Code(entries[i].ind), CellAt(grid, entries[i].row, entries[i].col))
  {
    seq(|entries|, i requires 0 <= i < |entries| =>
      Write(Code(entries[i].ind), CellAt(grid, entries[i].row, entries[i].col)))
  }

  /** The fixed-coordinate loop: each entry whose cell has a value sets its code. */
  function CollectFixed(grid: Grid, entries: seq<FixedEntry>, acc: ExtractionResult): ExtractionResult {
    Apply(acc, FixedWrites(grid, entries))
  }

  predicate DistinctIndicators(entries: seq<FixedEntry>) {
    forall i, j :: 0 <= i < j < |entries| ==> entries[i].ind != entries[j].ind
  }

  /** Entries naming distinct indicators write distinct codes. */
  lemma FixedWritesDistinct(grid: Grid, entries: seq<FixedEntry>)
    requires DistinctIndicators(entries)
    ensures Distinct(WriteCodes(FixedWrites(grid, entries)))
  {
    var cs := WriteCodes(FixedWrites(grid, entries));
    forall i, j | 0 <= i < j < |cs| ensures cs[i] != cs[j] {
      CodeInjective(entries[i].ind, entries[j].ind);
    }
  }

  // ---- The balance loop ----

  /** `f"JTMD.{sheet_type.upper()}.BAL.{category_key}.M"` */
  function BalanceCode(t: AssetType, c: Category): string {
    Code(Indicator(t, Balance, c))
  }

  /** The value `find_balance_in_category` reports for a category, if any. */
  function BalanceValue(grid: Grid, t: AssetType, c: Category): Option<string> {
    match FindBalance(grid, c, t)
    case Some(found) => Some(found.1)
    case None => None
  }

  /** The balance loop's writes: each category's balance code with its search result. */
  function BalanceWrites(grid: Grid, t: AssetType, cats: seq<Category>): (ws: seq<Write>)
    ensures |ws| == |cats|
    ensures forall i :: 0 <= i < |cats| ==> ws[i] == Write(BalanceCode(t, cats[i]), BalanceValue(grid, t, cats[i]))
  {
    seq(|cats|, i requires 0 <= i < |cats| => Write(BalanceCode(t, cats[i]), BalanceValue(grid, t, cats[i])))
  }

  /** The balance loop: each category whose search succeeds sets its balance code. */
  function CollectBalance(grid: Grid, t: AssetType, cats: seq<Category>, acc: ExtractionResult): ExtractionResult {
    Apply(acc, BalanceWrites(grid, t, cats))
  }

  /** Distinct categories write distinct balance codes. */
  lemma BalanceWritesDistinct(grid: Grid, t: AssetType, cats: seq<Category>)
    requires Distinct(cats)
    ensures Distinct(WriteCodes(BalanceWrites(grid, t, cats)))
  {
    var cs := WriteCodes(BalanceWrites(grid, t, cats));
    forall i, j | 0 <= i < j < |cs| ensures cs[i] != cs[j] {
      CodeInjective(Indicator(t, Balance, cats[i]), Indicator(t, Balance, cats[j]));
    }
  }

  /** A balance search's value is what `FirstInWindow` finds for the category. */
  lemma BalanceValueIsWindow(grid: Grid, t: AssetType, c: Category)
    ensures BalanceValue(grid, t, c) == FirstInWindow(grid, BaseRow(c), SearchOffsets)
  {
  }

  // ---- The whole sheet ----

  /** `_extract_from_sheet`: fixed fields first, then the fourteen balance searches. */
  function Extract(grid: Grid, t: AssetType): ExtractionResult {
    var fixed := CollectFixed(grid, Relevant(FixedTable(), SheetPrefix(t)), map[]);
    CollectBalance(grid, t, Categories, fixed)
  }

  /**
   * The value each indicator should receive from a sheet of asset type `t`:
   * nothing for the other asset type, the first hit of the search window for
   * a balance, the fixed cell for sales and purchases.
   */
  function Expected(grid: Grid, t: AssetType, ind: Indicator): Option<string> {
    if ind.asset != t then None
    else if ind.metric == Balance then FirstInWindow(grid, BaseRow(ind.category), SearchOffsets)
    else CellAt(grid, FixedRow(ind.metric, ind.category), FixedColumn)
  }

  /** Extraction over an arbitrary list of categories (`Extract` uses all fourteen). */
  function ExtractOver(grid: Grid, t: AssetType, cats: seq<Category>): ExtractionResult {
    CollectBalance(grid, t, cats, CollectFixed(grid, FixedEntries(t, cats), map[]))
  }

  /** Codes the fixed loop can set are fixed codes of the sheet's asset type. */
  lemma FixedKeys(grid: Grid, t: AssetType, cats: seq<Category>)
    ensures forall k :: k in CollectFixed(grid, FixedEntries(t, cats), map[]) ==>
              exists ind: Indicator :: ind.asset == t && ind.metric != Balance && Code(ind) == k
  {
    var es := FixedEntries(t, cats);
    var cs := WriteCodes(FixedWrites(grid, es));
    forall k | k in cs ensures exists ind: Indicator :: ind.asset == t && ind.metric != Balance && Code(ind) == k {
      var i :| 0 <= i < |cs| && cs[i] == k;
      assert es[i] in es;
    }
  }

  /** An indicator of another asset type is written by neither loop. */
  lemma ForeignCodeAbsent(grid: Grid, t: AssetType, cats: seq<Category>, ind: Indicator)
    requires ind.asset != t
    ensures Code(ind) !in ExtractOver(grid, t, cats)
  {
    var es := FixedEntries(t, cats);
    var fc, bc := WriteCodes(FixedWrites(grid, es)), WriteCodes(BalanceWrites(grid, t, cats));
    forall i | 0 <= i < |fc| ensures fc[i] != Code(ind) {
      assert es[i] in es;
      CodeInjective(es[i].ind, ind);
    }
    forall i | 0 <= i < |bc| ensures bc[i] != Code(ind) {
      CodeInjective(Indicator(t, Balance, cats[i]), ind);
    }
    var fixed := CollectFixed(grid, es, map[]);
    assert Lookup(fixed, Code(ind)) == None;
    assert Lookup(CollectBalance(grid, t, cats, fixed), Code(ind)) == None;
  }

  lemma BalanceCodeFound(grid: Grid, t: AssetType, cats: seq<Category>, i: nat)
    requires Distinct(cats) && i < |cats|
    ensures Lookup(ExtractOver(grid, t, cats), BalanceCode(t, cats[i]))
            == FirstInWindow(grid, BaseRow(cats[i]), SearchOffsets)
  {
    var es := FixedEntries(t, cats);
    var fc := WriteCodes(FixedWrites(grid, es));
    forall j | 0 <= j < |fc| ensures fc[j] != BalanceCode(t, cats[i]) {
      assert es[j] in es;
      CodeInjective(es[j].ind, Indicator(t, Balance, cats[i]));
    }
    BalanceWritesDistinct(grid, t, cats);
    ApplyFinds(CollectFixed(grid, es, map[]), BalanceWrites(grid, t, cats), i);
    BalanceValueIsWindow(grid, t, cats[i]);
  }

  lemma FixedCodeFound(grid: Grid, t: AssetType, cats: seq<Category>, ind: Indicator)
    requires Distinct(cats) && ind.asset == t && ind.metric != Balance && ind.category in cats
    ensures Lookup(ExtractOver(grid, t, cats), Code(ind))
            == CellAt(grid, FixedRow(ind.metric, ind.category), FixedColumn)
  {
    var es := FixedEntries(t, cats);
    var e := FixedEntry(ind, FixedRow(ind.metric, ind.category), FixedColumn);
    var j :| 0 <= j < |es| && es[j] == e;
    FixedWritesDistinct(grid, es);
    ApplyFinds(map[], FixedWrites(grid, es), j);
    var bc := WriteCodes(BalanceWrites(grid, t, cats));
    forall l | 0 <= l < |bc| ensures bc[l] != Code(ind) {
      CodeInjective(Indicator(t, Balance, cats[l]), ind);
    }
  }

  /** Over a complete, repetition-free category list, an indicator's code receives its expected value. */
  lemma ExtractOverAt(grid: Grid, t: AssetType, cats: seq<Category>, ind: Indicator)
    requires Distinct(cats)
    requires forall i: nat :: i < |Categories| ==> i < |cats| && cats[i] == Categories[i]
    ensures Lookup(ExtractOver(grid, t, cats), Code(ind)) == Expected(grid, t, ind)
  {
    var i := CategoryIndex(ind.category);
    if ind.asset != t {
      ForeignCodeAbsent(grid, t, cats, ind);
    } else if ind.metric == Balance {
      BalanceCodeFound(grid, t, cats, i);
    } else {
      assert cats[i] == ind.category;
      FixedCodeFound(grid, t, cats, ind);
    }
  }

  /** `Extract` is `ExtractOver` all fourteen categories: the prefix filter keeps exactly the sheet's own fixed entries. */
  lemma ExtractIsOverCategories(grid: Grid, t: AssetType)
    ensures Extract(grid, t) == ExtractOver(grid, t, Categories)
  {
    RelevantFixedIsAssetTable(t);
  }

  /** Extraction gives one indicator exactly the value `Expected` assigns it. */
  lemma ExtractAt(grid: Grid, t: AssetType, ind: Indicator)
    ensures Lookup(Extract(grid, t), Code(ind)) == Expected(grid, t, ind)
  {
    ExtractIsOverCategories(grid, t);
    CategoriesDistinct();
    ExtractOverAt(grid, t, Categories, ind);
  }

  /** Every code either loop writes is the code of an indicator of the sheet's asset type. */
  lemma ExtractOverKeys(grid: Grid, t: AssetType, cats: seq<Category>)
    ensures forall k :: k in ExtractOver(grid, t, cats) ==> exists ind: Indicator :: ind.asset == t && Code(ind) == k
  {
    FixedKeys(grid, t, cats);
    var fixed := CollectFixed(grid, FixedEntries(t, cats), map[]);
    var bc := WriteCodes(BalanceWrites(grid, t, cats));
    forall k | k in CollectBalance(grid, t, cats, fixed)
      ensures exists ind: Indicator :: ind.asset == t && Code(ind) == k
    {
      if k !in fixed {
        var i :| 0 <= i < |bc| && bc[i] == k;
        assert Code(Indicator(t, Balance, cats[i])) == k;
      }
    }
  }

  /** Every code extraction produces is the code of an indicator of the sheet's asset type. */
  lemma ExtractKeys(grid: Grid, t: AssetType)
    ensures forall k :: k in Extract(grid, t) ==> exists ind: Indicator :: ind.asset == t && Code(ind) == k
  {
    ExtractIsOverCategories(grid, t);
    ExtractOverKeys(grid, t, Categories);
  }

  /**
   * Extraction computes, for every indicator of the catalog, exactly the
   * value `Expected` assigns it, and produces no other code.
   */
  lemma ExtractCharacterised(grid: Grid, t: AssetType)
    ensures forall ind: Indicator :: Lookup(Extract(grid, t), Code(ind)) == Expected(grid, t, ind)
    ensures forall k :: k in Extract(grid, t) ==> exists ind: Indicator :: ind.asset == t && Code(ind) == k
  {
    forall ind: Indicator ensures Lookup(Extract(grid, t), Code(ind)) == Expected(grid, t, ind) {
      ExtractAt(grid, t, ind);
    }
    ExtractKeys(grid, t);
  }

  /** An extracted code of the sheet's own asset type carries a value and belongs to the catalog. */
  lemma ExtractedCode(grid: Grid, t: AssetType, ind: Indicator)
    requires ind.asset == t
    ensures Code(ind) in Extract(grid, t) ==> Extract(grid, t)[Code(ind)] != ""
    ensures StartsWith(Code(ind), SheetPrefix(t)) && Code(ind) in CatalogCodes()
  {
    ExtractAt(grid, t, ind);
    PrefixSelectsAsset(ind, t);
    CodeInCatalog(ind);
  }

  /**
   * What a sheet's extraction result contains: only non-empty values, only
   * codes of the sheet's asset type (so every key starts with its prefix and
   * belongs to the catalog).
   */
  lemma ExtractContents(grid: Grid, t: AssetType)
    ensures forall k :: k in Extract(grid, t) ==> Extract(grid, t)[k] != ""
    ensures forall k :: k in Extract(grid, t) ==> StartsWith(k, SheetPrefix(t))
    ensures forall k :: k in Extract(grid, t) ==> k in CatalogCodes()
  {
    var r := Extract(grid, t);
    ExtractKeys(grid, t);
    forall k | k in r ensures r[k] != "" && StartsWith(k, SheetPrefix(t)) && k in CatalogCodes() {
      var ind: Indicator :| ind.asset == t && Code(ind) == k;
      ExtractedCode(grid, t, ind);
    }
  }

  /** A sheet yields at most 42 codes: 28 fixed ones and 14 balances of its asset type. */
  lemma ExtractSize(grid: Grid, t: AssetType)
    ensures |Extract(grid, t)| <= 42
  {
    var r := Extract(grid, t);
    var block := AssetBlock(t);
    AssetBlockAt(t, 0, 0);
    ExtractKeys(grid, t);
    forall k | k in r.Keys ensures k in CodesOf(block) {
      var ind: Indicator :| ind.asset == t && Code(ind) == k;
      InAssetBlock(ind);
    }
    SubsetNoLarger(r.Keys, CodesOf(block));
  }

  /** On a grid with no rows every coordinate is out of bounds, so no indicator expects a value. */
  lemma NothingExpectedOfEmptyGrid(grid: Grid, t: AssetType, ind: Indicator)
    requires |grid| == 0
    ensures Expected(grid, t, ind) == None
  {
    if ind.asset == t && ind.metric == Balance {
      WindowOfThree(grid, BaseRow(ind.category), SearchOffsets);
    }
  }

  /** A sheet with no rows at all yields an empty result rather than an error. */
  lemma EmptyGridYieldsNothing(grid: Grid, t: AssetType)
    requires |grid| == 0
    ensures Extract(grid, t) == map[]
  {
    var r := Extract(grid, t);
    ExtractKeys(grid, t);
    if k :| k in r {
      var ind: Indicator :| ind.asset == t && Code(ind) == k;
      ExtractAt(grid, t, ind);
      NothingExpectedOfEmptyGrid(grid, t, ind);
    }
  }

  // ---- Ragged rows and padded rows ----

  /** A blank cell added by padding reads exactly like a cell that is not there. */
  lemma PadCellAt(grid: Grid, w: nat, row: nat, col: nat)
    ensures CellAt(Pad(grid, w), row, col) == CellAt(grid, row, col)
  {
    if row < |grid| {
      var padded := Pad(grid, w)[row];
      assert padded == PadRow(grid[row], w);
      if col < |grid[row]| {
        assert padded[col] == padded[..|grid[row]|][col] == grid[row][col];
      } else if col < |padded| {
        assert padded[col] == Null;
      }
    }
  }

  /** Padding never changes what a search window finds. */
  lemma {:induction false} PadFirstInWindow(grid: Grid, w: nat, base: nat, offsets: seq<nat>)
    ensures FirstInWindow(Pad(grid, w), base, offsets) == FirstInWindow(grid, base, offsets)
    decreases |offsets|
  {
    if |offsets| > 0 {
      PadCellAt(grid, w, base + offsets[0], BalanceColumn);
      PadFirstInWindow(grid, w, base, offsets[1..]);
    }
  }

  /** Padding does not change the fixed loop's writes. */
  lemma PadFixedWrites(grid: Grid, w: nat, es: seq<FixedEntry>)
    ensures FixedWrites(Pad(grid, w), es) == FixedWrites(grid, es)
  {
    forall i | 0 <= i < |es| ensures FixedWrites(Pad(grid, w), es)[i] == FixedWrites(grid, es)[i] {
      PadCellAt(grid, w, es[i].row, es[i].col);
    }
  }

  /** Padding does not change the balance loop's writes. */
  lemma PadBalanceWrites(grid: Grid, w: nat, t: AssetType, cats: seq<Category>)
    ensures BalanceWrites(Pad(grid, w), t, cats) == BalanceWrites(grid, t, cats)
  {
    forall i | 0 <= i < |cats| ensures BalanceWrites(Pad(grid, w), t, cats)[i] == BalanceWrites(grid, t, cats)[i] {
      PadFirstInWindow(grid, w, BaseRow(cats[i]), SearchOffsets);
    }
  }

  /**
   * A sheet whose rows have different lengths and the same sheet padded with
   * blank cells to any width give the same extraction result, so modelling
   * ragged rows loses nothing.
   */
  lemma PadExtract(grid: Grid, w: nat, t: AssetType)
    ensures Extract(Pad(grid, w), t) == Extract(grid, t)
  {
    PadFixedWrites(grid, w, Relevant(FixedTable(), SheetPrefix(t)));
    PadBalanceWrites(grid, w, t, Categories);
  }
}
