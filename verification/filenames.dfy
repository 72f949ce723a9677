/**
 * What a source file's name says about it: its reporting period
 * (`_extract_period_from_filename`) and whether it is an ETF or a REIT
 * workbook (the sheet-type test of `process_excel_file`).
 */
module FileNames {
  import opened Wrappers
  import opened Strings
  import opened Catalog

  predicate IsDigit(c: char) {
    '0' <= c <= '9'
  }

  /** The pattern `m(\d{2})(\d{2})` matches `s` at position `k`. */
  predicate TokenAt(s: string, k: int) {
    && 0 <= k && k + 5 <= |s|
    && s[k] == 'm'
    && IsDigit(s[k + 1]) && IsDigit(s[k + 2]) && IsDigit(s[k + 3]) && IsDigit(s[k + 4])
  }

  /** `re.search` for the period token, starting at `from`: the leftmost match, if any. */
  function FindToken(s: string, from: nat): (r: Option<nat>)
    ensures r.Some? ==> from <= r.value && TokenAt(s, r.value)
    ensures r.Some? ==> forall j :: from <= j < r.value ==> !TokenAt(s, j)
    ensures r.None? ==> forall j :: from <= j ==> !TokenAt(s, j)
    decreases |s| - from
  {
    if from + 5 > |s| then None
    else if TokenAt(s, from) then Some(from)
    else FindToken(s, from + 1)
  }

  /** `f"20{yy}-{mm}"` for the token at `k`: seven characters, the digits copied in order. */
  function Stamp(s: string, k: nat): (p: string)
    requires TokenAt(s, k)
    ensures |p| == 7 && p[0] == '2' && p[1] == '0' && p[4] == '-'
    ensures p[2] == s[k + 1] && p[3] == s[k + 2] && p[5] == s[k + 3] && p[6] == s[k + 4]
  {
    "20" + s[k + 1..k + 3] + "-" + s[k + 3..k + 5]
  }

  /**
   * The period key of a file: `"20YY-MM"` from the first token `mYYMM` of the
   * lower-cased name, or `fallback` (the current month) when there is none.
   * The month is not validated.
   */
  function PeriodOf(name: string, fallback: string): (p: string)
    ensures (forall k :: !TokenAt(Lower(name), k)) ==> p == fallback
    ensures (exists k :: TokenAt(Lower(name), k)) ==>
              exists k :: && TokenAt(Lower(name), k)
                          && (forall j :: 0 <= j < k ==> !TokenAt(Lower(name), j))
                          && p == "20" + name[k + 1..k + 3] + "-" + name[k + 3..k + 5]
  {
    var low := Lower(name);
    match FindToken(low, 0)
    case Some(k) =>
      assert low[k + 1..k + 3] == name[k + 1..k + 3];
      assert low[k + 3..k + 5] == name[k + 3..k + 5];
      Stamp(low, k)
    case None => fallback
  }

  /** A period taken from a name always has the shape `20DD-DD`. */
  lemma PeriodShape(name: string, fallback: string)
    requires exists k :: TokenAt(Lower(name), k)
    ensures var p := PeriodOf(name, fallback);
            && |p| == 7 && p[..2] == "20" && p[4] == '-'
            && IsDigit(p[2]) && IsDigit(p[3]) && IsDigit(p[5]) && IsDigit(p[6])
  {
    var r := FindToken(Lower(name), 0);
    assert r.Some?;
    var p := Stamp(Lower(name), r.value);
    assert PeriodOf(name, fallback) == p;
    assert p[..2] == [p[0], p[1]];
  }

  /**
   * The token as it appears in the name before lowercasing: `m` or `M`
   * followed by four ASCII digits.
   */
  predicate RawTokenAt(name: string, k: int) {
    && 0 <= k && k + 5 <= |name|
    && (name[k] == 'm' || name[k] == 'M')
    && IsDigit(name[k + 1]) && IsDigit(name[k + 2]) && IsDigit(name[k + 3]) && IsDigit(name[k + 4])
  }

  /** The pattern matches the lowercased name exactly where the name has `m` or `M` and four digits. */
  lemma TokenAtLower(name: string, k: int)
    ensures TokenAt(Lower(name), k) <==> RawTokenAt(name, k)
  {
    if 0 <= k && k + 5 <= |name| {
      var low := Lower(name);
      assert low[k] == LowerChar(name[k]);
      assert low[k + 1] == LowerChar(name[k + 1]) && low[k + 2] == LowerChar(name[k + 2]);
      assert low[k + 3] == LowerChar(name[k + 3]) && low[k + 4] == LowerChar(name[k + 4]);
    }
  }

  /**
   * The period of a name whose first token, in either case, is at `k`:
   * `"20"`, the two digits after the `m`, `"-"`, the next two digits,
   * whatever month they spell.
   */
  lemma PeriodAtFirstToken(name: string, fallback: string, k: nat)
    requires RawTokenAt(name, k)
    requires forall j :: 0 <= j < k ==> !RawTokenAt(name, j)
    ensures PeriodOf(name, fallback) == "20" + name[k + 1..k + 3] + "-" + name[k + 3..k + 5]
  {
    var low := Lower(name);
    TokenAtLower(name, k);
    forall j | 0 <= j < k ensures !TokenAt(low, j) {
      TokenAtLower(name, j);
    }
    var r := FindToken(low, 0);
    assert r == Some(k);
    assert low[k + 1..k + 3] == name[k + 1..k + 3];
    assert low[k + 3..k + 5] == name[k + 3..k + 5];
  }

  /** A name without a token in either case gets the fallback period. */
  lemma PeriodWithoutToken(name: string, fallback: string)
    requires forall k :: !RawTokenAt(name, k)
    ensures PeriodOf(name, fallback) == fallback
  {
    forall k ensures !TokenAt(Lower(name), k) {
      TokenAtLower(name, k);
    }
  }

  /** `'ETF' if 'etf' in name.lower() else 'REIT'`. */
  function SheetTypeOf(name: string): (t: AssetType)
    ensures t == ETF <==> exists i :: OccursAt(Lower(name), "etf", i)
  {
    if Contains(Lower(name), "etf") then ETF else REIT
  }

  /** `m2403` gives March 2024. */
  lemma PeriodOfPlainToken()
    ensures PeriodOf("m2403.xls", "2026-10") == "2024-03"
  {
    var a := "m2403.xls";
    assert TokenAt(Lower(a), 0);
    assert a[1..3] == "24" && a[3..5] == "03";
  }

  /** An upper-case `M` matches too, and the month 13 is passed through unvalidated. */
  lemma PeriodOfUnvalidatedMonth()
    ensures PeriodOf("M2413.xlsx", "2026-10") == "2024-13"
  {
    var b := "M2413.xlsx";
    PeriodAtFirstToken(b, "2026-10", 0);
    assert b[1..3] == "24" && b[3..5] == "13";
  }

  /** A name without a token falls back to the supplied current month. */
  lemma PeriodOfNoToken()
    ensures PeriodOf("etf.xls", "2026-10") == "2026-10"
  {
    var c := "etf.xls";
    forall k ensures !RawTokenAt(c, k) {
      if 0 <= k && k + 5 <= |c| {
        assert !IsDigit(c[k + 1]);
      }
    }
    PeriodWithoutToken(c, "2026-10");
  }
}
