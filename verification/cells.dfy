/**
 * Spreadsheet cells and the normalisation every extracted value goes through
 * (`_preserve_number_formatting`). Numbers are stringified before they reach
 * the model, so a cell is either blank or text.
 */
module Cells {

  /** A raw cell: blank (None or NaN in pandas) or the text `str()` gives for its value. */
  datatype Cell = Null | Text(s: string)

  /** One sheet, row-major and 0-based; rows may differ in length. */
  type Grid = seq<seq<Cell>>

  /** A row extended with blank cells up to width `w`. */
  function PadRow(row: seq<Cell>, w: nat): (r: seq<Cell>)
    ensures |row| <= |r| && r[..|row|] == row
    ensures forall j :: |row| <= j < |r| ==> r[j] == Null
  {
    if |row| < w then row + seq(w - |row|, _ => Null) else row
  }

  /**
   * The rectangular table a spreadsheet reader builds from ragged rows:
   * every row filled up to width `w` with blank cells.
   */
  function Pad(grid: Grid, w: nat): (g: Grid)
    ensures |g| == |grid|
    ensures forall i :: 0 <= i < |grid| ==> g[i] == PadRow(grid[i], w)
  {
    seq(|grid|, i requires 0 <= i < |grid| => PadRow(grid[i], w))
  }

  /** The characters Python's `str.strip()` removes (those for which `str.isspace()` holds). */
  predicate IsSpace(c: char) {
    || c == ' '
    || '\t' <= c <= '\r'
    || '\U{1C}' <= c <= '\U{1F}'
    || c == '\U{85}'
    || c == '\U{A0}'
    || c == '\U{1680}'
    || '\U{2000}' <= c <= '\U{200A}'
    || c == '\U{2028}'
    || c == '\U{2029}'
    || c == '\U{202F}'
    || c == '\U{205F}'
    || c == '\U{3000}'
  }

  predicate AllSpace(s: string) {
    forall i :: 0 <= i < |s| ==> IsSpace(s[i])
  }

  /** The index of the first non-whitespace character of `s` at or after `i`, or `|s|`. */
  function SkipSpace(s: string, i: nat): (n: nat)
    requires i <= |s|
    ensures i <= n <= |s|
    ensures forall k :: i <= k < n ==> IsSpace(s[k])
    ensures n == |s| || !IsSpace(s[n])
    decreases |s| - i
  {
    if i < |s| && IsSpace(s[i]) then SkipSpace(s, i + 1) else i
  }

  /** One past the last non-whitespace character of `s` before `j`, or 0. */
  function SkipSpaceBack(s: string, j: nat): (n: nat)
    requires j <= |s|
    ensures n <= j
    ensures forall k :: n <= k < j ==> IsSpace(s[k])
    ensures n == 0 || !IsSpace(s[n - 1])
    decreases j
  {
    if j > 0 && IsSpace(s[j - 1]) then SkipSpaceBack(s, j - 1) else j
  }

  /** `s` without its leading whitespace (Python's `lstrip()`). */
  function TrimStart(s: string): (r: string)
    ensures |r| <= |s| && r == s[|s| - |r|..]
    ensures AllSpace(s[..|s| - |r|])
    ensures r == [] || !IsSpace(r[0])
    ensures r == [] <==> AllSpace(s)
  {
    var n := SkipSpace(s, 0);
    assert forall k :: 0 <= k < n ==> s[..n][k] == s[k];
    assert n < |s| ==> s[n..][0] == s[n];
    s[n..]
  }

  /** `s` without its trailing whitespace (Python's `rstrip()`). */
  function TrimEnd(s: string): (r: string)
    ensures |r| <= |s| && r == s[..|r|]
    ensures AllSpace(s[|r|..])
    ensures r == [] || !IsSpace(r[|r| - 1])
    ensures r == [] <==> AllSpace(s)
  {
    var n := SkipSpaceBack(s, |s|);
    assert forall k :: 0 <= k < |s| - n ==> s[n..][k] == s[n + k];
    assert n > 0 ==> s[..n][n - 1] == s[n - 1];
    s[..n]
  }

  /** Python's `s.strip()`; `StripIsSlice` says which slice of `s` it is. */
  function Strip(s: string): string {
    TrimEnd(TrimStart(s))
  }

  /** The number of whitespace characters `Strip` removes from the front of `s`. */
  function Lead(s: string): (n: nat)
    ensures n <= |s|
  {
    |s| - |TrimStart(s)|
  }

  /**
   * `Strip(s)` is the slice of `s` that starts at its first and ends at its
   * last non-whitespace character, and everything cut away is whitespace.
   */
  lemma StripIsSlice(s: string)
    ensures Lead(s) + |Strip(s)| <= |s|
    ensures Strip(s) == s[Lead(s)..Lead(s) + |Strip(s)|]
    ensures AllSpace(s[..Lead(s)]) && AllSpace(s[Lead(s) + |Strip(s)|..])
  {
    var a, r := Lead(s), Strip(s);
    assert s[a..][..|r|] == s[a..a + |r|];
    assert s[a..][|r|..] == s[a + |r|..];
  }

  /** `Strip(s)` is empty exactly when `s` is all whitespace, and otherwise neither of its ends is. */
  lemma StripEnds(s: string)
    ensures Strip(s) == [] <==> AllSpace(s)
    ensures Strip(s) == [] || (!IsSpace(Strip(s)[0]) && !IsSpace(Strip(s)[|Strip(s)| - 1]))
  {
  }

  /** Stripping a string whose ends are not whitespace changes nothing. */
  lemma StripFixesTrimmed(s: string)
    requires s == [] || (!IsSpace(s[0]) && !IsSpace(s[|s| - 1]))
    ensures Strip(s) == s
  {
    assert TrimStart(s) == s;
    assert TrimEnd(s) == s;
  }

  /**
   * `_preserve_number_formatting`: blank cells and empty text become `""`,
   * every other cell its stripped text; `""` stands for "no value".
   */
  function Normalize(c: Cell): string {
    match c
    case Null => ""
    case Text(s) => if s == "" then "" else Strip(s)
  }

  /**
   * A blank cell normalises to `""`, and a text cell does so exactly when it
   * is all whitespace; a non-empty result neither starts nor ends with
   * whitespace.
   */
  lemma NormalizeMeaning(c: Cell)
    ensures c.Null? ==> Normalize(c) == ""
    ensures c.Text? ==> (Normalize(c) == "" <==> AllSpace(c.s))
    ensures Normalize(c) == "" || (!IsSpace(Normalize(c)[0]) && !IsSpace(Normalize(c)[|Normalize(c)| - 1]))
  {
    match c
    case Null =>
    case Text(s) =>
      if s != "" {
        assert Normalize(c) == Strip(s);
        StripEnds(s);
      }
  }

  /**
   * A text cell normalises to the slice of its text between the first and
   * last non-whitespace characters, and everything cut away is whitespace.
   */
  lemma NormalizeIsSlice(s: string)
    ensures var n := Normalize(Text(s));
            && Lead(s) + |n| <= |s| && n == s[Lead(s)..Lead(s) + |n|]
            && AllSpace(s[..Lead(s)]) && AllSpace(s[Lead(s) + |n|..])
  {
    if s == "" {
      assert Lead(s) == 0 && s[..0] == s[0..0] == [];
    } else {
      assert Normalize(Text(s)) == Strip(s);
      StripIsSlice(s);
    }
  }

  /** Normalising an already normalised value changes nothing. */
  lemma NormalizeIdempotent(c: Cell)
    ensures Normalize(Text(Normalize(c))) == Normalize(c)
  {
    var n := Normalize(c);
    if n != "" {
      NormalizeMeaning(c);
      assert !IsSpace(n[0]) && !IsSpace(n[|n| - 1]);
      StripFixesTrimmed(n);
      assert Normalize(Text(n)) == Strip(n);
    }
  }
}
