# JTMD adaptive extractor — a Dafny model

This project models the extraction engine of the JPX pipeline's
`AdaptiveJTMDExtractor`. The extractor reads monthly JPX trading-by-investor
workbooks for ETFs and REITs. From each workbook's `Value` sheet it takes:

- the sales and purchases figures at fixed cells;
- the balance figure of each of the fourteen investor categories, by probing
  up to three rows below a base row.

It files these figures under the codes of an 84-column catalog
(`JTMD.<ETF|REIT>.<BAL|SAL|PURCH>.<category>.M`) and merges the workbooks'
results by period. The period is taken from the file name (`mYYMM`). It then
composes a data table (two header rows, then one row per period in ascending
order), a metadata table and the names of the two CSV files and the archive.

Modules, in dependency order:

- `Wrappers`: `Option`.
- `Strings`: joining and splitting on a separator, prefix tests, substring
  search, ASCII lowercasing, and the code-point order that Python's `sorted`
  applies to strings, with a sort of a finite set.
- `Cells`: a cell is `Null` or `Text`; the grid is a sequence of rows that may
  differ in length; Python's `str.strip` over the full `str.isspace` set;
  normalisation of a cell.
- `Catalog`: the asset types, metrics and categories, and the code and
  description of each indicator. It generates the catalog in the source's
  column order and parses codes back. It holds the category table (base rows,
  offsets 0, 1 and 2, balance column 6) and the fixed table (rows per category,
  column 4).
- `FileNames`: the period key and the sheet type, both taken from a file name.
- `Extraction`: the cell lookup that tolerates out-of-range coordinates, the
  first-hit balance search, the prefix filter, and the extraction of one
  sheet as an ordered sequence of writes into a map.
- `Accumulation`: processing one workbook (a missing `Value` sheet or an
  unreadable workbook yields an empty result), the per-period merge, and the
  fold of `run` over the files.
- `Output`: the rows of the data table and of the metadata table, the three
  output names, and `run` as a whole. A parser of the data table serves as
  the round-trip partner of its construction.

The central results are these:

- `ExtractCharacterised` gives, for every indicator, the value extraction
  yields, stated independently of how the loops run.
- `AccumulateCharacterised` states the same for the merged dataset: the
  latest file of a period wins, code by code.
- `DataTableRoundTrip` reads the data table back to exactly the accumulated
  dataset.

Two behaviours of the code are kept as written:

- The month in a file name is not validated: any four digits after the
  first `m` or `M` make the period (`FileNames.PeriodAtFirstToken`), so
  `M2413.xlsx` gives `2024-13` (`FileNames.PeriodOfUnvalidatedMonth`).
- The `if not all_data` check in `run` can never fire once at least one file
  exists, because every file contributes its period, even when nothing was
  extracted. `Output.Run` keeps the check and proves it dead.

## Model

| member | source | states |
|---|---|---|
| Cells.NormalizeMeaning | jpx_automated_pipeline.py:379-382 | a null cell gives `''`; a text cell gives `''` exactly when it is empty or all whitespace; any non-empty result has no whitespace at either end |
| Cells.NormalizeIsSlice | jpx_automated_pipeline.py:381 | a text cell's value is a contiguous piece of its text, and everything cut off on either side is whitespace |
| Cells.NormalizeIdempotent | jpx_automated_pipeline.py:379-382 | normalising an already normalised value changes nothing |
| Cells.StripIsSlice | jpx_automated_pipeline.py:381 | `strip` keeps a contiguous slice and removes only whitespace, from both ends |
| Cells.StripEnds | jpx_automated_pipeline.py:381 | `strip` gives the empty string exactly for all-whitespace input, and otherwise a string with no whitespace at either end |
| Strings.LowerIdempotent | jpx_automated_pipeline.py:372 | lowercasing an already lowercased name changes nothing |
| Strings.Sorted | jpx_automated_pipeline.py:447 | the periods come out as a strictly ascending sequence under code-point order, holding exactly the set's elements |
| Catalog.ParseCodeOfCode | jpx_automated_pipeline.py:276-323 | every catalog code parses back to its asset type, metric and category |
| Catalog.CodesInjective | jpx_automated_pipeline.py:276-323 | different indicators have different codes |
| Catalog.CatalogComplete | jpx_automated_pipeline.py:276-323 | the catalog has 84 distinct columns with distinct codes, and every indicator's code is among them |
| Catalog.AssetBlockAt | jpx_automated_pipeline.py:277-322 | within an asset type's 42 columns, position `14*m + k` holds metric `m` (balance, sales, purchases) for category `k` |
| Catalog.PrefixSelectsAsset | jpx_automated_pipeline.py:405-407 | a code starts with `JTMD.ETF` or `JTMD.REIT` exactly when its indicator belongs to that asset type |
| Catalog.BalanceWindowsDisjoint | jpx_automated_pipeline.py:326-334 | each category's three probe rows end before the next category's base row, so no two search windows overlap |
| Catalog.FixedEntries | jpx_automated_pipeline.py:338-369 | the fixed table of an asset type holds the sales and purchases entry of each listed category, each at its field's row and column 4, only such entries, and no indicator twice |
| Catalog.FixedCoordinatesDistinct | jpx_automated_pipeline.py:340-368 | no two fixed fields of one asset type share a row; the sales row is the category's base row and the purchases row the next one |
| FileNames.PeriodOf | jpx_automated_pipeline.py:371-377 | without an `m` followed by four digits in the lowercased name the result is the fallback; otherwise it is `20YY-MM`, built from the leftmost such occurrence |
| FileNames.PeriodShape | jpx_automated_pipeline.py:372-375 | a period taken from a name has seven characters: `20`, two digits, `-`, two digits |
| FileNames.TokenAtLower | jpx_automated_pipeline.py:372 | the pattern matches the lowercased name at `k` exactly when the original name has `m` or `M` at `k` followed by four digits |
| FileNames.PeriodAtFirstToken | jpx_automated_pipeline.py:372-375 | when the first token, in either case, is at `k`, the period is `20`, the two digits after the `m`, `-`, the next two digits, whatever month those digits spell |
| FileNames.PeriodWithoutToken | jpx_automated_pipeline.py:376-377 | a name with no `m`/`M` followed by four digits gets the fallback period |
| FileNames.PeriodOfUnvalidatedMonth | jpx_automated_pipeline.py:372-375 | an upper-case `M` matches too, and a month of 13 is accepted as it stands |
| FileNames.PeriodOfNoToken | jpx_automated_pipeline.py:376-377 | `etf.xls`, which has no token, gets the fallback period |
| FileNames.SheetTypeOf | jpx_automated_pipeline.py:436 | the sheet type is ETF exactly when the lowercased name contains `etf` |
| Extraction.PadCellAt | jpx_automated_pipeline.py:401-414 | a cell lookup gives the same answer on a grid whose rows are filled with blank cells up to any width as on the ragged grid: a blank cell and a missing cell both give no value |
| Extraction.PadExtract | jpx_automated_pipeline.py:399-423 | extracting a sheet whose rows are filled with blank cells up to any width gives the same result as extracting the ragged sheet |
| Extraction.FirstInWindow | jpx_automated_pipeline.py:387-397 | the search yields nothing exactly when every offset's probe is empty, and any value it yields is non-empty |
| Extraction.FirstInWindowIsFirst | jpx_automated_pipeline.py:387-394 | if offset `k` is the first whose probe succeeds, the search returns that probe's value |
| Extraction.FindBalanceWindow | jpx_automated_pipeline.py:384-397 | the balance search returns the category's balance code with the value at offset 0, else 1, else 2, and nothing when none of the three rows has a non-empty column 6 |
| Extraction.RelevantFixedIsAssetTable | jpx_automated_pipeline.py:405-407 | filtering the fixed table by the sheet's prefix leaves exactly the sheet's asset type's 28 entries, in table order |
| Extraction.Apply | jpx_automated_pipeline.py:408-420 | a sequence of writes only adds written codes, leaves every other code as it was, and does not introduce empty values |
| Extraction.ApplyFinds | jpx_automated_pipeline.py:408-420 | with distinct codes, each code ends up with its own write's value when one was found, and otherwise keeps its old value |
| Extraction.FixedCodeFound | jpx_automated_pipeline.py:408-414 | a sales or purchases code of the sheet's type holds the value of its fixed cell, or is absent when that cell is out of range or empty |
| Extraction.BalanceCodeFound | jpx_automated_pipeline.py:417-420 | a balance code of the sheet's type holds the first hit of its category's search window, or is absent |
| Extraction.ForeignCodeAbsent | jpx_automated_pipeline.py:405-407 | no code of the other asset type is ever extracted |
| Extraction.ExtractCharacterised | jpx_automated_pipeline.py:399-423 | for every indicator, the extracted value is the one `Expected` assigns: nothing for the other asset type, the window's first hit for a balance, the fixed cell for sales and purchases; every key is the code of an indicator of the sheet's type |
| Extraction.ExtractContents | jpx_automated_pipeline.py:399-423 | every extracted value is non-empty, every key carries the sheet's prefix, and every key is a catalog code |
| Extraction.ExtractSize | jpx_automated_pipeline.py:422 | a sheet yields at most 28 + 14 = 42 codes |
| Extraction.EmptyGridYieldsNothing | jpx_automated_pipeline.py:390 | an empty sheet never fails; it yields an empty result |
| Accumulation.ProcessFile | jpx_automated_pipeline.py:425-442 | the period always comes from the name; an unreadable workbook or one without a `Value` sheet gives an empty result; every result is well formed |
| Accumulation.ProcessFileContents | jpx_automated_pipeline.py:431-439 | a readable file's result is the extraction of its `Value` sheet under the type its name gives, indicator by indicator, with at most 42 codes, all carrying that type's prefix |
| Accumulation.MergeMeaning | jpx_automated_pipeline.py:503-506 | after a merge the period exists, even for an empty result; new values win; the period's other values stay; no other period changes |
| Accumulation.MergeIdempotent | jpx_automated_pipeline.py:503-506 | merging the same result twice equals merging it once |
| Accumulation.MergeCommutesAcrossPeriods | jpx_automated_pipeline.py:502-506 | results for different periods can be merged in either order |
| Accumulation.MergeCommutesDisjoint | jpx_automated_pipeline.py:502-506 | results with disjoint codes for one period (an ETF and a REIT workbook of the same month) merge to their union in either order |
| Accumulation.MergeWellFormed | jpx_automated_pipeline.py:503-506 | merging well-formed results keeps the dataset well formed |
| Accumulation.Accumulate | jpx_automated_pipeline.py:501-506 | the accumulated dataset holds only non-empty values under catalog codes |
| Accumulation.MergeAllPeriods | jpx_automated_pipeline.py:501-506 | a period is in the merged dataset exactly when some processed file has it |
| Accumulation.MergeAllLatest | jpx_automated_pipeline.py:501-506 | each code of a merged period holds the value of the last result for that period that contained the code |
| Accumulation.AccumulateCharacterised | jpx_automated_pipeline.py:496-506 | the dataset's periods are exactly the files' periods, and each value is the latest file's value for that period and code |
| Output.ParseRender | jpx_automated_pipeline.py:448-449 | reading a rendered row back gives exactly the period's values |
| Output.DataTable | jpx_automated_pipeline.py:444-458 | the table has the code header row, the description header row, and one row per period; every row has 85 cells; periods are strictly ascending |
| Output.DataTableRoundTrip | jpx_automated_pipeline.py:444-463 | reading the data table back gives the dataset it was built from |
| Output.MetaTable | jpx_automated_pipeline.py:468-479 | the metadata table has a header and one ten-column row per catalog code |
| Output.MetaMatchesData | jpx_automated_pipeline.py:470-476 | metadata row `i` carries the code and description of data column `i`, and the clock reading taken for that row |
| Output.MetaCodeParses | jpx_automated_pipeline.py:470-472 | the code in metadata row `i` parses to the indicator of catalog column `i` |
| Output.FileNamesDistinct | jpx_automated_pipeline.py:460-484 | the data, metadata and archive names never coincide, and each determines its date stamp |
| Output.WriteOutputs | jpx_automated_pipeline.py:512-515 | the written data table is exactly the dataset's table (two header rows, then one row per period in ascending order) and reads back to the dataset; the metadata table is the one built from the clock readings; the three names are `JTMD_DATA_<stamp>.csv`, `JTMD_META_<stamp>.csv` and `JTMD_<stamp>.zip`; the archive holds the data file and the metadata file under their own names, which differ from each other and from the archive's |
| Output.Run | jpx_automated_pipeline.py:491-515 | a run yields nothing exactly when there are no input files; otherwise its data table is exactly the table of the accumulated dataset and reads back to it, its metadata table is built from the clock readings, its three names carry the run's date stamp, and the archive holds the two files |

## Left out

- Downloading (`JPXDownloader`), logging and printing, `load_config` and `main` are plumbing around the extractor.
- Opening workbooks with pandas and `df.values.tolist()` are foreign library calls. A workbook arrives as `Unreadable` or as a map from sheet names to grids, and any exception raised while reading counts as `Unreadable`.
- pandas pads rows to a common width with NaN. The model lets rows differ in length; `Extraction.PadExtract` shows that padding with blank cells to any width gives the same result.
- Cells arrive already stringified. `pd.isna` and `str()` of numbers (floating-point formatting such as `1234.0`) are not modelled.
- CSV serialisation (quoting, encoding, pandas' header handling) and ZIP writing with deflate compression are file I/O. The tables are modelled as rows of strings, and the archive as its name and its member names.
- `datetime.now()` is a parameter at each place it is read:
  - the fallback period of each file (`SourceFile.clockPeriod`);
  - the run's date stamp;
  - one `LAST_UPDATE` reading per metadata row.
- The order in which `glob` lists the input files depends on the filesystem. The files arrive as a sequence in that order.
- FileNames.PeriodOf: `\d` is taken as an ASCII digit, whereas Python's `re` also accepts other Unicode decimal digits.
- Strings.Lower: lowercasing is ASCII-only. Python's `str.lower` also maps non-ASCII letters, and can change the length of a string.
- Output.WriteOutputs: requires a well-formed dataset (non-empty values under catalog codes), which is what `Accumulate` always produces. The source would write any dictionary.
- Accumulation.Merge: carries no contract of its own. What it does is stated in `Accumulation.MergeMeaning`.
- The per-sheet log line of extracted counts is not modelled. `Extraction.ExtractSize` states the bound it reports.
