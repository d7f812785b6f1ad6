# Trader sentiment analysis: a verified model of the row-level logic

`trader_analysis.py` loads a table of trades and a table of daily Fear &
Greed index values, keys both by calendar day, inner-joins them, puts every
merged row into a sentiment zone, and draws bar charts of the mean PnL and
the win rate per zone. The Dafny project here models the decisions the
script makes about rows, columns and bars, and proves what those decisions
promise:

- `wrappers.dfy` (`Wrappers`): `Option` (a missing value, NaN/NaT, or a
  search that found nothing) and `Result` (an error exit).
- `floats.dfy` (`Floats`): a Python float as seen by `<` and `>=`. It is a
  finite real, an infinity or NaN, and every comparison with NaN is false.
- `columns.dfy` (`Columns`): `c.lower().strip()` on every column name. It
  also holds the first-match searches for the PnL, leverage and index-value
  columns, and the choice of each table's date/time column.
- `dates.dfy` (`Dates`): epoch milliseconds cut to a day key and
  `dropna(subset=['date_key'])`. It also holds each table's min/max date
  and the no-overlap warning.
- `merge.dfy` (`Merge`): `pd.merge(..., on='date_key', how='inner')` as a
  nested join over rows with an `Option<int>` key, and the empty-merge
  error.
- `pnl.dfy` (`Pnl`): deleting `,` and `$` from text PnL cells, then reading
  the result as a decimal number. Text that does not read as one becomes
  missing.
- `sentiment.dfy` (`Sentiment`): `get_bucket` with thresholds 25, 50 and 75.
- `charts.dfy` (`Charts`): the fixed zone order restricted to the zones
  present. It also holds the mean PnL and win rate per zone, the bars of the
  two bar charts, and the label placement of `add_bar_labels`.
- `analysis.dfy` (`Analysis`): `analyze_and_visualize` from the cleaned
  tables to the bars that are drawn, with the two corrections listed
  under "Findings" applied. It also holds the leverage plot's guard, as
  written and as corrected.

Rows are abstracted to the cells the analysis reads. A date key is an
`Option<int>` day number; `None` stands for NaT. A cleaned PnL or leverage
value is an `Option<real>`; `None` stands for NaN. An index value is the
result of `float(val)`: `None` when the conversion raises, otherwise a
`Float`.

## Model

| member | source | states |
|---|---|---|
| `Sentiment.GetBucketAsWritten` | trader_analysis.py:151-158 | get_bucket as written: it gives Unknown exactly when float() raises; a NaN passes float() and is bucketed |
| `Sentiment.MissingValueIsExtremeGreedAsWritten` | trader_analysis.py:152-157 | as written, a NaN index value lands in Extreme Greed, because every `<` against NaN is false |
| `Sentiment.GetBucket` | trader_analysis.py:151-158 | Unknown exactly for a value that is not a number. A finite value goes to exactly one zone: Extreme Fear below 25, Fear in [25,50), Greed in [50,75), Extreme Greed from 75 on, so 25, 50 and 75 go to the upper zone. The infinities go to the outer zones. Every non-NaN input agrees with the code as written |
| `Sentiment.BucketMonotone` | trader_analysis.py:154-157 | for non-NaN floats, a larger index value never gets a zone earlier in the fixed order |
| `Sentiment.LabelInjective` | trader_analysis.py:154-158 | distinct zones have distinct labels, so grouping by label is grouping by zone |
| `Sentiment.BucketColumn` | trader_analysis.py:159 | the sentiment_bucket column as written has one zone per value, in row order: Unknown exactly where float() failed, Extreme Greed for a NaN, and the corrected zone of `Sentiment.GetBucket` for every other value |
| `Floats.LessIffNotAtLeast` | trader_analysis.py:154-157 | `<` and `>=` against a threshold are complements except on NaN, where both are false |
| `Columns.LowerChar` | trader_analysis.py:67-68 | lower-casing one character turns an upper-case ASCII letter into the same letter in lower case, changes nothing else, and keeps whitespace whitespace |
| `Columns.Lower` | trader_analysis.py:67-68 | str.lower() on ASCII names keeps the length and lower-cases character by character: each upper-case letter becomes the same letter in lower case, and every other character is kept |
| `Columns.Strip` | trader_analysis.py:67-68 | strip() gives a contiguous slice of its input, no longer than it, that neither starts nor ends with whitespace |
| `Columns.NormalizeName` | trader_analysis.py:67-68 | a normalised name is no longer than the original and neither starts nor ends with whitespace (that it holds no upper-case letter is stated by `Columns.NormalizeNameSpec`) |
| `Columns.NormalizeColumns` | trader_analysis.py:67-68 | the renamed column list has the same length, and each name is the normalised original at the same position |
| `Columns.StripSpec` | trader_analysis.py:67-68 | strip() gives a slice of the name with only whitespace cut off its two ends, and the slice neither starts nor ends with whitespace |
| `Columns.StripUnique` | trader_analysis.py:67-68 | any slice with that description is the result of strip(), so the description determines it |
| `Columns.NormalizeNameSpec` | trader_analysis.py:67-68 | a normalised name is the lower-cased name with whitespace cut from both ends, and it holds no upper-case letter |
| `Columns.NormalizeNameIdempotent` | trader_analysis.py:67-68 | normalising a normalised name changes nothing |
| `Columns.FindColumn` | trader_analysis.py:131-148 | `next((c for c in cols if P(c)), None)`: None exactly when no column satisfies the role's filter, otherwise the first column in list order that does |
| `Columns.Matches` | trader_analysis.py:131-148 | the three generator filters; a name that passes any of them is non-empty |
| `Columns.PnlMatchesIffContainsPnl` | trader_analysis.py:131 | the PnL filter holds exactly when the name contains "pnl"; the "closed pnl" and "closed_pnl" alternatives add nothing |
| `Columns.FoundColumnIsTruthy` | trader_analysis.py:131-149 | a found column has a non-empty name, so `if pnl_col:` and the others test whether a column was found; the value column's name never contains "size" |
| `Columns.TraderTimeSource` | trader_analysis.py:73-81 | a numeric 'timestamp' is used as epoch milliseconds; otherwise 'timestamp ist' is parsed as text; with neither, loading fails |
| `Columns.SentimentDateSource` | trader_analysis.py:84-92 | 'date' is used when present, otherwise 'timestamp'; with neither, loading fails |
| `Dates.DayKey` | trader_analysis.py:75 | the day key of an epoch-millisecond instant is the day whose 86,400,000 ms span holds it, by floor division |
| `Dates.Midnight` | trader_analysis.py:95 | normalize() gives the midnight at or before the instant and less than a day before it |
| `Dates.KeyOf` | trader_analysis.py:95 | a NaT instant has a NaT key; any other instant gets the day whose span holds it |
| `Dates.DayKeyUnique` | trader_analysis.py:95 | only one day's span holds a given instant |
| `Dates.SameDayIffSameMidnight` | trader_analysis.py:95 | two instants share a day key exactly when they normalise to the same midnight |
| `Dates.MidnightIdempotent` | trader_analysis.py:95 | normalising a normalised instant changes nothing |
| `Dates.DayKeyMonotone` | trader_analysis.py:95 | a later instant never gets an earlier day |
| `Dates.DropMissingKey` | trader_analysis.py:99-100 | the rows left all have a key; each row with a key keeps its multiplicity and each row without one is gone |
| `Dates.DropMissingKeyAppend` | trader_analysis.py:99-100 | the drop works row by row, so it keeps row order |
| `Dates.DropMissingKeyNoop` | trader_analysis.py:99-100 | a table with no missing key is left unchanged |
| `Dates.KeyRange` | trader_analysis.py:103-104 | min() and max() of the key column: NaT exactly when there is no key, otherwise two keys of the table between which every key lies |
| `Dates.NoOverlapWarning` | trader_analysis.py:109 | the warning condition `t_max < s_min or t_min > s_max`; it never fires when either range is NaT |
| `Dates.NoOverlapWarningIff` | trader_analysis.py:109 | for two non-empty ranges, `t_max < s_min or t_min > s_max` holds exactly when no day lies in both ranges |
| `Dates.NoOverlapWarningMeansDisjoint` | trader_analysis.py:109-110 | when the warning fires, the two tables share no date key |
| `Merge.MatchesOf` | trader_analysis.py:121 | a trader row is paired with exactly the sentiment rows whose key equals its own; multiplicities are stated by MatchesOfCount |
| `Merge.Join` | trader_analysis.py:121 | every merged row is a trader row joined with a sentiment row of equal key, and every such pair appears; multiplicities are stated by JoinCount |
| `Merge.MatchesOfCount` | trader_analysis.py:121 | a trader row's matches hold each merged row exactly as many times as there are sentiment rows that give it |
| `Merge.JoinCount` | trader_analysis.py:121 | the merged table holds each merged row exactly as many times as there are (trader row, sentiment row) index pairs with equal keys that give it |
| `Merge.MatchesOfLength` | trader_analysis.py:121 | a trader row yields as many merged rows as there are sentiment rows with its key |
| `Merge.JoinLength` | trader_analysis.py:121-122 | the merged row count is the sum, over trader rows, of the number of sentiment rows with the same key |
| `Merge.JoinKeysInBoth` | trader_analysis.py:99-121 | after the drop, every merged row has a key, and that key occurs in both input tables |
| `Merge.MissingKeysPairUp` | trader_analysis.py:121 | without the drop, a trader row and a sentiment row that both lack a date are merged, as pandas matches missing keys with each other |
| `Merge.MergeStep` | trader_analysis.py:121-126 | the merge succeeds with the non-empty join, and takes the error exit exactly when the join is empty |
| `Merge.KeptByDrop` | trader_analysis.py:99-100 | a row that has a key survives the drop |
| `Merge.DropKeepsKeys` | trader_analysis.py:99-100 | the drop loses no date key |
| `Merge.SharedKeyGivesRow` | trader_analysis.py:121 | a key present in both tables gives at least one merged row |
| `Merge.EmptyMergeIffNoSharedKey` | trader_analysis.py:121-126 | after the drop, the analysis stops with the empty-merge error exactly when the tables share no date key |
| `Merge.NoOverlapEndsInEmptyMerge` | trader_analysis.py:109-126 | cleaned tables whose date ranges raise the no-overlap warning end in the empty-merge error |
| `Pnl.DeleteChar` | trader_analysis.py:134 | `replace(ch, '')` leaves no `ch`, is no longer than its input and adds no character |
| `Pnl.CleanText` | trader_analysis.py:134 | after both replacements no ',' or '$' is left, the text is no longer, and no character is added |
| `Pnl.CleanTextAppend` | trader_analysis.py:134 | cleaning works character by character, so the characters it keeps stay in their original order |
| `Pnl.CleanTextChar` | trader_analysis.py:134 | one character is kept exactly when it is neither ',' nor '$' |
| `Pnl.CleanTextCounts` | trader_analysis.py:134 | no ',' or '$' is left, and every other character keeps its number of occurrences |
| `Pnl.CleanTextFixed` | trader_analysis.py:134 | text without ',' or '$' is left unchanged |
| `Pnl.CleanTextIdempotent` | trader_analysis.py:134 | cleaning twice is the same as cleaning once |
| `Pnl.SeparatorIgnored` | trader_analysis.py:134 | a ',' or '$' anywhere in a cell does not change what the cell reads as |
| `Pnl.ParseUnsigned` | trader_analysis.py:134 | an unsigned decimal reads as a non-negative number |
| `Pnl.ParseNumber` | trader_analysis.py:134 | text without a digit never reads as a number, and only a leading '-' gives a negative one |
| `Pnl.CleanPnlText` | trader_analysis.py:134 | a cell is cleaned and then read; a cell without any digit is always missing |
| `Pnl.ParseIntText` | trader_analysis.py:134 | the decimal text of any integer, signed, reads back as that integer |
| `Pnl.CurrencyExample` | trader_analysis.py:134 | the cell "$1,234.50" cleans to 1234.5 |
| `Pnl.NotANumberExample` | trader_analysis.py:134 | the cell "N/A" cleans to missing |
| `Pnl.CleanPnlColumn` | trader_analysis.py:133-136 | a text column is cleaned and read cell by cell, a missing reading staying missing; a numeric column is taken as it is |
| `Charts.KeepPresent` | trader_analysis.py:172 | `[x for x in order if x in present]`: no longer than the order, holding exactly the zones of the order that are present, in the order's ranking |
| `Charts.AxisOrder` | trader_analysis.py:171-172 | the axis is a subsequence of Extreme Fear, Fear, Greed, Extreme Greed without repeats; it holds a zone exactly when that zone is a present group, so Unknown never appears |
| `Charts.AxisOrderAllPresent` | trader_analysis.py:171-172 | with every zone present the axis is the whole fixed order |
| `Charts.IsWin` | trader_analysis.py:218 | `pnl_clean > 0`: a missing PnL is never a win, and a present one wins exactly when it is strictly positive |
| `Charts.WinsIn` | trader_analysis.py:218 | a zone has no more wins than rows |
| `Charts.RowsInPositive` | trader_analysis.py:219 | a zone is a group exactly when some row falls in it |
| `Charts.WinRate` | trader_analysis.py:218-219 | the mean of `pnl > 0` over a zone's rows lies in [0,1]; it is 1 exactly when every row wins and 0 exactly when none does |
| `Charts.MeanPnl` | trader_analysis.py:170 | a zone's mean PnL is missing exactly when none of its rows has a PnL |
| `Charts.MeanPnlBounds` | trader_analysis.py:170 | a zone's mean PnL lies between any lower and upper bound of the PnLs in the zone |
| `Charts.PnlBars` | trader_analysis.py:170-172 | chart 1 has one bar per axis zone, in axis order, each as tall as the zone's mean PnL, or NaN when the mean is missing |
| `Charts.WinRateBars` | trader_analysis.py:218-221 | chart 3 has one bar per axis zone, in axis order, each as tall as the zone's win rate, which lies in [0,1] |
| `Charts.LabelOffset` | trader_analysis.py:33 | the label offset is (0, 8) exactly when the height is >= 0, otherwise (0, -20), NaN included |
| `Charts.AddBarLabels` | trader_analysis.py:30-40 | one annotation per patch, in patch order, at the bar's horizontal centre and height, with the offset chosen by the sign of the height |
| `Charts.WinRateLabelsAbove` | trader_analysis.py:33 | every label on the win-rate chart sits above its bar |
| `Analysis.LeveragePlotAsWritten` | trader_analysis.py:199-202 | as written, the leverage plot fails on the missing sentiment_value column exactly when no value column was found but a leverage column with some value was; it is skipped exactly when there is no leverage value, and drawn otherwise |
| `Analysis.LeveragePlotCrashExample` | trader_analysis.py:199-201 | one leverage value and no index-value column make the leverage plot fail |
| `Analysis.LeveragePlotShown` | trader_analysis.py:199-214 | the leverage plot never fails; it is drawn exactly when a value column and a leverage column with some value were both found; when a value column exists it agrees with the code as written |
| `Analysis.Observations` | trader_analysis.py:159 | each merged row is reduced to its cleaned PnL and its corrected zone (`Sentiment.GetBucket`, which puts a NaN in Unknown where line 159 as written gives Extreme Greed), in row order |
| `Analysis.LeverageValues` | trader_analysis.py:143 | the lev_clean column has one value per merged row, in row order |
| `Analysis.Analyze` | trader_analysis.py:117-239 | the analysis as corrected (GetBucket, LeveragePlotShown) fails exactly when the merge is empty. It reads PnL and leverage from the trader cells and buckets the sentiment cell's index value. Otherwise the PnL and win-rate charts are drawn exactly when both a PnL and a value column were found, and their bars are PnlBars and WinRateBars of the merged rows. The leverage outcome is LeveragePlotShown of the found columns and the lev_clean values, so it never fails. Every win-rate bar is a named zone with a height in [0,1] |
| `Analysis.PipelineEmptyMergeIff` | trader_analysis.py:99-126 | from the loaded tables, the run ends in the empty-merge error exactly when the two tables share no date key |

## Left out

- File discovery and CSV reading, with the fallback paths (trader_analysis.py:49-64), are I/O. The tables come in as sequences of rows.
- String date parsing with `pd.to_datetime(..., dayfirst=True, format='mixed', errors='coerce')` (trader_analysis.py:78, 86, 89) is pandas' heuristic parser. Its result is an opaque `Option<int>` instant; only the epoch-millisecond case (trader_analysis.py:75) is modelled as arithmetic.
- The `is_numeric_dtype` test on 'timestamp' and the `dtype == object` test on the PnL column are pandas type inference. Each enters as a parameter: a boolean for the first, the `PnlColumn` variant for the second.
- Plotting, styling, palettes, `savefig` and creating `images/` (trader_analysis.py:165-239) are drawing and filesystem work. The model stops at the bars and labels that would be drawn.
- Console output and diagnostics are not modelled, apart from the condition of the no-overlap warning.
- Means are computed on `real`, not IEEE doubles, and `NaN` heights are shown as `Float.NaN`.
- `Pnl.ParseNumber`: pd.to_numeric is modelled only for an optional sign followed by digits with at most one '.'. It does not model exponents, surrounding whitespace, or the words "inf" and "nan". Any of those reads as missing here; "nan" is missing in pandas too.
- `Analysis.Analyze`: the leverage values come in already coerced by pd.to_numeric (trader_analysis.py:143). Its column list is the merged table's, and the `_x`/`_y` suffixes pandas adds to clashing column names are not modelled.
- `Merge.Join`: pandas may order the merged rows differently. The model fixes trader order, then sentiment order, and only order-independent facts are proved about it.
- `Columns.Lower`: only ASCII letters are lower-cased. Python's str.lower() also lowers non-ASCII letters, and for some, such as 'İ', it changes the length.
- `Columns.StripSpec`: only the ASCII whitespace that str.strip() removes is modelled (space, tab, line feed, vertical tab, form feed, carriage return, 0x1C-0x1F). Non-ASCII whitespace such as U+0085, U+00A0 and U+3000 is kept by the model but stripped by Python.
- `Dates.DayKey`: any integer of milliseconds is accepted. `pd.to_datetime(..., unit='ms')` at trader_analysis.py:75 has no `errors='coerce'`, so it raises OutOfBoundsDatetime outside roughly the years 1677-2262 and aborts the run. That abort is not modelled.
- `Analysis.Analyze` models the analysis with both corrections from "Findings" applied. On a NaN index value the code as written puts the row in Extreme Greed, which changes that zone's bars; `Analyze` buckets the row as Unknown, so it is on no axis. When a leverage value exists but no value column was found, the code as written raises KeyError at trader_analysis.py:201. The run then stops with an uncaught exception and never prints the success message at trader_analysis.py:241. Plots 1 and 3 are skipped in that case by the code and by `Analyze` alike, because without a value column no sentiment_bucket column exists (trader_analysis.py:149-159, 169, 217). For that input `Analyze` differs from the code only in the leverage outcome, Skipped instead of the error. The as-written behaviour is stated by `Sentiment.GetBucketAsWritten`, `Sentiment.BucketColumn` and `Analysis.LeveragePlotAsWritten`.
- `Analysis.Analyze`: which column each search finds decides only whether a chart is drawn, not whose cells are read. The model assumes that the PnL and leverage columns found are trader columns and that the value column found is the sentiment table's index value column. It reads the trader cells for PnL and leverage and the sentiment cell for the bucketed value. pandas lists the trader table's columns first in the merged table (trader_analysis.py:131, 141, 148), so a trader column whose name contains "value" and not "size", such as "trade value", is found first, and the code buckets its values instead (trader_analysis.py:150, 159). The model cannot represent that case.
- `Sentiment.GetBucket` takes the result of `float(val)` as input. Python's rules for which values convert are not modelled.

## Findings

| source | as written | input that shows it | evidently intended | confidence | as-written member | corrected member |
|---|---|---|---|---|---|---|
| trader_analysis.py:151-158 | `float(nan)` does not raise, and every `<` against NaN is false, so a missing index value falls through to 'Extreme Greed' | a merged row whose index value cell is empty (NaN) | a missing value is bucketed 'Unknown' | high; not executed | `Sentiment.MissingValueIsExtremeGreedAsWritten` | `Sentiment.GetBucket` |
| trader_analysis.py:199-201 | the leverage guard checks only `lev_clean`, but the scatter reads `sentiment_value`, which is assigned only when a value column was found, so pandas raises KeyError | merged columns with 'leverage' and at least one leverage value, but no column containing "value" | skip the leverage plot when there is no index value to plot against | high; not executed | `Analysis.LeveragePlotCrashExample` | `Analysis.LeveragePlotShown` |
