# Shot chart coordinates and made/missed split

A Dafny model of the computation inside `generate_shot_chart` of the basketball
analytics viewer (`webpokus.py`). For one player the function reads a shot table with
the columns `x_coord`, `y_coord` and `shot_result`, stops with a warning when the
table is empty, rewrites the coordinates in place from court metres onto the pixel
extent `[0, 280] x [0, 150]` of the court picture, and splits the rewritten rows into
the made shots and the missed shots, which it draws as two scatter layers.

The modules follow that flow:

- `CourtScale` (`court_scale.dfy`): the two axis conversions, `x / 28 * 280` and the
  flipped `150 - y / 15 * 150`, their inverses, their bounds and their monotonicity.
  28 m by 15 m is the playing court of Article 2.1 of the FIBA Official Basketball
  Rules.
- `ShotTable` (`shot_table.dfy`): the row datatype `Shot(x, y, result)`, the
  specification `RescaleAll` of the rewritten table, and `RescaleInPlace`, which
  rewrites an `array<Shot>` in place, first the whole x column and then the whole y
  column, as the two column assignments of the source do.
- `ShotFilter` (`shot_filter.dfy`): the selection by exact string equality on the
  result column, the rows it drops, and the partition and order lemmas.
- `ShotChart` (`shot_chart.dfy`): `GenerateShotChart`, the early exit, the rewrite and
  the split put together, with lemmas about the two plotted layers.

Coordinates are Dafny `real`: the float columns of the table are idealised as exact
reals, so the scaling has no rounding and the inverse recovers a position exactly.
The database query is replaced by its result, the input sequence `rows`; the
warning on an empty table is the `NoShotData` chart.

The scale factors 28, 15, 280 and 150 are constants in the code. The result column
is compared as a raw string, so any value other than "made" or "missed" is silently
not plotted. An empty table gives a warning and an early return.

## Model

| member | source | states |
|---|---|---|
| CourtScale.ToImageX | webpokus.py:25 | the pixel column is ten times the raw x; a raw x lies in [0, 28] exactly when its column lies in [0, 280] |
| CourtScale.ToImageY | webpokus.py:26 | the pixel row is 150 less ten times the raw y; a raw y lies in [0, 15] exactly when its row lies in [0, 150]; y = 0 goes to 150 and y = 15 to 0 |
| CourtScale.CourtX | webpokus.py:25 | the inverse of the x conversion: its value is the raw x whose pixel column is the given one |
| CourtScale.CourtY | webpokus.py:26 | the inverse of the flipped y conversion: its value is the raw y whose pixel row is the given one |
| CourtScale.ToImageXIncreasing | webpokus.py:25 | the x conversion is strictly increasing, both ways |
| CourtScale.ToImageYDecreasing | webpokus.py:26 | the y conversion is strictly decreasing, both ways: the vertical axis is flipped |
| CourtScale.CourtRoundTrip | webpokus.py:25-26 | converting a raw position and converting back recovers it exactly |
| ShotTable.Rescale | webpokus.py:25-26 | a rewritten row keeps its result, has x times ten and y flipped, and is on the image exactly when the raw row is on the court |
| ShotTable.Unrescale | webpokus.py:25-26 | taking a row from pixels back to metres gives the row that rewrites to it |
| ShotTable.RescaleRoundTrip | webpokus.py:25-26 | rewriting a row and taking it back recovers every field of the row |
| ShotTable.RescaleAll | webpokus.py:25-26 | the rewritten table has the same row count and order, row i being row i rewritten |
| ShotTable.RescaleAllOnImage | webpokus.py:25-36 | all rows are on the court exactly when all rewritten rows are inside the image extent |
| ShotTable.RescaleInPlace | webpokus.py:25-26 | the in-place rewrite of the x column then the y column leaves the array equal to the rewritten table: same length and order, results untouched, only the coordinates changed |
| ShotFilter.WithResult | webpokus.py:39-40 | the selection is no longer than the table, every selected row carries the wanted result, and a row is selected exactly when it is in the table with that result |
| ShotFilter.WithResultMultiplicity | webpokus.py:39-40 | a row with the wanted result is selected as many times as it occurs in the table, any other row not at all |
| ShotFilter.Unplotted | webpokus.py:39-40 | the dropped rows are exactly the rows whose result is neither "made" nor "missed" |
| ShotFilter.WithResultIsSubsequence | webpokus.py:39-40 | the selection is a subsequence of the table: relative order is kept |
| ShotFilter.WithResultAppend | webpokus.py:39-40 | selecting from two tables in sequence gives the two selections in sequence |
| ShotFilter.MadeMissedPartition | webpokus.py:39-40 | made, missed and dropped rows together are the table as a multiset, with multiplicities |
| ShotFilter.MadeMissedCounts | webpokus.py:39-40 | the made and missed selections share no row, and their lengths add up to the table length less the dropped rows, so never more than the table |
| ShotFilter.AllPlottedIff | webpokus.py:39-40 | every row is plotted exactly when every result is "made" or "missed" |
| ShotFilter.WithResultRescaleAll | webpokus.py:25-40 | selecting after the rewrite gives the rewritten selection, since the rewrite leaves results alone |
| ShotFilter.CaseSensitiveExample | webpokus.py:39-40 | rows with result "Made" or "1" are in neither selection, only among the dropped rows |
| ShotChart.GenerateShotChart | webpokus.py:17-40 | an empty table yields the no-data outcome and nothing else does; otherwise the two layers are the made and the missed rows of the rewritten table |
| ShotChart.PlottedInsideImage | webpokus.py:25-36 | when every shot was taken on the court, every plotted point of a layer lies inside the image extent |

## Left out

- The check that the court image file exists and its error (webpokus.py:4-6): file system access.
- The SQLite connection, the query and its read into a data frame (webpokus.py:8-15): database access; the query result is the input `rows`.
- The warning text (webpokus.py:18), the debug display of the first rows (webpokus.py:29) and the display of the figure (webpokus.py:57): user interface output; the warning is the `NoShotData` outcome.
- Loading the court image, creating the figure, drawing the background, the scatter styling and hiding the axes (webpokus.py:22, 32-54): rendering through a plotting library; the model stops at the two point sequences handed to the scatter calls.
- IEEE floating-point rounding, NaN and infinities in the coordinate columns: coordinates are exact reals.
- A NULL value in the result column is not modelled as its own value: results are strings, and a NULL, like any string other than "made" and "missed", would be in neither layer.
- The data frame rewrites whole columns at once; the model rewrites row records in an array, one column pass after the other, which leaves the same table.
