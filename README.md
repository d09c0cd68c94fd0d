# Seasonal sales rankings of the clothing-store dashboard

This project is a Dafny model of the computing core of `app.py`, a Streamlit dashboard about a clothing
store's sales in Italy. The model covers these parts:

- **Season windows.** Four fixed seasons, each with a name and two `YYYY-MM-DD` bounds, are turned into
  inclusive windows of days (`Seasons`, using the calendar and ISO date format in `Dates`).
- **Seasonal rankings.** Two loops fill the dictionaries `results_qty` and `results_total`. For each
  season, a loop keeps the rows whose day falls in the window, groups them by item, sums units (or
  revenue), sorts descending and keeps the first ten. The ranking is specified independently of tie
  order (`Ranking.IsTopN`), because the table library's sort is not stable. `Ranking.TopN` is one
  admissible implementation and is proved to meet it.
- **Subplot placement.** The i-th season's bars go to grid cell `((i-1)//2+1, (i-1)%2+1)` of a
  two-by-two figure (`Layout`). The figure is a class whose trace list the placement loops extend.
- **Overall winners and the guessing widget.** The winner is the clothing name of the (item, cloth) group
  with the most units, or with the most revenue. A guess is right when it equals that name (`Winners`).
- **Data-preparation listing.** The dashboard shows this cleaning code to the reader but does not run it
  itself. The model includes it explicitly:
  - revenue is quantity times unit price;
  - per-(date, item) sums;
  - the global top ten by units;
  - the membership filter;
  - the inner join with the temperature series on the date;
  - the positional item-to-name dictionary built with `dict(zip(...))` and applied with `.map`
    (`Preparation`).

The prepared table is a sequence of `Records.Row` values. A Python dictionary that the loops fill is an
insertion-ordered sequence of (key, value) pairs (`Dicts`). Grid arithmetic uses Dafny's `/` and `%`.
With the positive divisor 2 they agree with Python's `//` and `%`.

## Model

| member | source | states |
|---|---|---|
| Dates.NextDay | app.py:192 | The next day is a valid date after the given one, and every later valid date is on or after it; so no day lies between a window's end and the next window's start |
| Dates.DaysInMonth | app.py:192 | Month lengths are 28 to 31 days, and only February is shorter than 30 |
| Dates.NumberOfDigits | app.py:197 | Reading back a zero-padded decimal rendering gives the number |
| Dates.DigitsOfNumber | app.py:197 | Re-rendering a digit string's value at its own width gives the string back |
| Dates.ParseFormat | app.py:197 | Parsing the `YYYY-MM-DD` rendering of a valid date gives that date back |
| Dates.FormatParse | app.py:197 | A string that parses as a `YYYY-MM-DD` date is exactly the rendering of the parsed date |
| Dates.ParseIso | app.py:197 | A successful parse yields a valid date with a four-digit year, from a ten-character string with dashes at positions 4 and 7 |
| Seasons.ParsesTo | app.py:197 | A string that renders a valid date parses back to that date |
| Seasons.PeriodParsesAt | app.py:192-197 | Each of the four seasons' bound strings, as the comparison with the date column converts it, parses to the listed window of days |
| Seasons.LabelsDistinct | app.py:192-193 | The four labels built from name and bounds are pairwise different, so no season overwrites another's entry |
| Seasons.WindowsContiguous | app.py:192 | The windows consist of valid days, none is empty, and each starts the day after the previous one ends |
| Seasons.SeasonsPartition | app.py:192 | Every day from 2017-03-15 to 2019-03-30 lies in exactly one season window |
| Seasons.RowsIn | app.py:197 | The window filter keeps every row whose day is between the bounds, both inclusive, with its multiplicity, and drops every other row |
| Seasons.WindowGroupSum | app.py:197-198 | Summing an item's group of the (item, measure) observations of the filtered rows, one per row, gives the item's total over the rows of the window |
| Seasons.WindowGroups | app.py:197-198 | An item has a group in the filtered table exactly when some row of that item falls in the window |
| Seasons.SeasonTopMeaning | app.py:198 | A correct top-ten of the filtered rows is a correct season ranking stated over the whole table: at most ten items, each once, only items sold in the window, each with its exact window sum, sorted descending, and an item left out only when ten are listed and it sold no more than the tenth |
| Seasons.EmptySeason | app.py:197-198 | A season ranking is empty exactly when no row falls in the window |
| Seasons.SeasonRankingCorrect | app.py:197-198 | The filter, group, sort and truncate chain applied to a window yields a correct season ranking for it |
| Seasons.LabelFresh | app.py:199-200 | The label of each season differs from the labels filed before it, so filing it adds a new key |
| Seasons.FiledKeys | app.py:195-200 | After the first n seasons the dictionary's keys are the first n labels, in order |
| Seasons.FiledRankings | app.py:196-200 | After the first n seasons the dictionary has n entries, and entry k holds the ranking of window k |
| Seasons.FileStep | app.py:196-200 | Each season's bounds parse, and filing its ranking under its label extends the dictionary by exactly that entry |
| Seasons.SeasonalTop | app.py:195-207 | After the loop, the dictionary holds the four labels in order, and each label's ranking is a correct season ranking for its window |
| Seasons.SeasonalRankings | app.py:195-207 | The units dictionary and the revenue dictionary both hold exactly the four season labels, in season order, and each ranking is correct for its window and its own measure |
| Ranking.Keys | app.py:198 | The group keys are listed once each, and a key is listed exactly when some observation carries it |
| Ranking.Groups | app.py:198 | The grouped table has one entry per key, and an entry is present exactly when its key occurs and it carries the key's exact sum |
| Ranking.InsertPermutation | app.py:198 | Inserting an entry adds exactly that entry and loses none |
| Ranking.InsertCorrect | app.py:198 | Inserting into a descending list keeps it descending and adds exactly the inserted entry |
| Ranking.SortDescCorrect | app.py:198 | The descending sort returns a permutation of its input, sorted non-increasing by sum |
| Ranking.DistinctUnderPermutation | app.py:198 | Reordering a grouped table keeps its keys distinct |
| Ranking.TakeOfSortedGroups | app.py:198 | Keeping the first n entries (all of them when there are fewer) of any descending arrangement of the grouped table is a correct top-n, whatever order it gives to ties |
| Ranking.LeftOutBelowCut | app.py:198 | A group missing from the truncated descending list lies past the cut: the list is full and the group's sum is no greater than the last one kept |
| Ranking.TopNCorrect | app.py:198 | The group, sort and truncate chain meets the top-n specification: bounded length, distinct keys, exact sums, descending, and nothing larger left out |
| Dicts.Put | app.py:200 | Assigning a key makes it map to the new value and leaves other keys alone; a new key is appended at the end of the iteration order, and an existing key keeps its place |
| Layout.GridCell | app.py:221-222 | The column is 1 or 2, the index is recovered as 2·(row−1)+col, and exactly the indices 1 to 4 land in rows 1 and 2 |
| Layout.GridCellsDistinct | app.py:221-222 | Two different indices are placed in two different cells |
| Layout.Figure.constructor | app.py:209-213 | A new two-by-two figure has no traces |
| Layout.Figure.AddTrace | app.py:223 | Adding a trace inside the grid appends it with its cell |
| Layout.AddSeasonBars | app.py:215-223 | The loop appends one trace per dictionary entry, in insertion order, named after the entry's label and listing the ranked items on x and their sums on y in ranking order, with the i-th in cell ((i−1)//2+1, (i−1)%2+1), and no two of them share a cell |
| Layout.SeasonFigure | app.py:209-233 | The figure holds the four unit traces followed by the four revenue traces, each in its season's cell |
| Winners.ClothGroups | app.py:368-369 | The (item, cloth) group-by has a group exactly when some row carries that pair, and the group's sum is the pair's total; rows without a clothing name form no group |
| Winners.FirstOfRankingIsTop | app.py:368-369 | The first row of a correct one-row ranking is a group that beats or ties every other group |
| Winners.BestIsTop | app.py:368-369 | There is a winner exactly when some row has a clothing name, and the winner's name belongs to a group that beats or ties every other group |
| Winners.OneRightAnswer | app.py:379-389 | When some row has a clothing name there is exactly one right answer, even with tied top groups: the name of a top group, and every choice is judged by equality with it |
| Winners.CheckGuess | app.py:379 | No verdict when there is no winner; a right guess names a top group; and when one group sold strictly the most, the guess is right exactly when it equals that group's name |
| Preparation.Normalize | app.py:93-99 | Each sales row keeps its date, item and quantity, and its revenue is quantity times unit price |
| Preparation.DayGroups | app.py:102 | A (date, item) group exists exactly when a raw row has that date and item; its unit sum is that pair's units and its revenue sum is the pair's quantity-times-price total |
| Preparation.DayRowFor | app.py:102 | Every (date, item) pair sold in the raw file has a per-day row |
| Preparation.DayRowSums | app.py:102 | Every per-day row's pair was sold, and the row carries that pair's units and revenue from the raw file |
| Preparation.DailySumsCorrect | app.py:102 | The per-day table has one row per (date, item) pair present in the raw file, each pair once, with that pair's exact units and revenue |
| Preparation.ItemGroups | app.py:103 | The item group-by over the sales rows has a group exactly for the items some raw row records, and each group's sum is that item's units over the whole raw file |
| Preparation.TopTenOfRaw | app.py:103 | A correct top ten, read against the raw file: at most ten distinct items, each sold and carrying its total units, descending, and a sold item left out only when ten are listed and it sold no more than the tenth |
| Preparation.TopItems | app.py:103 | The computed list is one correct top ten of items by units sold, with ties in one admissible order |
| Preparation.KeptRow | app.py:104 | A per-day row of a listed item survives the filter |
| Preparation.KeptRowFrom | app.py:104 | A row that survives the filter is a per-day row of a listed item |
| Preparation.KeepItems | app.py:104 | The membership filter keeps every per-day row whose item is in the list, with its multiplicity, and drops every other row |
| Preparation.Matches | app.py:109 | One per-day row joins with exactly the temperature rows of its day, yielding as many rows as its day has temperature rows |
| Preparation.InnerJoin | app.py:109 | The join holds exactly the combinations of a per-day row and a temperature row with the same date |
| Preparation.NoMatches | app.py:109 | A row whose day has no temperature row drops out of the join |
| Preparation.MatchesAtMostOne | app.py:109 | With one temperature row per day, a per-day row yields at most one joined row |
| Preparation.MatchesExactlyOne | app.py:109 | With one temperature row per day, a per-day row whose day has a temperature row yields exactly one joined row, carrying that row's temperature |
| Preparation.JoinKeepsMultiplicity | app.py:109 | With one temperature row per day, each per-day row of a day with a temperature row appears in the join, with that day's temperature, exactly as many times as in the left table |
| Preparation.JoinedOnce | app.py:102-109 | With one temperature row per day, the per-day row of a listed item on a day with a temperature row appears in the join exactly once |
| Preparation.JoinedPairsDistinct | app.py:102-109 | With one temperature row per day, no two rows of the joined table share a (date, item) pair |
| Preparation.JoinAtMostOnePerRow | app.py:109 | With one temperature row per day, the join is no longer than its left table |
| Preparation.ZipDictKeys | app.py:115 | The dictionary built from two zipped lists has exactly the keys within the shorter list's length |
| Preparation.ZipDictCorrect | app.py:115 | In that dictionary, a key that does not repeat later maps to the value at its own position, so the last pair for a key wins |
| Preparation.NamesByPosition | app.py:113-116 | With distinct ranked items and no more than ten of them, the i-th ranked item gets the i-th name |
| Preparation.PreparedFrom | app.py:104-116 | For any correct top ten, every prepared row comes from a kept per-day row and a temperature row of the same day, with the item's name attached |
| Preparation.PrepareSound | app.py:93-109 | For any correct top ten, every prepared row is a top-ten item on a day with a temperature row; it carries that day's temperature and the raw file's units and revenue for that pair |
| Preparation.NamedByRank | app.py:113-116 | A ranked item, among distinct items no more numerous than the names, maps to the name at its own rank |
| Preparation.PrepareNamed | app.py:103-116 | For any correct top ten, every prepared row's item is ranked, and the row carries the name at the item's rank, so no prepared row lacks a name |
| Preparation.PrepareComplete | app.py:102-109 | For any correct top ten, every top-ten item sold on a day that has a temperature row yields a prepared row for that day with that temperature |

## Left out

- Page setup, CSS, text, expanders, select boxes and buttons: this is user interface only. Only the equality check behind the two guess buttons is modelled.
- Chart styling, titles, colours and layout updates, and every chart other than the seasonal grid: these are rendering calls into the charting library. `Layout.Figure` keeps only the traces and their cells.
- Reading and writing CSV files: this is I/O. The prepared table, the raw sales file and the temperature series are parameters.
- Datetime parsing by the table library: only the `YYYY-MM-DD` form the season bounds use is modelled (`Dates.ParseIso`). Dates are proleptic Gregorian with a year from 0 to 9999 in the format functions; the library's narrower timestamp range is not modelled.
- The type conversions with `astype` (lines 88-90 and 96): columns are taken as already holding integers and text. The model does not capture a failing conversion or a truncated float.
- The drop of the `store`, `item_category` and `Unnamed: 6` columns (line 99) is modelled by `Preparation.Sale` not having those fields. The error raised when a dropped column is absent is not modelled. The same holds for the `Country` and `Date` drop after the join (line 110).
- The sort by date (lines 85 and 102) is not modelled. The season rankings and the winners are stated up to tie order, so their contracts do not depend on row order. The functions that compute one admissible ranking (`Ranking.TopN`, `Preparation.TopItems`, `Winners.Best`) do break ties by row order. That is why `Preparation.Prepare` and the lemmas about it take any correct top ten as a parameter. Row order of the prepared table is not modelled beyond what the multiset and membership contracts say.
- Tie order among equal sums: the library's default sort is not stable. `Ranking.IsTopN` and `Seasons.IsSeasonTop` leave the order of equal sums open, and `Winners.CheckGuess` names which group's cloth is the answer only when the top group is unique. Even with ties there is exactly one right answer (`Winners.OneRightAnswer`).
- Winners.BestIsTop: when no row has a clothing name, the source fails looking up row 0 of an empty table. The model returns no winner instead of raising.
- The temperature average scaled by 100, the correlation figure quoted in the text, and the comparison of hard-coded item codes: these are floating-point work and prose over one dataset.
- The second computation of the winners (lines 371-373) repeats lines 367-369 and changes nothing. The list of distinct clothing names offered by the select boxes (line 367) is not modelled.
- Temperatures are carried as `real` values and never computed with.
- Integer width: quantities, revenues and group sums are unbounded integers. The table library stores them as 64-bit integers that wrap silently on overflow: the product quantity × unit price (line 93) and the group sums (lines 102, 103, 198, 205 and 368-369). The model does not capture that wrap-around, so its sums agree with the source only while every value stays within the 64-bit range.
