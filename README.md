# Energy stock tracker: the transform and the loader

A Dafny model of the ETL core of the Energy Stock Tracker. The transform
(`etl/transform.py`) turns raw daily OHLCV rows for energy-sector symbols
into a table with company metadata, percent change, 7- and 30-row moving
averages, 30-row volatility, a trend label and the oil price of the day,
rounded to two decimals. The loader (`etl/load.py`) uploads that table to a
shared store in batches of 100 upserts keyed by (symbol, date), and two
readers of the store build the symbol → (name, sector) lookup and pick the
day's top gainers and losers.

Modules, in dependency order:

- `Wrappers` (wrappers.dfy): `Option` and `Min`.
- `Keys` (keys.dfy): calendar dates, the string and date orders used by the sort, and `str(date)` as ISO text with its parser.
- `Rows` (rows.dfy): the raw row, the frame row, the columns, and the (symbol, date) key order.
- `Stats` (stats.dfy): sums, means, windows, sample variance and percent change over a symbol's sequence of closes, plus a running-sum method for the rolling mean.
- `Rounding` (rounding.dfy): `round(2)` as round-half-to-even on exact reals.
- `Clean` (clean.dfy): `clean_data`. Deduplication keeping the last row, the close filter, the volume fill and the sort.
- `Features` (features.dfy): each statistic at row `i` as a function of the closes of that row's symbol up to it, plus the company lookup, the oil join and the forward fill.
- `Transform` (transform.dfy):
  - each stage as a function of the rows before it;
  - `class Frame`, whose methods apply the stages to the frame in place, and the rounding loop;
  - `TransformAll`, with lemmas stating what every output row holds.
- `Records` (records.dfy): `to_dict('records')` and the loop that turns dates into text.
- `Load` (load.dfy): the upsert store (`class Store`), the batches and their accounting, and `LoadStockData`.
- `Queries` (queries.dfy): `get_companies_from_db` and the selection of `get_top_gainers_losers`.

How the source is represented:

- Floats are exact `real`s.
- pandas NaN/None is `Option.None`.
- A missing volume becomes 0.
- `sqrt` is a parameter of type `SqrtFn`: any function with sqrt(0) = 0 that is non-negative on non-negative input.
- The store is an abstract map. Each upsert succeeds or raises at the store's discretion.

## Model

| member | source | states |
|---|---|---|
| Clean.DropDuplicatesSpec | etl/transform.py:24 | after `drop_duplicates(keep='last')` the keys are those of the input, each once, and each kept row is the last input row with its key |
| Clean.FilterValidCloseSpec | etl/transform.py:27 | a row survives `close_price > 0` iff its close is present and positive; unique keys stay unique |
| Clean.SortByKeySpec | etl/transform.py:33 | the sort by (symbol, date) is a permutation, is sorted, and keeps keys unique |
| Clean.CleanDataSound | etl/transform.py:24-33 | every cleaned row is the last input row with its key, that row's close is present and positive, and missing volume reads 0 |
| Clean.CleanDataComplete | etl/transform.py:24-33 | a key whose last input row has a valid close appears in the cleaned frame |
| Clean.CleanDataKeys | etl/transform.py:24-27 | a key survives cleaning iff its last duplicate has a valid close (an earlier valid duplicate does not save it) |
| Clean.CleanDataPositive | etl/transform.py:27 | every cleaned close is > 0 |
| Clean.CleanDataSorted | etl/transform.py:24-33 | the cleaned frame is strictly ascending by (symbol, date), so one row per key |
| Clean.CleanDataDependsOnLast | etl/transform.py:24-33 | the cleaned frame depends only on the last row of each key, not on input order |
| Clean.CleanDataOrderInvariant | etl/transform.py:24-33 | two duplicate-free inputs holding the same rows in any order clean to the same frame |
| Features.FirstRowFeatures | etl/transform.py:53-56 | a symbol's first row has pct_change 0, trend flat, ma_7 = ma_30 = close, and volatility 0 |
| Features.NextRowChange | etl/transform.py:53 | pct_change is (c[i] − c[j]) / c[j] × 100 against the previous row j of the same symbol; the trend is up, down or flat exactly as the close rose, fell or stayed |
| Features.HistoryOfNext | etl/transform.py:53 | a symbol's history at row i is its history at the previous row of that symbol plus c[i]; rows of other symbols do not enter |
| Features.HistoryOfFirst | etl/transform.py:53 | a symbol's first row has history [close] |
| Features.MovingAverageInWindow | etl/transform.py:75-82 | each moving average lies between the min and max of its window of the last min(k+1, w) closes, and is positive when the closes are |
| Features.VolatilityNonNegative | etl/transform.py:101-106 | volatility is never negative |
| Transform.CompanyInfoAt | etl/transform.py:145-148 | after `add_company_info` each row carries its symbol's (name, sector) when the lookup lists it and ("Unknown", "Unknown") otherwise; the row count and all other columns are unchanged |
| Features.FFillAt | etl/transform.py:176 | the forward-filled value at i is the last known value at or above i |
| Features.LastKnownNone | etl/transform.py:176 | nothing is known above a position iff every value up to it is missing |
| Features.FFillKeepsKnown | etl/transform.py:176 | a known value is never overwritten by the fill |
| Features.FFillIdempotent | etl/transform.py:176 | filling twice equals filling once |
| Stats.RollingMeans | etl/transform.py:75-82 | a running-sum loop produces, at each k, the mean of the last min(k+1, w) closes |
| Stats.MeanBetweenMinMax | etl/transform.py:75-82 | a mean lies between the minimum and maximum of its values |
| Stats.VarianceNonNegative | etl/transform.py:101-102 | the sample variance (n − 1 divisor; 0 for one value) is never negative |
| Stats.VarianceOfConstant | etl/transform.py:101-106 | a window of equal closes has variance 0 |
| Stats.PctChangeSign | etl/transform.py:125 | with a positive previous close, the percent change is positive or negative iff the close rose or fell |
| Rounding.Round2Spec | etl/transform.py:224 | `round(2)` yields a whole number of cents within half a cent of its input |
| Rounding.Round2Idempotent | etl/transform.py:222-224 | rounding a rounded value changes nothing |
| Rounding.Round2Monotone | etl/transform.py:224 | rounding preserves order |
| Rounding.Round2NonNegative | etl/transform.py:224 | rounding keeps non-negative values non-negative and 0 at 0 |
| Transform.OilColumnAt | etl/transform.py:173-176 | with oil data, row i's oil price is the last price listed for the date of row i or of a row above it, of any symbol |
| Transform.OilColumnMissing | etl/transform.py:173-176 | that price is missing iff no date down to row i is listed with a price |
| Transform.RoundedRowIdempotent | etl/transform.py:222-224 | rounding the numeric columns twice equals rounding them once |
| Transform.RoundedKeepsOrder | etl/transform.py:222-224 | rounding keeps the (symbol, date) order |
| Transform.StagesAt | etl/transform.py:202-217 | after the stages, row i holds the company info, pct_change, both averages, volatility and trend computed from the cleaned closes, and the oil column value |
| Transform.TransformRow | etl/transform.py:198-224 | row i of `transform_all` column by column: key, volume and company unchanged; prices and every statistic rounded only after being computed from unrounded closes; trend from the unrounded change |
| Transform.TransformSorted | etl/transform.py:198-224 | the output is strictly ascending by (symbol, date) and no longer than the input |
| Transform.TransformOrderInvariant | etl/transform.py:198-224 | duplicate-free inputs with the same rows in any order give the same table |
| Transform.TransformFirstRow | etl/transform.py:53-125 | in the output, a symbol's first row has pct_change 0, trend flat, both averages equal to the rounded close, and volatility 0 |
| Transform.TransformTrend | etl/transform.py:125 | in the output, the trend is up, down or flat exactly as the close rose, fell or stayed since the symbol's previous row |
| Transform.TransformNonNegative | etl/transform.py:75-106 | output volatility, moving averages and close are never negative |
| Transform.TransformOil | etl/transform.py:167-176 | without oil data every oil price is None; otherwise it is the rounded last known price at or above the row, missing iff no date so far is listed |
| Transform.TransformCents | etl/transform.py:220-224 | every rounded output column holds whole cents |
| Transform.Frame.Cleaned | etl/transform.py:199 | the frame holds the cleaned rows and the base columns |
| Transform.Frame.AddCompanyInfo | etl/transform.py:145-148 | writes company_name and sector into every row in place; nothing else changes |
| Transform.Frame.CalculatePercentChange | etl/transform.py:53-56 | writes pct_change in place; nothing else changes |
| Transform.Frame.CalculateMovingAverages | etl/transform.py:75-82 | writes ma_7 and ma_30 in place; nothing else changes |
| Transform.Frame.CalculateVolatility | etl/transform.py:101-106 | writes volatility in place; nothing else changes |
| Transform.Frame.AddTrendLabel | etl/transform.py:125 | writes trend from the current pct_change column; nothing else changes |
| Transform.Frame.MergeOilPrice | etl/transform.py:167-176 | writes the joined and forward-filled oil price, or None throughout when there is no oil data |
| Transform.Frame.RoundNumeric | etl/transform.py:220-224 | the loop rounds exactly the numeric columns the frame holds |
| Transform.TransformAll | etl/transform.py:198-224 | the frame after all stages and rounding holds every column and exactly the specified rows |
| Keys.DateTextRoundTrip | etl/load.py:84 | the ISO text of a date parses back to that date |
| Keys.DateTextInjective | etl/load.py:84 | different dates give different texts, so the upload key stays unique |
| Records.ToRecords | etl/load.py:79 | one record per row, each holding exactly the frame's columns, each column holding that row's value |
| Records.WithDateText | etl/load.py:83-84 | only the date field changes, to its text form; the keys and every other field are kept |
| Records.DateTextKeepsDate | etl/load.py:83-84 | the converted date field is text that parses back to the original date |
| Records.StringifyDates | etl/load.py:82-84 | the loop converts the date of every record and nothing else |
| Records.PreparedRecord | etl/load.py:79-84 | each uploaded record holds the row's value in every column, with the date as text |
| Load.UpsertedAt | etl/load.py:99 | after an upsert, each key of the batch holds the batch's last record with that key; other keys are untouched |
| Load.UpsertedOverlay | etl/load.py:99 | an upsert overlays the batch's records on the table |
| Load.UpsertedIdempotent | etl/load.py:99 | upserting the same records again changes nothing |
| Load.UpsertedAppend | etl/load.py:93-99 | upserting two batches in turn equals upserting their concatenation |
| Load.Store.Upsert | etl/load.py:97-105 | a successful call applies the whole batch; a failed one leaves the table unchanged; either way the attempt is recorded |
| Load.BatchesPartition | etl/load.py:90-94 | the batches concatenate to the records, number ceil(n/100), are non-empty, and all but the last hold 100 |
| Load.BatchAt | etl/load.py:93-94 | batch k is records[100k : 100k + 100] |
| Load.CountsAddUp | etl/load.py:100-107 | saved plus failed equals the number of records |
| Load.AllSucceeded | etl/load.py:93-100 | when every batch succeeds, all records are saved and the table is the records upserted in order |
| Load.NothingSaved | etl/load.py:100-108 | the saved count is 0 iff every batch failed, and then the table is unchanged |
| Load.ReloadIdempotent | etl/load.py:89-99 | loading the same records twice, all batches succeeding, leaves the table as the first load did |
| Load.ProgressStep | etl/load.py:93-105 | one more batch, accepted or refused, advances the table, attempts and counters by that batch alone |
| Load.ProgressDone | etl/load.py:86-107 | after the last batch the counters are those of all batches, and inserted + failed = number of records |
| Load.LoadStockData | etl/load.py:74-108 | every batch is attempted once in order, whether or not earlier ones failed; the table is the successful batches upserted; the result is their record count, at most the row count; an empty frame makes no store call |
| Queries.CompanyDictNone | etl/load.py:48-59 | building the lookup fails iff some row lacks symbol, name or sector |
| Queries.CompaniesOfOnError | etl/load.py:57-59 | a failed query or a row missing a field gives the empty lookup |
| Queries.CompanyDictKeys | etl/load.py:47-52 | the lookup's symbols are exactly those of the rows |
| Queries.CompanyDictLastWins | etl/load.py:52 | a symbol maps to the (name, sector) of its last row |
| Queries.GetCompaniesFromDb | etl/load.py:43-59 | the loop builds the lookup specified above, or returns {} on a missing field or a failed query |
| Queries.SortByPctDescSpec | etl/load.py:229 | the sort is a permutation, descending by pct_change, rows without one last |
| Queries.SortByPctDescStable | etl/load.py:229 | the sort is stable: the rows sharing any one pct_change value (or lacking one) keep their input order |
| Queries.TiesKeepInputOrder | etl/load.py:229-233 | of two rows with equal pct_change the earlier is the top gainer and the later the bottom loser |
| Queries.GainersLosersSlices | etl/load.py:229-233 | gainers are the first min(limit, n) sorted rows, losers the last min(limit, n) |
| Queries.GainersLosersOrder | etl/load.py:229-233 | both lists are descending; no other row beats a gainer, and no loser beats another row |
| Queries.GainersLosersOverlap | etl/load.py:232-233 | with fewer than 2 × limit rows the last gainer is also a loser |
| Queries.GainersLosersDisjoint | etl/load.py:232-233 | with at least 2 × limit rows, the gainers, the rows between and the losers make up the sorted day in order |
| Queries.GainersLosersEmpty | etl/load.py:224-240 | an empty day or a failed query gives two empty lists |

## Left out

- I/O and services are not modelled, because they hold no logic to verify:
  - printing;
  - `connect_to_supabase`, `log_etl_run`, `get_recent_data`, `get_all_stock_data`;
  - resolving the latest date in `get_top_gainers_losers` (etl/load.py:206-214);
  - extraction from Yahoo Finance (`etl/extract.py`);
  - the Flask trigger (`api/etl.py`);
  - the Streamlit dashboard.
- The caller in `api/etl.py` treats a run as successful when the loader's result is positive. `Load.NothingSaved` states when that result is 0.
- Floating point: prices and statistics are exact reals. `round(2)` is half-to-even on the exact value, not on the binary float.
- Square root: `sqrt` is a parameter with sqrt(0) = 0 that is non-negative on non-negative input. Volatility is proved to be 0 and non-negative; the converse (volatility 0 ⇒ the window is constant) is not stated.
- Features.PctChangeAt: requires positive closes, which the cleaning stage guarantees (`Clean.CleanDataPositive`). The division by a zero close that pandas turns into inf cannot arise after cleaning, so it is not modelled.
- Duplicate oil dates: pandas would repeat stock rows on a date listed twice. The model takes the first listed price for a date (`Features.OilOn`).
- `merge` returns a new frame rather than updating the old one. `Transform.Frame.MergeOilPrice` updates the frame in place, with the same resulting rows.
- Dates: `datetime.date` is modelled as year 1–9999, month 1–12, day 1–31. Month lengths and leap years are not checked.
- Date cells that are not dates: `str()` of any other value is not modelled; such a cell is left as it is.
- Load.Upserted: two records with the same key in one batch are applied in order, the last winning. The store itself may reject such a batch, and that rejection is not modelled.
- Load.Store.Upsert: whether a call succeeds is nondeterministic, and a call that raises is taken to have written nothing. A batch the store committed before the call raised (a lost response, a timeout) is counted as failed by the source yet is in the table; the model does not capture that, so `Load.NothingSaved`'s "table unchanged" and `Load.LoadStockData`'s table equation rest on this assumption.
- Records.CellOf: a missing oil price is uploaded as null. In the source only the no-oil path writes None (etl/transform.py:168); on the joined path a row before any known price keeps a float NaN, which `to_dict('records')` passes to the upsert as NaN. The model does not distinguish NaN from null.
- Rows.RawRow: open, high and low prices are plain reals, so a missing (NaN) open, high or low price from the download cannot be represented; only close and volume may be missing.
- Queries.SortByPctDesc: ties keep input order, as pandas' descending sort does for a day's handful of rows (numpy sorts short arrays by insertion). For arrays long enough that numpy's quicksort partitions them, equal pct_change rows may come out in another order; the head/tail slices proved here follow the stable order.
- Queries.PctOf: a pct_change read back as a float or as a whole-number integer is its numeric value; a text, date or null cell reads as missing and sorts last.
- Rounding a column of all-missing oil prices leaves it missing. This is the behaviour of pandas 2.x; older versions are not modelled.

## Behaviour of the code worth knowing

- Order independence: shuffling the input gives the same table only when no (symbol, date) key occurs twice. `drop_duplicates(keep='last')` keeps the row that comes last in input order, so with duplicates the surviving row depends on order. `Transform.TransformOrderInvariant` therefore requires duplicate-free inputs.
- Dedup before filter: a key whose last row has a missing or non-positive close disappears, even if an earlier duplicate was valid (`Clean.CleanDataKeys`).
- Oil forward-fill crosses symbols: the fill runs down the whole table sorted by (symbol, date), not per symbol. A symbol's first rows can therefore carry the previous symbol's last known oil price (`Transform.OilColumnAt`).
