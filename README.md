# euro-converter in Dafny

This project models the core of euro-converter. The program keeps a local table of the European Central Bank's daily euro reference rates and converts amounts between the euro and another currency at the rate in force on a given date. The model covers these parts:

- **Strategy** (`EcbTypes`): how much of the bank's feed to fetch. Never updated gives the full history. Less than a day since the last update gives the daily file. Under ninety days gives the 90-day file. Otherwise the full history.
- **Download** (`EcbDownload`): the conditional GET for the chosen file. It sends `If-Modified-Since` and `If-None-Match` from the stored validators, and reads `Last-Modified` and `ETag` back from the response.
- **Parser** (`EcbParser`): the streaming parser over the XML events. It yields one record per day, with the date and each currency's rate.
- **Table** (`RateTable`, `FixedPoint`, `Sorting`): the dataframe helpers. Rates and amounts are `Decimal(12, 6)` values, held as whole millionths. Dates are `yyyymmdd` keys. Rounding is half-even, as Python's `round` on a `Decimal` is.
- **Caches** (`CacheBase`, `CacheFile`): the snapshot, meaning the rate table, the instant of the last update and the validators per strategy. It is kept in memory, in a key-value store, or in a table file plus a JSON file.
- **Calculator** (`Calculator`): the `CurrencyCalculator` object. It reloads its cache on every conversion (the last check is never recorded), updates from the feed, merges an incremental update into the table, and converts one amount or a list of them at the rate in force.
- **Configuration** (`Config`): reading the cache choice and its options from environment variables with a common prefix.

Three things enter the model as parameters:

- The clock is a `now` argument, in whole seconds.
- The HTTP session is a function from request to response.
- The storage behind a cache is a field of the cache object. A failing write is a `WriteFault` argument.

The XML tokeniser is not modelled: the parser consumes the `start-ns`, `start` and `end` events.

Each operation that changes the calculator or a cache is a method of its class. The method is specified against functions of the old state:

- `CurrencyCalculator.Update` ends in the state `UpdateOutcome` describes.
- `Convert` and `ConvertMultiple` return what `ConvertOn` and `ConvertMultipleOn` give on the data the cache check leaves.

The lemmas state the properties of those functions:

- converting back undoes a conversion;
- the as-of lookup never uses a later rate;
- a merge keeps every old date and is idempotent;
- the batch conversion in input order equals the single conversions;
- the stored snapshot reads back as it was written.

## Model

| member | source | states |
|---|---|---|
| EcbTypes.GetUpdateType | euro_converter/ecb/types.py:17-26 | full exactly when there is no last update or it lies 90 days or more back; daily exactly when it lies less than a day back (a future instant included); 90-day exactly in between |
| EcbTypes.StalenessMonotone | euro_converter/ecb/types.py:17-26 | the later the call, the larger the part of the feed it fetches |
| EcbTypes.ValuesDistinct | euro_converter/ecb/types.py:11-14 | the three strategy names, used as keys of the stored validators, are distinct |
| EcbTypes.UpdateTypeExamples | euro_converter/ecb/types.py:17-26 | no update, a year back, four days back and twelve hours back give full, full, 90-day and daily |
| EcbDownload.UrlsDistinct | euro_converter/ecb/download.py:9-14 | each strategy has its own address |
| EcbDownload.GetData | euro_converter/ecb/download.py:19-40 | requests the strategy's address; sends If-Modified-Since exactly when a non-empty stored Last-Modified exists, with its value, and If-None-Match likewise for the ETag, and no other header; fails exactly on a status of 400 or more; otherwise returns the response and its Last-Modified and ETag |
| EcbParser.NormalizeRate | euro_converter/ecb/parser.py:16-18 | the result has a decimal point; a rate without one gets exactly `.0` appended, and a rate with one is left as it is |
| EcbParser.NormalizeRateIdempotent | euro_converter/ecb/parser.py:16-18 | normalising twice is normalising once |
| EcbParser.NormalizeRateKeepsValue | euro_converter/ecb/parser.py:16-18 | normalising never changes the `Decimal(12, 6)` value the rate casts to |
| EcbParser.Step | euro_converter/ecb/parser.py:11-35 | one event keeps the nesting invariant (depth at most 3, a day record pending exactly at depth 2 or more), yields at most one record, and changes nothing after an exception |
| EcbParser.Run | euro_converter/ecb/parser.py:11-35 | the loop keeps the invariant, only appends to what it yielded, and stops at the first exception |
| EcbParser.ParseXml | euro_converter/ecb/parser.py:6-43 | the imperative loop yields exactly the records, and raises exactly the error, of the event-by-event definition `Parse` |
| EcbParser.RunAppend | euro_converter/ecb/parser.py:11-35 | parsing a concatenation of events is parsing the second part from the state the first leaves (streaming) |
| EcbParser.StoppedAt | euro_converter/ecb/parser.py:11-43 | once a missing attribute raises, no later event changes the outcome |
| EcbParser.EmittedGrows | euro_converter/ecb/parser.py:29-31 | the records yielded for a prefix of the events are a prefix of all the records |
| EcbParser.NoDefaultNamespaceNoRecords | euro_converter/ecb/parser.py:32-35 | without a default namespace declaration no `Cube` is recognised: nothing is yielded and nothing raises |
| EcbParser.RunRates | euro_converter/ecb/parser.py:13-20 | the rate elements of a day add their currencies, normalised, to the pending record, later duplicates overwriting |
| EcbParser.RunDay | euro_converter/ecb/parser.py:21-31 | a day element yields exactly that day's record |
| EcbParser.RunDays | euro_converter/ecb/parser.py:11-31 | a run of day elements yields their records in order |
| EcbParser.RunFirstDay | euro_converter/ecb/parser.py:11-31 | the first day element of a run yields its record and leaves the rest of the run to start from there |
| EcbParser.RunPrologue | euro_converter/ecb/parser.py:32-35 | the namespace declaration, the envelope and the outer `Cube` leave the parser at depth 1 with the `Cube` tag known |
| EcbParser.RunThroughDays | euro_converter/ecb/parser.py:11-35 | after the prologue and complete days every day is yielded, nothing is pending and the parser is at depth 1 |
| EcbParser.DocumentParses | euro_converter/ecb/parser.py:6-43 | a well-formed feed document yields one record per day, in order, and no error |
| EcbParser.TruncatedDocumentFails | euro_converter/ecb/parser.py:38-43 | a document cut off inside a day yields the complete days and raises with the partial day's record at depth 2 |
| Sorting.SortBy | euro_converter/calculator/utils.py:24 | the result is sorted by the key and is a permutation of the input |
| Sorting.SortOfSorted | euro_converter/calculator/utils.py:54 | sorting rows already in order leaves them as they are |
| Sorting.SortedUnique | euro_converter/calculator/utils.py:38-39 | two sorted permutations of rows with distinct keys are equal, so sorting on the row index has one outcome |
| Sorting.MapMultiset | euro_converter/calculator/utils.py:40-42 | mapping a row function over two permutations gives two permutations |
| Sorting.KeysDistinctPermutation | euro_converter/calculator/calc.py:86 | rearranging rows whose dates are pairwise distinct keeps them pairwise distinct |
| Sorting.SortDistinctStrict | euro_converter/calculator/calc.py:86 | sorting rows with pairwise distinct dates orders them strictly ascending |
| FixedPoint.CastDecimal | euro_converter/calculator/utils.py:8-51 | a successful cast to `Decimal(12, 6)` lies strictly inside its range |
| FixedPoint.PointZeroKeepsValue | euro_converter/ecb/parser.py:17-18 | appending ".0" to a rate without a point does not change the value it casts to |
| FixedPoint.TrailingZeroKeepsValue | euro_converter/calculator/utils.py:51 | a trailing zero after the point does not change the value while at most six fraction digits result |
| FixedPoint.CastWhole | euro_converter/calculator/utils.py:51 | a digit string without a point casts to its value in whole units, that is shifted by six places |
| FixedPoint.CastPointed | euro_converter/calculator/utils.py:51 | a number with a point casts to its digits read without the point, shifted by the fraction places it lacks |
| FixedPoint.NegativeCast | euro_converter/calculator/utils.py:51 | a leading minus sign negates the cast of the rest |
| FixedPoint.CastDecimalExamples | euro_converter/calculator/utils.py:51 | "2.0" is 2, "-0.25" is -0.25, and seven fraction digits fail the strict cast |
| FixedPoint.DateKeyOrder | euro_converter/calculator/utils.py:51 | the date keys of valid dates order as the calendar does |
| FixedPoint.CastDate | euro_converter/calculator/utils.py:51 | a date that casts has the `yyyy-mm-dd` shape |
| FixedPoint.CastDateFields | euro_converter/calculator/utils.py:51 | year, month and day are read from their digit positions, and the cast fails exactly when they are not a calendar date |
| FixedPoint.CastDateExamples | euro_converter/calculator/utils.py:51 | "2023-01-04" is 2023-01-04; 29 February 2023 fails |
| FixedPoint.RoundUnits | euro_converter/calculator/utils.py:30 | the rounded count of units lies within half a unit of the value, and a tie goes to the even count |
| FixedPoint.RoundUnitsUnique | euro_converter/calculator/utils.py:30 | only one count of units has those two properties |
| FixedPoint.RoundIdempotent | euro_converter/calculator/utils.py:30 | rounding a rounded value changes nothing |
| FixedPoint.RoundExamples | euro_converter/calculator/utils.py:30 | 1/0.500001 rounds to 1.999996 at six places and to 2.00000 at five; 1/6.000001 rounds to 0.16667; 2.5 and 3.5 round to 2 and 4 |
| IsoTime.FromIsoFormat | euro_converter/cache/base.py:42 | a parsed instant is negative exactly when the text starts with a minus sign |
| IsoTime.IsoRoundTrip | euro_converter/cache/base.py:42-54 | parsing the written instant gives it back |
| RateTable.GetMultiDf | euro_converter/calculator/utils.py:18-24 | one row per input pair, sorted by date, a permutation of the pairs numbered in input order; every row carries its input position and that pair |
| RateTable.GetSingleResult | euro_converter/calculator/utils.py:27-32 | without `decimals` the value itself; with them it fails exactly on a null, otherwise the half-even rounding |
| RateTable.RoundAll | euro_converter/calculator/utils.py:41-42 | succeeds exactly when every row rounds, pairing each row's date with its rounded result, in order; a null fails |
| RateTable.GetResultList | euro_converter/calculator/utils.py:35-45 | one result per row; cannot fail without `decimals` |
| RateTable.RestoreSortExact | euro_converter/calculator/utils.py:38-39 | sorting a permutation of rows on the index restores the original order exactly |
| RateTable.CastRecord | euro_converter/calculator/utils.py:50-53 | a record casts exactly when its date and every rate cast; the row keeps the date and each rate's value, every other key a currency |
| RateTable.CastCells | euro_converter/calculator/utils.py:50-53 | the non-date columns of a record cast exactly when each of them casts, keeping exactly the non-date keys, each with its own cast value |
| RateTable.CastCellsOne | euro_converter/calculator/utils.py:50-53 | a record with a single rate field casts to the one-cell map of that rate |
| RateTable.CastOneCurrency | euro_converter/calculator/utils.py:50-53 | a record of a castable date and one castable rate becomes the row of that date with that one cell |
| RateTable.CastRows | euro_converter/calculator/utils.py:48-53 | every record casts, in order, or the whole cast fails |
| RateTable.GetParsedRatesDf | euro_converter/calculator/utils.py:48-54 | no records is an error (no `date` column); otherwise succeeds exactly when every record casts, giving a table whose columns are the currencies seen, sorted by date, a permutation of the cast rows |
| RateTable.SortedRowsWellFormed | euro_converter/calculator/utils.py:48-54 | however the cast rows are reordered, every cell belongs to a currency column of the table |
| RateTable.ParsedRatesExample | euro_converter/calculator/utils.py:48-54 | one day with `USD` "2.0" becomes the table of that day with 2.000000 |
| RateTable.CastRowsExample | euro_converter/calculator/utils.py:48-53 | the same record casts to the same row through the list cast |
| RateTable.CastRecordExample | euro_converter/calculator/utils.py:50-53 | the record with date "2023-01-04" and `USD` "2.0" casts to that row |
| CacheBase.RatesCache.constructor | euro_converter/cache/base.py:11-12 | a new cache has no snapshot |
| CacheBase.EncodeHeaders | euro_converter/cache/base.py:55-60 | keeps each validator under its attribute name exactly when it is set and not empty |
| CacheBase.DecodeHeaders | euro_converter/cache/base.py:43-46 | rebuilding the validators succeeds exactly when only the two attribute names occur; absent ones are `None` |
| CacheBase.EncodeMeta | euro_converter/cache/base.py:52-63 | one entry of validators per strategy key, each encoded |
| CacheBase.DecodeMeta | euro_converter/cache/base.py:40-47 | succeeds exactly when the instant parses and every entry decodes; keeps the table, the keys and each decoded entry |
| CacheBase.HeadersRoundTrip | euro_converter/cache/base.py:43-60 | validators read back as written, with empty strings turned into `None` |
| CacheBase.StoredRoundTrip | euro_converter/cache/base.py:36-63 | a saved snapshot loads back the same, up to empty validators becoming `None` |
| CacheBase.StoredRoundTripExact | euro_converter/cache/base.py:36-63 | without empty validators the snapshot loads back exactly |
| CacheBase.StoredRatesCache.constructor | euro_converter/cache/base.py:11-12 | no snapshot yet; the store holds what it was given |
| CacheBase.StoredRatesCache.Load | euro_converter/cache/base.py:36-47 | with both table and metadata stored, the decoded snapshot replaces the data (a decoding error leaves it); with either missing nothing changes; the store is untouched |
| CacheBase.StoredRatesCache.Save | euro_converter/cache/base.py:49-63 | the table is written first, then the encoded metadata; a write that fails stops there; without a snapshot nothing is written; the snapshot is unchanged |
| CacheFile.OrDefault | euro_converter/cache/filecache.py:20-22 | a missing or empty option falls back to the default |
| CacheFile.FileCache.constructor | euro_converter/cache/filecache.py:13-22 | no snapshot; the path and the two file names are the options given or `""`, `data.parquet` and `last_timestamps.json` |
| CacheFile.DecodeTimestamps | euro_converter/cache/filecache.py:35 | rebuilding from a list succeeds exactly when it has at most two entries; the first entry, when there is one, is Last-Modified and the second, when there is one, the ETag; missing entries are `None` |
| CacheFile.DecodeFileMeta | euro_converter/cache/filecache.py:31-38 | succeeds exactly when the instant parses and every entry has at most two values; keeps the table and the keys, and each key holds its own list rebuilt positionally |
| CacheFile.FileRoundTrip | euro_converter/cache/filecache.py:24-53 | a saved snapshot loads back exactly, empty validators included |
| CacheFile.FileCache.Load | euro_converter/cache/filecache.py:24-38 | with both files readable the decoded snapshot replaces the data (a decoding error leaves it); otherwise nothing changes; the files are untouched |
| CacheFile.FileCache.Save | euro_converter/cache/filecache.py:40-53 | writes the table file, then the metadata file; a failing write stops there; without a snapshot nothing is written |
| Calculator.Restrict | euro_converter/calculator/calc.py:86 | an update's cells are kept only for the columns of the table |
| Calculator.FirstOn | euro_converter/calculator/calc.py:86 | finds a row of the update exactly when one has that date, and it has that date |
| Calculator.Added | euro_converter/calculator/calc.py:86 | the new rows cover exactly the update's dates missing from the table, each being the update's row restricted to the table's columns |
| Calculator.Kept | euro_converter/calculator/calc.py:86 | every old row stays, on its date |
| Calculator.Unsorted | euro_converter/calculator/calc.py:86 | the merged rows cover the old dates and the update's dates |
| Calculator.UnsortedRow | euro_converter/calculator/calc.py:86 | each merged row is an old row overwritten by the update's cells, or an added row |
| Calculator.MergeTables | euro_converter/calculator/calc.py:86 | same columns; the dates are the old ones and the update's; sorted by date |
| Calculator.MergeStrictlySorted | euro_converter/calculator/calc.py:86 | on a table strictly ascending by date, the merged table is strictly ascending by date: one row per date |
| Calculator.AddedDistinct | euro_converter/calculator/calc.py:86 | the rows the update adds carry pairwise distinct dates |
| Calculator.UnsortedDistinct | euro_converter/calculator/calc.py:86 | on a table strictly ascending by date, the updated old rows and the added rows carry pairwise distinct dates |
| Calculator.MergeWellFormed | euro_converter/calculator/calc.py:86 | no cell outside the table's columns appears after a merge |
| Calculator.MergeRows | euro_converter/calculator/calc.py:86 | with one row per date before, one row per date after, each row being the per-date reference `MergedRow` (old cells overwritten by the update's, or the update's row) |
| Calculator.KeptAfterMerge | euro_converter/calculator/calc.py:86 | updating a merged table with the same update changes none of its rows |
| Calculator.AddedAfterMerge | euro_converter/calculator/calc.py:86 | after a merge the same update adds no rows |
| Calculator.MergeIdempotent | euro_converter/calculator/calc.py:86 | merging the same update twice is merging it once |
| Calculator.AsOf | euro_converter/calculator/calc.py:97-103 | no row exactly when every row is later than the date; otherwise the last row not later than it |
| Calculator.AsOfLatest | euro_converter/calculator/calc.py:99-102 | on a table sorted by date the row found is the latest not after the date, never a later one |
| Calculator.RateAt | euro_converter/calculator/calc.py:97-103 | a rate found is the cell of the last row dated on or before the date; the result is null exactly when no row is in force or that row has no cell for the currency |
| Calculator.ConvertAmount | euro_converter/calculator/calc.py:23-24 | `from` fails exactly on a zero rate, and otherwise gives the amount that times the rate is the input |
| Calculator.FromUndoesTo | euro_converter/calculator/calc.py:23-24 | converting from a currency undoes converting to it at the same rate |
| Calculator.ToUndoesFrom | euro_converter/calculator/calc.py:23-24 | converting to a currency undoes converting from it at the same rate |
| Calculator.ConvertOn | euro_converter/calculator/calc.py:105-119 | no snapshot fails; a currency not in the table, upper-cased, fails naming it; otherwise the result is `Converted`, meaning the rate in force on the date, the exact conversion, then rounding, with a null rate failing to round |
| Calculator.ConvertMultipleOn | euro_converter/calculator/calc.py:121-136 | no snapshot and an unknown currency fail as for one conversion; otherwise one result per input |
| Calculator.EvaluateConverted | euro_converter/calculator/calc.py:97-119 | the result column of the joined frame, rounded, is the reference conversion of that row |
| Calculator.RoundAllMembers | euro_converter/calculator/utils.py:41-42 | rounding the list succeeds exactly when every row rounds, giving each row's rounded pair |
| Calculator.ConvertRowsOk | euro_converter/calculator/calc.py:134-135 | the batch expression fails exactly when some input would divide by a zero rate |
| Calculator.ConvertMultipleInOrder | euro_converter/calculator/calc.py:121-136 | with `keep_order` the batch succeeds exactly when every single conversion does, and result i is input i's date with its single conversion |
| Calculator.ConvertMultipleSorted | euro_converter/calculator/calc.py:121-136 | without `keep_order` the batch succeeds exactly when the ordered one does, with the same results sorted by date |
| Calculator.RoundAllSorted | euro_converter/calculator/utils.py:35-45 | results of inputs sorted by date come out sorted by date |
| Calculator.RoundAllPermutation | euro_converter/calculator/utils.py:35-45 | rounding a permutation of the rows gives a permutation of the results |
| Calculator.ConvertFromExample | euro_converter/calculator/calc.py:105-119 | on the test table, 1 from `ccc` on 2023-01-04 at six places is 1.999996 |
| Calculator.ConvertAsOfExample | euro_converter/calculator/calc.py:105-119 | on the test table, 1 to `CAA` on 2023-01-02 uses the 2023-01-01 rate: 2.000000 |
| Calculator.UnknownCurrencyExample | euro_converter/calculator/calc.py:118 | a currency missing from the table fails, named in upper case |
| Calculator.NoSnapshotFetchesAll | euro_converter/calculator/calc.py:62-63 | without a snapshot the full history is fetched |
| Calculator.RequestValidators | euro_converter/calculator/calc.py:64-67 | the full strategy sends no validators; the others send the ones stored under the strategy's name, when any |
| Calculator.UpdateOutcome | euro_converter/calculator/calc.py:61-90 | a failed fetch fails; a change sets the last update to now; no change only on 304; an incremental strategy with a snapshot stores the response's validators under the strategy's key |
| Calculator.NotModifiedKeepsRates | euro_converter/calculator/calc.py:70-73 | a 304 changes neither table nor last update and replaces only the strategy's validators with those of the response |
| Calculator.UpdateKeepsOtherValidators | euro_converter/calculator/calc.py:72-85 | an incremental update leaves the validators of the other strategies alone |
| Calculator.FullUpdateReplaces | euro_converter/calculator/calc.py:75-81 | a full update replaces the table by the parsed one and clears the validators |
| Calculator.IncrementalKeepsHistory | euro_converter/calculator/calc.py:83-88 | an incremental update keeps the columns and every old date, adds the new dates, stores the response's validators under the strategy's key, each row is the per-date merge reference, and a table strictly ascending by date stays so |
| Calculator.CheckAsWritten | euro_converter/calculator/calc.py:92-95 | as written: reloads exactly when never checked or checked more than an hour ago, and leaves the last check as it was |
| Calculator.AsWrittenReloadsEveryCall | euro_converter/calculator/calc.py:92-95 | as written, a check one second after a load reloads again, and the last check stays unset |
| Calculator.CheckRecorded | euro_converter/calculator/calc.py:92-95 | reloads exactly when stale, records the instant when it does, and is never stale right after |
| Calculator.RecordedReloadsHourly | euro_converter/calculator/calc.py:92-95 | after a recorded load, a later check reloads exactly when more than an hour has passed |
| Calculator.CurrencyCalculator.constructor | euro_converter/calculator/calc.py:34-37 | a new calculator loads its cache and leaves the last check unset |
| Calculator.CurrencyCalculator.LoadCache | euro_converter/calculator/calc.py:47-52 | the data becomes what the cache's load leaves, load errors swallowed; storage unchanged |
| Calculator.CurrencyCalculator.SaveCache | euro_converter/calculator/calc.py:54-59 | storage becomes what the cache's save writes, write errors swallowed; data unchanged |
| Calculator.CurrencyCalculator.SetData | euro_converter/calculator/calc.py:43-45 | the cache's data becomes the value; storage unchanged |
| Calculator.CurrencyCalculator.CheckCache | euro_converter/calculator/calc.py:92-95 | as written: reloads when never checked or checked more than an hour ago, never records the check, storage unchanged |
| Calculator.CurrencyCalculator.Update | euro_converter/calculator/calc.py:61-90 | requests the strategy's address with its stored validators; the data becomes `UpdateOutcome` of the response, saved exactly when it changed; a failure leaves data and storage as they were |
| Calculator.CurrencyCalculator.ApplyResponse | euro_converter/calculator/calc.py:69-90 | the part of `update` after the fetch, with the same outcome |
| Calculator.CurrencyCalculator.Convert | euro_converter/calculator/calc.py:105-119 | checks the cache as written, so with the last check unset the stored snapshot is reloaded on every call, then returns `ConvertOn` of the data |
| Calculator.CurrencyCalculator.ConvertMultiple | euro_converter/calculator/calc.py:121-136 | checks the cache as written, so with the last check unset the stored snapshot is reloaded on every call, then returns `ConvertMultipleOn` of the data |
| Config.Lookup | euro_converter/config.py:27 | finds a value exactly when the key is present, and it belongs to that key |
| Config.AssignKeys | euro_converter/config.py:18-22 | assigning adds the key to the keys |
| Config.AssignUnique | euro_converter/config.py:18-22 | assigning keeps the keys unique |
| Config.AssignLookup | euro_converter/config.py:18-22 | after assigning, the key gives the new value and every other key what it gave |
| Config.GetRemovingPrefixKeys | euro_converter/config.py:16-22 | keys unique; a name is present exactly when some variable, lower-cased, is the prefix, an underscore and that name |
| Config.GetRemovingPrefixSnoc | euro_converter/config.py:18-22 | the variables are read in order: a later variable under the prefix is assigned over the earlier ones, one outside it changes nothing |
| Config.ValueOfLastKey | euro_converter/config.py:16-22 | a name takes the value of the last variable that names it |
| Config.NoKeyNoValue | euro_converter/config.py:16-22 | a name no variable names is absent |
| Config.PrefixCaseIgnored | euro_converter/config.py:17 | the case of the prefix does not matter |
| Config.FirstUnexpected | euro_converter/config.py:31 | finds an option exactly when one is not a parameter of `FileCache` |
| Config.GetConfig | euro_converter/config.py:25-43 | a missing or empty choice, or one that is neither `file` nor `redis` in any case, gives the in-memory cache; `redis` in any case gives the redis cache with the options under `EURO_CONVERTER_REDIS_CACHE_`; the file cache and the option error arise only from `file` |
| Config.FileCacheOptions | euro_converter/config.py:29-31 | with `file` chosen, the configuration succeeds exactly when every option under `EURO_CONVERTER_FILE_CACHE_` is a `FileCache` parameter, and passes those options |
| Config.FileConfigExample | euro_converter/config.py:25-43 | `EURO_CONVERTER_CACHE=file` and `EURO_CONVERTER_FILE_CACHE_PATH`, each in any case, choose the file cache with that path, whatever other variable precedes them |

## Left out

- The XML tokeniser and the HTTP transport are not modelled. The parser consumes tokeniser events, and the session is a function from request to response.
- Logging is left out: it changes nothing.
- Clocks: `now` is an argument in whole seconds. ISO-8601 text is modelled as the signed decimal count of seconds. This keeps the one property that matters, that what is written parses back.
- Timestamps are whole seconds: sub-second precision is not modelled.
- Dataframe schema inference and column types are not modelled. A table is a set of columns and rows of cells. A missing cell is a null.
- FixedPoint.CastDecimal: a value outside the `Decimal(12, 6)` range, or with more than six fraction digits, is a failed cast. Which exception the library raises is not modelled.
- Calculator.ConvertAmount: dividing by a zero rate is an error. The dataframe library's behaviour on a zero `Decimal` divisor is not modelled. The bank's feed never publishes a zero rate.
- Calculator.ConvertOn: without `decimals` the result is the exact quotient or product. The scale the library gives a `Decimal` quotient, and any truncation to it, is not modelled.
- Calculator.MergeTables: when one feed has several rows for the same date, the first one is used for that date. The dataframe library's choice in that case is not modelled.
- Sorting.SortBy: the library's sort is not stable, and the model sorts by insertion, which fixes one order among rows with equal dates. The lemmas about unordered batch conversion therefore promise only sortedness and a permutation of the results, which hold for any order of equal dates.
- Response headers are looked up by their exact spelling (`Last-Modified`, `ETag`). The case-insensitive lookup of the HTTP library is not modelled.
- Case mapping is ASCII only: Python's full Unicode `lower`/`upper` is not modelled. Currency codes and variable names are ASCII.
- The namespace map the parser fills is kept in its state, but nothing reads it, in the source as in the model.
- The parser's branch for an event kind other than `start`, `end` and `start-ns` cannot be reached: the tokeniser is asked for those three kinds only. The model's event type has those three kinds.
- Which exception a corrupt or unreadable file raises is not modelled. A missing file or unparsable content is "not readable", which `FileCache.load` ignores. Content that parses but does not decode is an error.
- An empty stored metadata dictionary, which `StoredRatesCache.load` treats as absent, is represented as no metadata: `save` never writes an empty one.
- A `FileCache` whose data file and metadata file have the same name is not modelled separately: the second write overwrites the first, as in the source.
- euro_converter/cache/redis.py is not part of this model: only which options the configuration hands to it is. euro_converter/main.py (the HTTP front end) is not part of this model either.
- euro_converter/ecb/update.py is modelled inside `CurrencyCalculator.Update`: it calls `get_data`, stops on 304, and otherwise parses the body.
- The as-of lookup joins on the date alone: the rate comes from the last row dated on or before the date, whatever its cells. A missing cell or no earlier row gives a null result, which fails only when rounding is asked for. The model does the same.
- In `update` the new snapshot is set before the save, and save errors are only logged. The model does the same: a failed save leaves the new snapshot in place.
- The incremental update overwrites only the cells the update has and keeps only the table's columns. The model does the same.
- `CurrencyCalculator` runs `_check_cache` as written, so every conversion reloads the stored snapshot. The corrected check `CheckRecorded` is stated and proved beside it, but the class does not use it.

## Findings

| source | as written | input that shows it | evidently intended | confidence | as-written member | corrected member |
|---|---|---|---|---|---|---|
| euro_converter/calculator/calc.py:92-95 | `_check_cache` reloads when `last_cache_check` is unset or more than an hour old, but never sets it, so every conversion reloads the cache | create a calculator at instant t, then convert at t+1: the cache is loaded again and `last_cache_check` is still `None`, while tests/calculator/test_calc.py:89 expects the instant of the check | record the instant whenever the cache is loaded, so it is reloaded at most once an hour | not executed | Calculator.CheckAsWritten, Calculator.AsWrittenReloadsEveryCall | Calculator.CheckRecorded, Calculator.RecordedReloadsHourly |
