# channelstats-api: channel listing, windowed statistics and the `/stats` route

This project models the query logic of a small read-only statistics service. The service holds
one table of sensor channels, loaded once and sorted by timestamp. It answers two questions:

- which channels exist, optionally only those whose name contains a given substring
  (`DataService.get_channels`);
- what the mean, standard deviation, minimum, maximum and count of each selected channel are,
  over an optional inclusive time window (`DataService.get_stats`).

The `/stats` route validates a request, asks `get_stats`, and turns the outcome into a 200, 400,
404 or 500 response.

Files:

- `results.dfy` (module `Results`): `Option` and `Result`.
- `seqs.dfy` (module `Seqs`): the generic list filter behind every comprehension and polars
  `filter`, Python's substring test `in`, `", ".join`, and their lemmas.
- `aggregates.dfy` (module `Aggregates`): sum, minimum and maximum over reals, and the bound
  `min <= mean <= max`.
- `data_service.dfy` (module `DataService`):
  - the table, with the invariant the loader leaves: distinct column names, both time
    columns present, rows sorted by timestamp with missing timestamps first;
  - `GetChannels` as a function;
  - `GetStats` as a method. It follows the source step by step: select, start filter, end
    filter, early `{}`, then a `for` loop (`CollectStats`) that fills an insertion-ordered
    dict. It is proved equal to the loop-free specification `ExpectedStats`, and the
    properties are lemmas about `ExpectedStats`.
- `stats_route.dfy` (module `StatsRoute`):
  - the route body as the pure decision `Classify`, over the requested channels, the valid
    channels, the two parsed dates and the engine's outcome;
  - `Handle`, which composes `Classify` with `ExpectedStats` to give the whole request.

Faults are values. Polars' `select` raises on a name that is not a column and on a name given
twice. Converting a null aggregate with `float(None)` raises as well. The model carries these as
`Fault`s, and the route answers every fault with 500. One consequence is that a request naming
the same valid channel twice passes validation and is answered 500
(`RepeatedChannelIsInternalError`).

An end date before the start date is not rejected: the window is empty and the answer is 404
(`InvertedRangeNotFound`).

## Model

| member | source | states |
|---|---|---|
| DataService.GetChannels | app/services/data_service.py:31-47 | every listed name is a column of the table and is neither `t` nor `timestamp`, and the list is no longer than the columns |
| DataService.Select | app/services/data_service.py:65-68 | polars' `select` succeeds iff every name is a column and no name repeats, and then keeps the names in order; an unknown-column fault names a requested name that is not a column |
| DataService.Summarize | app/services/data_service.py:85-97 | a record exists iff the channel has a value and the std kernel is not null; its count is the number of values, and min <= max, both attained |
| DataService.ExpectedStats | app/services/data_service.py:62-101 | every record of a successful result is the summary of its channel over the window, with 0 < count <= window size |
| StatsRoute.ParseDates | app/routes/stats.py:33-39 | parsing fails iff a date is unparseable, with the start date's message first; on success each bound is present iff its date was given |
| StatsRoute.Classify | app/routes/stats.py:25-50 | every error is 400, 404 or 500; a 200 requires valid dates and returns the engine's non-empty dict unchanged |
| StatsRoute.Handle | app/routes/stats.py:25-50 | a 200 answer means valid dates and all requested names known, and its body is exactly the result of `get_stats` with the parsed bounds |
| DataService.ChannelsMembership | app/services/data_service.py:42-45 | a name is listed iff it is a column, is neither `t` nor `timestamp`, and contains the type when a non-empty type is given; `t` and `timestamp` are never listed |
| DataService.ChannelsMatchType | app/services/data_service.py:43 | with a non-empty type, every listed name has the type as a case-sensitive substring at some position |
| DataService.ChannelsInColumnOrder | app/services/data_service.py:43-45 | the listing is a subsequence of the table's columns, so it keeps column order and adds nothing; it has no repeats when the columns have none |
| DataService.EmptyTypeMatchesAll | app/services/data_service.py:42-45 | type `""` gives the same list as no type, and the filtered comprehension with `""` would too |
| Seqs.ContainsIff | app/services/data_service.py:43 | the substring test holds iff the substring occurs at some position |
| DataService.WindowSteps | app/services/data_service.py:70-75 | applying the `>= start` filter and then the `<= end` filter, each only when its bound is given, leaves exactly the window |
| DataService.WindowMembership | app/services/data_service.py:70-75 | a row is in the window iff it is a row of the table and its timestamp satisfies every given bound, both inclusive; a row without timestamp survives only when no bound is given; the window keeps row order |
| DataService.InvertedWindowIsEmpty | app/services/data_service.py:70-75 | an end before the start keeps no row |
| DataService.WindowIsContiguous | app/services/data_service.py:70-75 | on rows sorted by the loader, the window is one contiguous slice of the rows |
| DataService.FullRangeWindow | app/services/data_service.py:70-75 | on sorted rows that all have timestamps, bounding by the first and last timestamp keeps every row, as giving no bound does |
| DataService.CountIsPresentRows | app/services/data_service.py:90 | a channel's values in a window are exactly its non-null cells, one per row holding a value |
| Aggregates.Min | app/services/data_service.py:88 | the minimum is one of the values and at most every value |
| Aggregates.Max | app/services/data_service.py:89 | the maximum is one of the values and at least every value |
| Aggregates.MeanOfValues | app/services/data_service.py:86 | the mean of a non-empty list lies between its minimum and maximum |
| DataService.SummaryBounds | app/services/data_service.py:85-96 | a channel has no record exactly when it has no value or its std is null; otherwise count is the number of values, mean is sum over count, min <= mean <= max, min and max are attained and bound every value, and std is the kernel's value |
| DataService.GetStats | app/services/data_service.py:49-101 | the method (select, date filters, early empty dict, loop) computes exactly `ExpectedStats`: the select fault, `{}` for an empty window, or the first null-aggregate fault or the records of the selected channels |
| DataService.CollectStats | app/services/data_service.py:80-99 | the loop skips `t` and `timestamp`, adds one record per channel in selection order, and stops with a fault at the first channel whose aggregates are null |
| DataService.SelectedChannels | app/services/data_service.py:65-68 | the channels of the selection are every channel when none is requested, and otherwise the requested names other than `t` and `timestamp`, in request order |
| DataService.SelectOutcome | app/services/data_service.py:65-68 | on a loaded table, with requested names that are all channels, the select step succeeds iff no name repeats |
| DataService.StatsKeys | app/services/data_service.py:65-99 | a successful result is a valid dict; it is `{}` for an empty window, and otherwise its keys are `get_channels()` when no channel is requested, else the requested names other than `t` and `timestamp` |
| DataService.StatsRecords | app/services/data_service.py:85-97 | each emitted record has count equal to the channel's non-null values in the window, 0 < count <= window size, mean equal to sum over count, and min <= mean <= max, with min and max attained and bounding every value |
| DataService.StatsFaults | app/services/data_service.py:62-101 | the call fails iff the select step fails, or the window is non-empty and some selected channel has a null aggregate |
| DataService.FullRangeStats | app/routes/stats.py:22-23 | when every row has a timestamp, the statistics with no dates equal those bounded by the earliest and latest timestamps, as the route's documentation promises |
| DataService.NullTimestampOutsideFullRange | app/routes/stats.py:22-23 | on a loaded table whose first row has no timestamp, omitting the dates counts two values and bounding by the earliest and latest timestamps counts one, so the promise fails as written |
| StatsRoute.UnknownChannelsExact | app/routes/stats.py:28 | the unknown list holds exactly the requested names that are not channels, in request order, each as often as it was requested (equal multiplicities); it is empty iff every name is a channel |
| StatsRoute.RejectsUnknownChannel | app/routes/stats.py:27-30 | any unknown name gives 400 with `Invalid channel(s): ` followed by the unknown names joined by `, `, whatever the dates and the engine's outcome, so channels are checked before dates |
| StatsRoute.RejectsBadDate | app/routes/stats.py:33-39 | with every channel known, an unparseable date gives 400 with `Invalid datetime format: `, the parser's message and the format hint; the start date's error wins |
| StatsRoute.OutcomeOfValidRequest | app/routes/stats.py:41-50 | a valid request is answered by the engine's outcome alone: a fault is 500 with the internal-error prefix and its message, `{}` is 404 `No data found for the given parameters`, and any other dict is returned unchanged |
| StatsRoute.ClassifyStatus | app/routes/stats.py:25-50 | 400 iff the request is invalid; 404 iff it is valid and the dict is empty; 500 iff it is valid and the engine faulted; 200 iff it is valid and the dict is non-empty, with that dict as the body |
| StatsRoute.EmptyRequestSkipsValidation | app/routes/stats.py:27 | an absent or empty channel list is not validated: the valid channels do not affect the answer, and no 400 arises unless a date is unparseable |
| StatsRoute.KnownChannelsKept | app/services/data_service.py:81-83 | requested names that are all channels are all kept by the loop's reserved-name test |
| StatsRoute.EmptyWindowNotFound | app/routes/stats.py:41-44 | a valid request with distinct channels whose window is empty is answered 404 |
| StatsRoute.InvertedRangeNotFound | app/routes/stats.py:33-44 | an end date before the start date is not rejected as such; the request is answered 404 |
| StatsRoute.RepeatedChannelIsInternalError | app/routes/stats.py:41-50 | a valid request naming a channel twice is answered 500 |
| StatsRoute.SuccessfulAnswer | app/routes/stats.py:41-46 | a 200 answer is a valid dict whose keys are the requested channels, or all channels when none is requested; each record's count is the channel's non-null values in the window, between 1 and the window size, with min <= mean <= max |

## Left out

- Loading (`load_data`: parquet reading, the lenient cast of `t` to a datetime, the sort) is file
  I/O and library work. Only its result is modelled, as the predicate `WellFormed`: distinct
  columns, rows sorted by an optional timestamp with missing ones first.
- Date parsing (`datetime.fromisoformat`, `strftime` in the route, `strptime` in `get_stats`) is
  library code. A date is the abstract `DateArg`: omitted, parsed to an instant, or rejected
  with a message. A date the route has normalised is parsed again by `strptime` in `get_stats`.
  For four-digit years this cannot fail. A year below 1000 may be written by `strftime` without
  zero padding on some platforms, and `strptime` then raises, giving a 500. That failure is not
  modelled.
- Floating point: cells, means, minima and maxima are reals, and the mean is sum over count.
  The sample standard deviation is the abstract `StdKernel`, which may yield null.
- Which aggregates polars leaves null is foreign behaviour. The model assumes that mean, min
  and max are null exactly for a channel with no value in the window, and that std is null
  where the kernel says so. A null makes `float(None)` fail.
- Cells are all numeric. A non-numeric column, where polars' `mean` would behave differently,
  is not modelled.
- The texts of polars' exception messages are the abstract `describe` parameter of `Handle`.
- `self.data` is not changed by `get_stats`. In the model the table is a value passed to
  `GetStats`, so this holds by construction and needs no lemma.
- FastAPI routing, dependency injection, `app.state`, configuration, and the pass-through route
  in `app/routes/channels.py` are framework wiring. The query parameter `channels` absent or
  empty is modelled as the empty list, since the source treats both as falsy.
- DataService.FullRangeStats: proved only for tables whose rows all have a timestamp. The
  loader's lenient cast keeps rows without a timestamp. Omitting the dates keeps those rows,
  and bounding by the earliest and latest timestamps drops them, so the route's documented
  equivalence does not hold for them (see Findings).
- The `try`/`except HTTPException: raise` re-raise is implicit: the 400 and 404 answers of
  `Classify` are returned as they are, and only engine faults become 500.

## Findings

| source | as written | input that shows it | evidently intended | confidence | as-written member | corrected member |
|---|---|---|---|---|---|---|
| app/routes/stats.py:22-23 | omitting the dates keeps every row, including rows whose raw time the loader could not cast (app/services/data_service.py:25, 28) | a table with columns `t`, `timestamp`, `a` and rows without timestamp (`a` = 1.0) and at 5 (`a` = 2.0): no dates give `a` a count of 2, the bounds 5..5 give a count of 1 | omitting the dates is the same as bounding by the earliest and latest timestamps, which holds when every row has a timestamp | not executed | DataService.NullTimestampOutsideFullRange | DataService.FullRangeStats |
