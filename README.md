# T212 to Digrin: verified model of the report acquisition and transformation

Once a month, the program asks the Trading 212 reporting service for a
transaction report. It polls the service until the report is finished and
downloads it. It then converts the rows into the CSV layout that the Digrin
portfolio tracker imports. This project models and proves three parts of
`main.py`:

- **ReportTransformer** (`transformer.dfy`): the row transformation. A report
  is a `seq<Row>`; a row has an action, a ticker and the untouched cells of
  every other column. The transformation keeps only `Market buy` and
  `Market sell` rows and drops the blacklisted tickers `VNTRF` and `BRK.A`. It
  rewrites tickers through the fixed 14-entry symbol table. The proofs show
  that each filter keeps the rows it should, that tickers are remapped
  correctly, that row order is kept, that every other cell is unchanged, and
  that the transformation is idempotent.
- **ReportAcquirer** (`acquirer.dfy`): the two `while True` loops of `main`.
  The service is an oracle with two sequences: the answers of the create call
  `creates` and the answers of the listing call `listings`. A listing is
  `None` or a sequence of entries. Each sleep is a `Wait` event. The methods
  record every call they make in an event trace. A protocol state machine
  (`Step`, `Run`) defines which traces are legal: requesting, backing off,
  waiting, polling, ready, done, or failed. The methods are proved to produce
  legal traces and to consume each oracle in order. Their outcome is decided by
  the first truthy id and by the first listing that does not call for another
  poll. Lemmas about every legal trace show four things: calls to the service
  are paced by sleeps; at most one create call succeeds, exactly one once an
  id is held, and it comes before any listing; a download can only be the last
  event; and it fetches the entry that the preceding listing selected as
  `Finished`. The selection itself
  (`reports[::-1]` followed by `next(filter(...))`) is proved equal to a direct
  definition of "the last entry with the held id".
- **ReportingMonth** (`reporting_month.dfy`): the default reporting month of
  `get_input_dt`. That default is the month before today, with January going
  to December of the previous year, written `YYYY-MM`. An empty answer takes
  the default and any other answer is returned unchanged.

`wrappers.dfy` holds the `Option` type, which stands for Python's `None`.

When a non-empty listing has no entry for the held id, `next(filter(...))`
(main.py:108-110) raises `StopIteration`, which nothing catches. The model
therefore ends the run with `NoMatchingEntry` (phase `Failed`).

The source retries forever. The model's loops instead stop when the oracle has
no more answers, and return `CreatePending` or `PollPending`. Those are the
points where the source would keep retrying.

## Model

| member | source | states |
|---|---|---|
| `ReportTransformer.Transform` | main.py:31-63 | Definition of `transform`: action filter, then blacklist filter, then ticker remap; properties proved in `TransformMembership`, `KeptRowsInOrder`, `TransformRowByRow`, `TransformOutputIsClean` and `TransformIdempotent` |
| `ReportTransformer.FilterActions` | main.py:33-34 | Definition of the `Action` mask; properties proved in `Select`, `SelectIsSubsequence`, `SelectMultiplicity` and `FiltersCombine` |
| `ReportTransformer.FilterBlacklist` | main.py:36-41 | Definition of the negated `Ticker` blacklist mask; properties proved in `Select`, `SelectIsSubsequence`, `SelectMultiplicity` and `FiltersCombine` |
| `ReportTransformer.RemapRow` | main.py:60 | Definition of the ticker replacement in one row; properties proved in `MapTicker` and `TransformRowByRow` |
| `ReportTransformer.RemapTickers` | main.py:60 | Definition of the column-wide `replace(ticker_map)`; properties proved in `TransformRowByRow` and `TransformIdempotent` |
| `ReportTransformer.HasAllowedAction` | main.py:33-34 | Definition of the `isin(allowed_actions)` mask on one row: the action is exactly `Market buy` or `Market sell`; properties proved in `FiltersCombine` and `TransformMembership` |
| `ReportTransformer.HasAdmittedTicker` | main.py:36-41 | Definition of the negated `isin(ticker_blacklist)` mask on one row, applied to the original ticker before any remap; properties proved in `FiltersCombine` and `TransformMembership` |
| `ReportTransformer.Kept` | main.py:33-41 | Definition of the conjunction of both masks; properties proved in `FiltersCombine`, `KeptRowsInOrder`, `TransformMembership` and `TransformOutputIsClean` |
| `ReportTransformer.Select` | main.py:34 | Boolean-mask selection returns exactly the input rows that satisfy the mask (membership in both directions) and is never longer than the input |
| `ReportTransformer.SelectIsSubsequence` | main.py:34 | The selected rows are a subsequence of the input in the original order |
| `ReportTransformer.SelectMultiplicity` | main.py:34 | A row the mask accepts appears as many times as in the input; a row it rejects never appears |
| `ReportTransformer.TickerMapIsClosed` | main.py:37-59 | No mapped symbol is a key of the table or blacklisted, and no key is blacklisted |
| `ReportTransformer.MapTicker` | main.py:44-60 | The rewritten symbol is never a key of the table again, and it is blacklisted iff the original was |
| `ReportTransformer.FiltersCombine` | main.py:33-41 | The action filter followed by the blacklist filter selects the same rows as the single combined condition |
| `ReportTransformer.TransformMembership` | main.py:31-63 | A row is in the output iff it is the remapped image of an input row whose action is `Market buy` or `Market sell` and whose ticker is not `VNTRF` or `BRK.A` |
| `ReportTransformer.KeptRowsInOrder` | main.py:33-41 | The rows surviving both filters form an order-preserving subsequence of the input; each surviving row occurs as often as in the input, and no other row occurs |
| `ReportTransformer.TransformRowByRow` | main.py:31-63 | Position by position, the output is the surviving rows: action and other cells are unchanged; a ticker that is a table key becomes its mapped value, and any other ticker is unchanged |
| `ReportTransformer.TransformOutputIsClean` | main.py:31-63 | Every output row has an allowed action and an admitted ticker that the table no longer rewrites |
| `ReportTransformer.TransformIdempotent` | main.py:31-63 | Transforming the output again yields the output |
| `ReportTransformer.TransformExample` | main.py:31-63 | A buy of VWCE, a dividend of AAPL and a sell of BRK.A transform to the single buy of VWCE.DE |
| `ReportAcquirer.IsTruthyId` | main.py:87 | Definition of `if report_id:`: an answer holds an id only when it is present and non-zero, so both `None` and `0` are refusals; properties proved in `RequestReport`, `RunCreatesOnce` and `Acquire` |
| `ReportAcquirer.IsNonEmpty` | main.py:102 | Definition of the negation of `if not reports:`: the listing is present and has at least one entry; properties proved in `PollOnce` and `PollReports` |
| `ReportAcquirer.Matches` | main.py:109 | Definition of the filter lambda `report.get('reportId') == report_id`: an entry without a `reportId` never matches; properties proved in `FirstMatch`, `LastMatch` and `SelectReportIsLastMatch` |
| `ReportAcquirer.IsFinished` | main.py:112 | Definition of `report_dict.get('status') == 'Finished'`: a missing status is not finished; properties proved in `PollOnce`, `PollReports` and `RunDownloadsLast` |
| `ReportAcquirer.KeepsPolling` | main.py:102-117 | Definition of the retry condition: the listing is empty or `None`, or its newest matching entry is not finished; properties proved in `PollReports` and `Acquire` |
| `ReportAcquirer.Reversed` | main.py:109 | Definition of `reports[::-1]`; properties proved in `SelectReportIsLastMatch` |
| `ReportAcquirer.SelectReport` | main.py:108-110 | Definition of `next(filter(..., reports[::-1]))`; properties proved in `SelectReportIsLastMatch` |
| `ReportAcquirer.FirstMatch` | main.py:108-110 | `next(filter(...))`: the index of the first entry carrying the id, with no earlier one; `None` (StopIteration) exactly when no entry carries it |
| `ReportAcquirer.LastMatch` | main.py:107-110 | Reference definition: the index of the last entry carrying the id, with none after it; `None` exactly when none carries it |
| `ReportAcquirer.SelectReportIsLastMatch` | main.py:107-110 | The first match in the reversed listing is the last match in the listing, and there is none exactly when no entry has the id |
| `ReportAcquirer.PollVerdict` | main.py:102-117 | Definition of one poll's decision (retry on an empty or `None` listing or an unfinished newest match, error without a match, finished entry otherwise); properties proved in `PollOnce` and `PollReports` |
| `ReportAcquirer.Step` | main.py:84-119 | Definition of the protocol's transitions between requesting, backing off, waiting, polling, ready, done and failed; properties proved in `RunIsPaced`, `RunCreatesOnce` and `RunDownloadsLast` |
| `ReportAcquirer.Run` | main.py:84-119 | Definition of the phase a trace reaches from requesting, `None` for an illegal trace; properties proved in `RunIsPaced`, `RunCreatesOnce`, `RunDownloadsLast`, `RequestReport`, `PollReports` and `Acquire` |
| `ReportAcquirer.RunIsPaced` | main.py:84-117 | In every legal trace, a sleep separates any two calls to the service |
| `ReportAcquirer.RunCreatesOnce` | main.py:84-110 | Once an id is held, the trace has exactly one successful create call, which carries that non-zero id; every listing comes after it and no create call follows it; before that there is neither |
| `ReportAcquirer.RunDownloadsLast` | main.py:112-119 | Only the last event of a trace is a download, and it fetches the entry that the preceding non-empty listing selected as the newest `Finished` entry for the held id |
| `ReportAcquirer.RequestReport` | main.py:84-91 | The create loop consumes exactly the create answers up to and including the first truthy id, and then holds that id. With no truthy answer it consumes them all and stays requesting. Its trace is legal and contains no listing |
| `ReportAcquirer.PollOnce` | main.py:99-117 | One pass of the loop body makes one listing call. Its verdict is retry for an empty or `None` listing, or for a newest matching entry that is not finished; the trace is then back in polling after a sleep. A non-empty listing without a matching entry gives the error; otherwise the finished entry is selected and the trace is ready |
| `ReportAcquirer.PollReports` | main.py:96-119 | The poll loop consumes `polls` listings in order, and every listing before the last called for another poll. It ends on a non-empty listing with no entry for the id (error), or it downloads that listing's newest matching entry, which is `Finished`. With no decisive listing it consumes all of them and stays polling |
| `ReportAcquirer.Acquire` | main.py:84-119 | Create, then the fixed wait, then poll. The trace is legal, paced by sleeps, and ends in the phase that matches the outcome, and it consumes `calls` create answers and `polls` listings. The outcome is `CreatePending` exactly when no create answer is truthy; otherwise it carries the first truthy id, and the listings are as in `PollReports`. A download happens only as the last event, and only for a `Downloaded` outcome |
| `ReportingMonth.PreviousMonth` | main.py:17-18 | The month before today: a valid month numbered one less; none only for January of year 1, where the date arithmetic raises |
| `ReportingMonth.PreviousMonthWraps` | main.py:17-18 | January of year Y goes to December of Y-1; any other month goes to the previous month of the same year |
| `ReportingMonth.Format` | main.py:19 | `%Y-%m` formatting: seven characters, four year digits, a dash, two month digits, whose decimal values are the year and the month |
| `ReportingMonth.InputMonth` | main.py:16-28 | An empty answer yields the formatted previous month; a non-empty answer is returned unchanged; both fail only for January of year 1 |
| `ReportingMonth.DefaultIsPreviousMonth` | main.py:17-26 | Confirming the default by ENTER gives `YYYY-MM` digits that name exactly the month before today's |

## Left out

- S3 upload and the presigned URL (main.py:120-136), the e-mail (main.py:71-75, 137-149) and the configuration from `.env` and the environment (main.py:67-70): storage, network and configuration I/O.
- The Trading 212 client, `t212.Report` and `report.download()`: their code is not part of this model. The service is an oracle of answers, and the download is a `DownloadCall` event that carries the selected entry. The raw bytes are not modelled.
- `dataframe_utils.decode_to_df` and `encode_df` (main.py:125, 128), and `datetime_utils` for the first day of the month and of the next month (main.py:81-82): their code is not part of this model.
- `convert_dtypes()` (main.py:63): it changes no value and is taken as the identity. Rows hold only strings, so missing (NaN) cells are not modelled.
- `print`, `input()`, `date.today()` and `strptime` (main.py:17, 21-23, 79), and the log line `Report not yet ready.` (main.py:116): console, logging and clock I/O. Today's month and the typed answer are parameters.
- `time.sleep` durations (main.py:91, 94, 104, 117): only the order of the sleeps is modelled, as `Wait` events, not how long they last.
- The fields `timeFrom`, `timeTo` and `dataIncluded` of a listing entry: main.py never inspects them; it only forwards them with the rest of the selected record to `t212.Report(**report_dict)` (main.py:113). The model's `Entry` and `DownloadCall` do not carry them.
- Termination of the polling: the source has no attempt limit. The model runs until the oracle's answers run out, and never claims that the service eventually finishes.
- ReportingMonth.Format: years below 1000 are written with four zero-padded digits. The C library behind `strftime('%Y')` may not pad them.
