# company_searcher, modelled in Dafny

company_searcher reads a file of stock symbols written as a Python-style
dictionary (`{'AAPL': 'Apple', 'MSFT': 'Microsoft', ...}`), asks Yahoo
Finance's quoteSummary service for four figures of each symbol (market cap,
total debt, total cash, free cash flow), derives a net debt and a repayment
plan from them, and screens the company on them. Symbols are screened in
rounds of up to 30 threads, one per symbol; only the last thread of each round
is joined, and its CSV line is appended to `output.csv` when that symbol
passes the screen.

The model follows the two source files:

- `wrappers.dfy` — `Option` and `Result`.
- `json.dfy` (module `JsonValue`) — the part of serde_json's `Value` that
  company.rs uses: indexing by key or position, which gives `Null` for a step
  that is not there, and `as_i64`.
- `company.dfy` (module `Company`) — src/company.rs: the `Company` record,
  the `Error` enum, the two request URLs and `from_name_client`. The HTTP
  client is a function from URL to response (`TransportError`,
  `Undecodable`, or a decoded `Document`).
- `keys.dfy` (modules `Keys`, `KeysExample`) — `extract_keys` of
  src/main.rs: `str::split` on `", '"`, the text before the first `"': '"`,
  and `trim_matches` of `'` and `{`, with the count, position, order and
  trimming properties of the keys, and a worked example.
- `filter.dfy` (module `Filter`) — `filter` of src/main.rs: the fetch, the
  derived figures, the screen and the 11-field output row.
- `batch.dfy` (module `Batch`) — `main` of src/main.rs as an imperative
  method: the nested loops that spawn up to 30 threads per round, join one
  of them, append its row and count the round. `RunBatch` extracts the
  symbols and `ScreenInRounds` holds the loop.

## Model

| member | source | states |
|---|---|---|
| JsonValue.Get | src/company.rs:53 | indexing a value by a key or position that is not there gives `Null`; otherwise the member or item |
| JsonValue.MissingStepIsNull | src/company.rs:53-63 | `At`, the `[..]` chain: a path that breaks off at any step reads as `Null`, never a crash |
| JsonValue.AsI64 | src/company.rs:54 | `as_i64` yields only a value the leaf holds as an i64 (the converse is in `I64AtPresent`) |
| JsonValue.I64AtPresent | src/company.rs:53-63 | `I64At`, a path lookup followed by `as_i64` gives `v` exactly when every step exists and the leaf is the integer `v` in i64 range |
| Company.UrlsDifferOnlyInModule | src/company.rs:36-43 | `SummaryDetailUrl` and `FinancialDataUrl`: both URLs are the quoteSummary endpoint, the name, `?modules=`, then `financialData` or `summaryDetail`; the two differ |
| Company.QuoteUrlInjective | src/company.rs:36-43 | different names are requested at different URLs |
| Company.FromDocuments | src/company.rs:53-72 | on success the record carries the given name; a failure here is always a parse error, never a transport error |
| Company.FirstMissing | src/company.rs:53-63 | finds the first field, in checking order, that is missing or not an i64; all fields before it read |
| Company.FromDocumentsFollowsFieldOrder | src/company.rs:53-72 | fields are checked in the order marketCap, totalDebt, totalCash, freeCashflow; the first missing one decides the error; otherwise the four raw values are copied verbatim, negatives included, and `free_cash` holds totalCash |
| Company.FromDocumentsReadsOnlyItsPaths | src/company.rs:53-63 | marketCap is read only from the summaryDetail document and the other three only from the financialData document, each at its own path |
| Company.FromDocumentsReadsFigures | src/company.rs:53-72 | documents whose four paths hold the figures of a company read back as exactly that company |
| Company.MissingMarketCapStep | src/company.rs:53-54 | a market-cap path that breaks off at any step gives `MarketCapParseError` |
| Company.FromNameClient | src/company.rs:35-73 | a transport failure on either request gives `RequestError` before any body is looked at; `RequestError` exactly when one of the two responses is not a decoded document; `ResponseError` never; on success the name is the input |
| Company.FromNameClientRoundTrip | src/company.rs:35-73 | a service whose two documents hold a company's figures yields exactly that company |
| Company.FromNameClientCorrected | src/company.rs:50-51 | as `FromNameClient`, but `ResponseError` exactly when both requests went through and a body does not decode |
| Company.CorrectionOnlyRenamesDecodeError | src/company.rs:50-51 | the code as written and the corrected one differ only where the corrected one reports `ResponseError` |
| Company.DecodeFailureIsReportedAsRequestError | src/company.rs:50-51 | an undecodable summaryDetail body after both requests went through: `RequestError` as written, `ResponseError` corrected |
| Keys.Find | src/main.rs:16 | the leftmost occurrence of the pattern, or none exactly when the text does not contain it |
| Keys.Split | src/main.rs:16 | at least one piece; the pieces joined with the separator give back the text; no piece contains the separator |
| Keys.FirstPiece | src/main.rs:17 | `split(..).next()`: a prefix without the pattern that ends at the leftmost occurrence of the pattern, or the whole text when there is none |
| Keys.TrimMatches | src/main.rs:18 | a stretch of the text whose first and last characters are not `'` or `{`, with only `'` and `{` cut off on either side |
| Keys.KeyOf | src/main.rs:17-18 | the key of an item is the stretch of the item at `KeyStart` |
| Keys.SplitCount | src/main.rs:16 | splitting on a separator that cannot overlap itself gives one piece more than it has occurrences |
| Keys.ExtractKeys | src/main.rs:14-19 | `extract_keys`: one key per `, '`-separated item, so at least one; its count, positions, order and trimming are the lemmas below |
| Keys.KeyCount | src/main.rs:14-19 | the number of keys is the number of `", '"` in the file plus one, never zero; an empty file gives one empty key |
| Keys.KeyIsStretchOfInput | src/main.rs:14-19 | every key is a contiguous stretch of the file, at `KeyOffset` |
| Keys.KeysInInputOrder | src/main.rs:14-19 | keys come in file order, each ending at least a `", '"` before the next begins |
| Keys.KeysAreTrimmed | src/main.rs:17-18 | no key begins or ends with `'` or `{`, and none contains `"': '"` |
| KeysExample.WorkedExample | src/main.rs:14-19 | `{'A': 'x', 'B': 'y'}` yields `A` then `B` |
| Filter.Quotient | src/main.rs:36 | f64 division of finite values: finite exactly when the divisor is not zero, and then the quotient times the divisor gives the dividend |
| Filter.Minus | src/main.rs:36 | subtracting a non-finite value stays non-finite; otherwise the difference plus the subtrahend gives the minuend |
| Filter.Growth | src/main.rs:29-30 | `1.1^120` is above one |
| Filter.RepaymentFactor | src/main.rs:29-30 | the share of the net debt paid per period is above the 10% rate, so each payment reduces the debt |
| Filter.BalanceClosedForm | src/main.rs:29-30 | the balance left after `k` level payments at 10% per period, in closed form |
| Filter.RepaymentRetiresNetDebt | src/main.rs:29-30 | `yr10_repayment` is the level payment that pays the net debt off in exactly 120 periods at 10% per period |
| Filter.Derive | src/main.rs:27-36 | net debt (`NetDebt`) is debt minus cash plus 1.45 times market cap; the yearly repayment is 12 payments; levered cash flow plus repayment is the free cash flow; stress level is finite exactly when free cash flow is not zero, and is then levered cash flow over free cash flow |
| Filter.Accepts | src/main.rs:38-44 | the guard; a company that passes it owes at most 855 million net of its cash, since its market cap counts towards its net debt |
| Filter.Screen | src/main.rs:27-56 | a row exactly when market cap is in [100 million, 1 billion], net debt at most 1 billion and free cash flow not negative; the row holds name, the four figures, net debt, ratio, repayments, levered cash flow and stress level, in output order, with the repayment retiring the net debt and, for positive free cash flow, a finite ratio of net debt to free cash flow; for zero free cash flow, a non-finite ratio and stress level |
| Filter.Filter | src/main.rs:21-57 | `None` whenever the lookup fails; a row exactly when the lookup succeeds and the company passes the screen; the row carries the symbol |
| Filter.FilterServed | src/main.rs:21-44 | end to end from the service's documents: a company passes exactly when its market cap is within both bounds, its net debt at most 1e9 and its free cash flow not negative |
| Filter.MarketCapBoundsInclusive | src/main.rs:38-39 | market caps of exactly 100 million and 1 billion pass, one less and one more do not |
| Filter.ZeroFreeCashFlowPasses | src/main.rs:41 | a company with free cash flow zero passes, with an infinite ratio and a non-finite stress level |
| Filter.ScreenCorrected | src/main.rs:38-44 | drops zero free cash flow as well; every row has a finite ratio and stress level |
| Filter.FilterCorrected | src/main.rs:21-57 | every row of the corrected filter carries the symbol and finite ratio and stress level |
| Filter.FilterCorrectedAgrees | src/main.rs:41 | the corrected filter gives the same rows as the code, except that rows with zero free cash flow are dropped |
| Batch.RoundCountBounds | src/main.rs:72-94 | `ceil(n/30)` rounds: never more than `n`, zero only for no symbols, fewer than `n` from two symbols on |
| Batch.LastOfEachRound | src/main.rs:88 | one symbol per round, the last one that round spawned |
| Batch.Written | src/main.rs:88-90 | a joined thread writes one line exactly when it finished with `Some` |
| Batch.FilterThread | src/main.rs:77 | the thread for a symbol writes a line exactly when `filter` returns one |
| Batch.RowsOf | src/main.rs:88-90 | the rows of the first `k` joined threads number at most `k` |
| Batch.RowsAllAccepted | src/main.rs:88-90 | when every thread ends with a line, there is one row per thread |
| Batch.SpawnRound | src/main.rs:74-82 | a round spawns `min(30, remaining)` threads, one per next symbol, in order |
| Batch.RoundAdvance | src/main.rs:84-92 | the loop stops exactly when a round spawns nothing, which happens after `ceil(n/30)` rounds; every other round moves on to where the next begins |
| Batch.JoinedIsLastOfRound | src/main.rs:88 | the popped handle belongs to the last symbol the round spawned |
| Batch.ScreenInRounds | src/main.rs:72-94 | every symbol is spawned; `work_done` ends at `ceil(n/30)`; the file gains the rows of the last symbol of each round only |
| Batch.RunBatch | src/main.rs:59-94 | `all_work` is the key count (at least one); the loop draws exactly that many symbols; `work_done` ends at `ceil(all_work/30)`; output.csv gains the rows of the last symbol of each round |
| Batch.RowsLostToUnjoinedThreads | src/main.rs:88-92 | from two symbols on, even when every thread ends with a line, fewer rows are written than there are symbols, and `work_done` stays below `all_work` |
| Batch.TwoAcceptedSymbolsGiveOneRow | src/main.rs:88 | two symbols that both pass give a single row |
| Batch.ScreenInRoundsJoiningAll | src/main.rs:72-94 | joining every thread of each round in spawn order writes the rows of every symbol, in order, and counts one unit of work per symbol |
| Batch.RunBatchCorrected | src/main.rs:59-94 | the corrected `main`: output.csv gains the row of every accepted symbol in file order and `work_done` reaches `all_work` |

## Left out

- HTTP: `send`, `try_join!` and `.json()` are not modelled; the service is a function from URL to response (a failed request, a body that does not decode, or a decoded document). The causes carried by `RequestError` and `ResponseError` are not modelled, so the order in which the two bodies are decoded cannot be observed.
- The `async fn from_name_client` is called from `filter` with a blocking client and without `.await`; it is modelled as a plain synchronous function.
- serde_json internals: a small `Json` datatype stands for `Value`; floats are kept only as a bit pattern, which `as_i64` rejects.
- f64 arithmetic: `filter`'s derived figures are computed on exact reals. Rounding of the i64-to-f64 conversions and of each operation is not modelled, so the `net_debt > 1e9` test is decided exactly, and `powf(120.0)` is the exact power. Division by zero gives the infinity or NaN IEEE 754 prescribes; the sign of zero is not tracked.
- Filter.Screen: the output line is modelled as its 11 fields in order, not as the text `format!` renders; f64 Display formatting is not modelled.
- Threads: rounds run sequentially. A thread's end is an input (`Joined`: finished with `filter`'s result, or panicked). `FilterThread` never panics, because the code that could panic is not modelled. The up to 29 handles dropped each round detach threads that go on running `filter` and issuing requests; those side effects are not modelled.
- File I/O: `read_to_string`, `OpenOptions`, `write!` and the `expect` panics are not modelled. The file's contents are a parameter and output.csv is a sequence of rows appended to what it held before. The `println!` of the progress percentage is not modelled beyond the `work_done` and `all_work` counters it divides.
- The `lazy_static` global client is the `client` parameter.

## Findings

| source | as written | input that shows it | evidently intended | confidence | as-written member | corrected member |
|---|---|---|---|---|---|---|
| src/company.rs:50-51 | `.json().await?` fails with a `reqwest::Error`, which `?` turns into `RequestError`; `ResponseError` is never produced | both requests succeed and the summaryDetail body is not JSON | a body that does not decode is a `ResponseError` | medium, not executed | Company.DecodeFailureIsReportedAsRequestError | Company.FromNameClientCorrected |
| src/main.rs:41 | only a negative free cash flow is rejected; zero passes, and the ratio and stress level divide by zero | market cap 100,000,000, debt 0, cash 0, free cash flow 0 | drop companies whose free cash flow is not positive | medium, not executed | Filter.ZeroFreeCashFlowPasses | Filter.ScreenCorrected |
| src/main.rs:88-92 | each round pops and joins only the last handle; the other rows are lost and `work_done` grows by one per round | two symbols that both pass: one row is written and progress ends at 50% | join every handle and count each symbol | high, not executed | Batch.RowsLostToUnjoinedThreads | Batch.RunBatchCorrected |
