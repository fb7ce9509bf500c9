# nginx-logs-to-postgres, modelled in Dafny

`nginx-logs.go` follows an nginx access log written as one JSON object per
line. It buffers the lines and, once per flush window, parses the buffered
batch into rows of seventeen columns and bulk-copies into PostgreSQL the rows
newer than the table's newest timestamp as read at start-up. This project models the
part of that program that decides what is written:

- `Strconv`: Go's `strconv.ParseInt(s, 10, 64)`. It covers the optional
  sign and the digit loop, including overflow detected before a later
  non-digit. A syntax error gives 0; a range error gives a value clamped to
  the 64-bit bound. Lemmas pin down exactly which texts are accepted and
  prove the decimal round trip.
- `HexEscapes`: the regular expression `\\x[0-9A-F]{2}`, replaced by `?`
  before decoding. The replacement is left to right and matches never
  overlap. The proofs show that no escape is left and that the clean-up is
  idempotent.
- `Fields`: decoded JSON values, row cells and the three coercions
  `jsonGetInt`, `jsonGetFloat` and `jsonGetUid`. A Go `nil` (a missing key
  or JSON `null`) and the nginx placeholder `-` both give a null cell. A
  non-string value, which makes Go's type assertion panic, and a malformed
  number are errors.
- `LineParser`: `parseLine`. It decodes the line, parses `time`, builds the
  seventeen-cell row slot by slot, in the column order of the bulk write
  (`Columns` gives each slot's JSON key, which is also its column name, and
  its coercion), then nulls every `-` cell in place on an array. A Go panic is a
  `Failure` carrying the cause, and the first failing column decides it.
- `Storage`: `storeLogs`. It parses every line of a batch (any failure
  aborts before writing), keeps in order the rows strictly after the
  high-water mark, and writes them in one bulk write only when some row
  survives. It reports how many lines were stored and skipped. The table is
  a `Sink` object. Its state is the batches it has accepted and whether it
  accepts the next write, which the environment may change between writes.
- `Batching`: the loop of `processLogs` as a `Pipeline` object holding the
  buffer and the last flush time. `Step(line, now)` appends the line, then
  flushes when the whole milliseconds elapsed reach `FLUSH_MS`. A pure
  `Advance`/`Run` pair is the reference for it. Also modelled: the flush
  window read from `FLUSH_MS` and the high-water mark read at start-up.

Parsing steps that Go's libraries do are parameters of the model (the
`Decoders` record and `parseStored`): JSON decoding, RFC 3339 timestamps and
decimal floats. Instants are integers counted from Go's zero `time.Time`
(0001-01-01 00:00:00 UTC), which is instant 0. Clock readings are integers
(nanoseconds) passed to `Step`.

Two consequences of the code are worth stating outright:

- Flush timing. The loop appends a line before it checks the clock
  (`nginx-logs.go:143-151`). So with a 1000 ms window and lines received at
  0, 400 and 1200 ms, nothing is flushed at 0 or 400 ms, and one batch of all
  three lines is flushed at 1200 ms. `OneSecondWindowExample` proves this.
- No mark yet. With no stored maximum, the mark is Go's zero `time.Time`
  (`ZeroTime`) and the strict `After` test still applies.
  `FirstSyncKeepsAll` shows that every line timestamped after that zero time
  is kept, in order.

## Model

| member | source | states |
|---|---|---|
| Strconv.AccumulateDigitsMeaning | nginx-logs.go:28 | the digit loop accepts exactly digit strings whose value fits in 64 unsigned bits, with that value, and reports a range error otherwise |
| Strconv.AccumulateDigitsAppend | nginx-logs.go:28 | the digit loop over a digit prefix whose value fits in 64 unsigned bits continues from that value on whatever follows |
| Strconv.ParseIntSound | nginx-logs.go:28 | anything ParseInt accepts is an optionally signed decimal whose value is within the signed 64-bit range, and the result is that value |
| Strconv.ParseIntComplete | nginx-logs.go:28 | every optionally signed decimal within the signed 64-bit range is accepted with its value |
| Strconv.ParseIntOutOfRange | nginx-logs.go:28 | a well-formed decimal outside the signed 64-bit range is a range error clamped to the bound on its sign's side |
| Strconv.ParseIntMeaning | nginx-logs.go:28 | ParseInt succeeds if and only if the text is an in-range decimal, and then yields its value |
| Strconv.ParseFormatInt | nginx-logs.go:28 | parsing the decimal rendering of any 64-bit integer gives back that integer |
| HexEscapes.NormaliseHex | nginx-logs.go:54-58 | the cleaned line is never longer than the original |
| HexEscapes.NoEscapeLeft | nginx-logs.go:54-58 | after the replacement no `\x` followed by two upper-case hex digits remains anywhere, so the replacement never forms a new match |
| HexEscapes.NoEscapeUnchanged | nginx-logs.go:54-58 | a line without any escape is left unchanged |
| HexEscapes.Idempotent | nginx-logs.go:54-58 | cleaning a line twice is the same as cleaning it once |
| HexEscapes.LowerCaseDigitsNotMatched | nginx-logs.go:54 | a four-character `\x` sequence is replaced by `?` exactly when both digits are in `[0-9A-F]`; lower-case digits are kept |
| Fields.JsonGetInt | nginx-logs.go:24-33 | null exactly for nil or `-`; an in-range decimal string gives its integer; a non-string fails as a type error; any other string fails as a bad integer; an integer result is always an in-range decimal's value |
| Fields.JsonGetFloat | nginx-logs.go:35-44 | null exactly for nil or `-`; otherwise the float parser's value, or a bad-float error when it rejects the text; a non-string is a type error |
| Fields.JsonGetUid | nginx-logs.go:46-52 | null exactly for nil or `-`; otherwise success exactly when the string has at least four characters, and the result is the string minus its four-character prefix; a non-string is a type error |
| Fields.IntRoundTrip | nginx-logs.go:24-33 | the decimal text of any 64-bit integer coerces back to that integer |
| Fields.UidRoundTrip | nginx-logs.go:46-52 | a four-character tag followed by an identifier coerces back to the identifier |
| LineParser.Decode | nginx-logs.go:57-66 | undecodable cleaned text is malformed; otherwise a missing or non-string `time` is rejected, an unparsable one is a bad timestamp, and success carries the decoded object and the parsed time |
| LineParser.CoerceAllMeaning | nginx-logs.go:67-85 | the row, evaluated slot by slot left to right, succeeds exactly when every slot's coercion succeeds, and then has one cell per slot, cell i being slot i's coerced value |
| LineParser.CoerceAllFirstFailure | nginx-logs.go:67-85 | a failing row reports the error of the first slot, in row order, whose coercion fails |
| LineParser.WithoutPlaceholders | nginx-logs.go:86-90 | same length; no `-` cell remains; `-` cells become null and every other cell is unchanged |
| LineParser.ClearPlaceholders | nginx-logs.go:86-90 | the in-place loop leaves the array equal to the placeholder-free version of its old contents |
| LineParser.ParseLine | nginx-logs.go:56-92 | the method (copy into an array, then nulling in place) returns exactly the specified parse result |
| LineParser.ParsedLineShape | nginx-logs.go:56-92 | a parsed row has 17 cells in column order; the `time` column holds the line's timestamp; every cell is its column's coerced value with `-` nulled; no `-` cell remains |
| LineParser.ParseLineFirstFailure | nginx-logs.go:67-85 | a line that decodes but whose row fails reports the first failing column's error |
| Storage.Sink.CopyFrom | nginx-logs.go:103-112 | the bulk write appends the whole batch when the sink currently accepts writes and nothing otherwise, reports which, and leaves the acceptance state unchanged |
| Storage.Sink.SetHealthy | nginx-logs.go:103-111 | the environment (connection state, or a row the column types reject) decides whether the next write is accepted, without touching the accepted batches; so a write can fail after earlier writes succeeded |
| Storage.ParseAll | nginx-logs.go:96-97 | the batch parses exactly when every line parses, and then there is one parsed line per input line, each the parse of the line at the same index |
| Storage.ParseAllPrefixFailure | nginx-logs.go:96-97 | once a prefix of the batch fails to parse, the whole batch fails with that same error |
| Storage.SurvivingAppend | nginx-logs.go:95-101 | the filter distributes over concatenation, so kept rows stay in input order |
| Storage.SurvivingSingle | nginx-logs.go:98-100 | a single line is kept exactly when its timestamp is strictly after the mark |
| Storage.SurvivingCount | nginx-logs.go:115-117 | kept rows plus lines at or before the mark account for every line |
| Storage.SurvivingAllAfter | nginx-logs.go:98-100 | when every line is after the mark, every row is kept, in order |
| Storage.SurvivingNoneAfter | nginx-logs.go:98-100 | when no line is after the mark, nothing is kept and every line is counted as skipped |
| Storage.Store | nginx-logs.go:94-118 | a parse failure writes nothing and reports the parse error; when no row survives nothing is written and every line is reported skipped; a healthy sink with surviving rows receives exactly those rows as one batch and the call reports them stored and the rest skipped; an unhealthy sink with rows to write fails and receives nothing; on success stored plus skipped is the batch size and skipped counts the lines at or before the mark |
| Storage.ReplayIsSkipped | nginx-logs.go:94-118 | a batch whose every line parses with a timestamp at or before the mark writes nothing and reports every line skipped |
| Storage.FilterBatch | nginx-logs.go:95-101 | the loop returns the rows after the mark in input order, or the first parse error |
| Storage.StoreLogs | nginx-logs.go:94-118 | the method's result and the sink's new contents are those given by `Store` for the sink's acceptance state at the call, which the call does not change |
| Batching.ElapsedMs | nginx-logs.go:147 | whole milliseconds of the interval, truncated toward zero, for both signs |
| Batching.ElapsedMsAntisymmetric | nginx-logs.go:147 | reversing the interval negates the elapsed milliseconds |
| Batching.StartingMark | nginx-logs.go:127-141 | no stored maximum gives the zero time; a stored maximum gives its parsed instant, or a failure when it cannot be parsed |
| Batching.FlushWindowValue | nginx-logs.go:125 | an in-range decimal `FLUSH_MS` is the window; text ParseInt rejects with a syntax error gives 0; text it rejects with a range error (including digits that overflow before a later bad character) gives the 64-bit bound on its side |
| Batching.OverflowBeforeBadCharacter | nginx-logs.go:125 | digits that overflow 64 unsigned bits make `FLUSH_MS` a range error whatever follows them, bad characters included, so the window is the largest 64-bit integer rather than 0 |
| Batching.UnsetWindowIsZero | nginx-logs.go:125 | an unset `FLUSH_MS` gives a window of 0 |
| Batching.FlushDueMeaning | nginx-logs.go:147 | with a window of at least 1 ms, a flush is due exactly when the clock has advanced by at least the window |
| Batching.RunKeepsEveryLine | nginx-logs.go:143-152 | the flushed batches in order, followed by the buffer, are the previous buffer followed by every received line: nothing is lost, duplicated or reordered |
| Batching.RunSnoc | nginx-logs.go:143-152 | running one more arrival after a run is one more loop iteration from the state the run ended in |
| Batching.FlushAtArrival | nginx-logs.go:143-151 | arrival i flushes exactly when the flush is due at its clock reading, measured from the last flush before it; the flushed batch is the buffer left by the earlier arrivals followed by its line, and the buffer is then empty with i's reading as last flush; otherwise its line is only appended |
| Batching.RunBatchesEndWithTrigger | nginx-logs.go:143-152 | every flushed batch is non-empty and ends with a received line |
| Batching.ZeroWindowFlushesEveryLine | nginx-logs.go:125-152 | with a window of 0 or less and a clock that never goes back, each line is flushed alone as soon as it arrives |
| Batching.OneSecondWindowExample | nginx-logs.go:143-151 | with a 1000 ms window and lines at 0, 400 and 1200 ms, one batch of all three lines is flushed at 1200 ms |
| Batching.FirstSyncKeepsAll | nginx-logs.go:127-134 | without a stored maximum the mark is the zero time, and when every line parses with a timestamp after it, every line's row is kept, in order |
| Batching.Pipeline.constructor | nginx-logs.go:121-141 | a new pipeline has an empty buffer, the first clock reading as last flush, the `FLUSH_MS` window parsed with its error ignored, and the mark `StartingMark` gives for the table's maximum timestamp (a maximum that cannot be parsed stops the program before the loop) |
| Batching.Pipeline.Step | nginx-logs.go:143-151 | the new buffer and last flush time follow `Advance`; a flush hands the buffer to `storeLogs` and the sink receives exactly what `Store` writes for the sink's acceptance state at the call; after a failed flush the pipeline halts, keeping the line in its buffer |

## Left out

- JSON decoding, RFC 3339 timestamp parsing, `strconv.ParseFloat` and the parsing of the stored maximum timestamp (layout `2006-01-02 15:04:05`) are parameters. The model fixes only how their results are used.
- Fields.JsonGetFloat: the float is kept as the 64 bits of a double from the parameter parser; IEEE-754 rounding is not modelled.
- Fields.JsonGetUid: Go slices `s[4:]` by bytes, the model by characters. A value with multi-byte characters in its first four bytes is not modelled.
- Database I/O: connecting, `initDb`, the `MAX(time)` query and `CopyFrom`'s wire protocol. The sink accepts or rejects a whole batch as the environment decides; why the database rejects a batch is not modelled. A failing query is an absent maximum.
- Environment variables (`TABLE_SCHEMA`, `TABLE_NAME`, `FLUSH_MS`) appear only as the `FLUSH_MS` text given to the constructor.
- `main`, file tailing, the signal handler, the producer goroutine and the buffered channel. Lines reach `Step` one at a time, in arrival order.
- Logging, and the dump of the rows Go prints before panicking on a write failure. The reports carry only the counts it logs.
- A Go panic ends the process. The model returns a failure and marks the `Pipeline` halted, and `Step` requires a pipeline that has not halted.
- Batching.ElapsedMs: `time.Sub` saturates at the `Duration` bounds (about 292 years); this is not modelled.
- Time zones and the monotonic-versus-wall distinction. Instants and clock readings are plain integers.
