# Kinesis replay: header/record normaliser and replay loop

This project models two sequential parts of the taxi-trip replay in Dafny and
proves properties about them. The replay reads historical trip records and
re-emits them into a Kinesis stream, reproducing their original timing.

- **`DataNormalizer`** (`data_normalizer.dfy`) models the CSV normaliser.
  - `normalizeHeader` strips a column name, lower-cases it and maps it through
    the eight-entry alias table `headers`. The list overload rewrites a header
    list in place.
  - `list2map` zips a header and a CSV row into a map.
  - `normalizeRecord` re-types the values of a record by the class of their
    key: date-time keys, `trip_distance`, the `doubles` keys and the `longs`
    keys.
- **`Replay`** (`stream_populator.dfy`) models `StreamPopulator.populate` and
  `ingestEvent`.
  - `populate` first primes the event buffer. The loop then takes each event,
    sleeps when the event is early and ingests it. It reports statistics once
    per time slot. It ends with the `finally` cleanup.
  - `ingestEvent` either sends the event to the producer, acquiring a
    backpressure permit when backpressure is on, or, in a dry run, writes a
    throttled trace line.
  - The loop is specified by the functions `Step`, `Run` and `Populated` over
    a log of `Effect`s. The class `StreamPopulator` implements the loop
    imperatively, and its methods are proved equal to those functions.
- Supporting modules:
  - `StringUtils` (`string_utils.dfy`): `strip`, `lowerCase` and
    `Character.isWhitespace`.
  - `JavaLong` (`java_long.dfy`): the range of `long`, `Long.parseLong`,
    `Long.toString` and the truncating `/`.
  - `ReplayLog` (`replay_log.dfy`): events, the effect log and its
    selections.
  - `Wrappers` (`wrappers.dfy`): `Option` and `Result`.

The environment of `populate` becomes parameters:
- The event buffer is the sequence of events it will yield. `take` removes
  the head, `peek` is the head or nothing, `hasNext` tests for emptiness and
  `size` is the length.
- The clock is a function from the index of a reading to milliseconds. Each
  `currentTimeMillis()` or `now()` call consumes one reading.
- Thread interruption is a schedule, `Interrupts`. It says whether the
  `InterruptedException` arrives in `fill()`, and in which iteration's
  `take()` or pacing sleep.
- The producer, the semaphore, `Thread.sleep` and the logger are
  represented only by the `Effect`s they record, in order.

Some behaviour of the code worth noting, all of it modelled as written:
- `ingestEvent` calls `addUserRecord` first and `acquire` after it, not the
  other way round.
- `ingestEvent` declares no `InterruptedException`, so the semaphore's
  `acquire` is not a point where the loop can be cancelled.
- The statistics line carries the time stamp of the next buffered event,
  `eventBuffer.peek().timestamp`. It is not the last event sent.
- `populate` lets two exceptions escape. A report that is due while the
  buffer is empty dereferences the `null` that `peek()` returns
  (`Exit.NullPointer`). A zero statistics frequency divides by zero
  (`Exit.DivisionByZero`). The cleanup still runs on both paths.
- `normalizeRecord` treats a `null` value (`Value.Null`) as empty, because
  `StringUtils.isEmpty(null)` holds. Under `trip_distance`, a `doubles` key or
  a `longs` key it becomes `0L` or `0.0`. Under a date-time key the parser
  throws, and the exception is rethrown as `IllegalArgumentException`. Under
  any other key it stays `null`.

Both quirks of `DataNormalizer` are kept as written:
- `doubles` lists two of its keys twice, so it has two members.
- `list2map` loops to `headers.size()` (8) rather than to the length of the
  header.

## Model

| member | source | states |
|---|---|---|
| StringUtils.Strip | src/main/java/com/amazonaws/samples/kinesis/replay/utils/DataNormalizer.java:53 | `StringUtils.strip` yields a string with no white space at either end, no longer than its argument |
| StringUtils.StripIsSlice | src/main/java/com/amazonaws/samples/kinesis/replay/utils/DataNormalizer.java:53 | what `strip` returns is a slice of its argument; only white space was removed before and after it |
| StringUtils.LowerCase | src/main/java/com/amazonaws/samples/kinesis/replay/utils/DataNormalizer.java:54 | `lowerCase` keeps the length and maps every character through the lower-case mapping |
| StringUtils.LowerCaseIsLower | src/main/java/com/amazonaws/samples/kinesis/replay/utils/DataNormalizer.java:54 | lower-casing yields a lower-case string and leaves a lower-case string unchanged |
| StringUtils.StripLower | src/main/java/com/amazonaws/samples/kinesis/replay/utils/DataNormalizer.java:53-54 | stripping and lower-casing commute |
| StringUtils.StripPadded | src/main/java/com/amazonaws/samples/kinesis/replay/utils/DataNormalizer.java:53 | white space added around a string does not change what `strip` returns |
| JavaLong.ParseLong | src/main/java/com/amazonaws/samples/kinesis/replay/utils/DataNormalizer.java:82 | `Long.parseLong` succeeds exactly on an optional `-` or `+` followed by at least one decimal digit whose value fits in a `long` (up to 2^63 after a `-`, 2^63 - 1 otherwise), and then returns that value, negated after a `-` |
| JavaLong.ParseLongNonCanonical | src/main/java/com/amazonaws/samples/kinesis/replay/utils/DataNormalizer.java:82 | leading zeros, a `+` sign and `-0` are accepted (`"007"` is 7, `"+5"` is 5, `"-0"` is 0); `""`, `"-"` and `"1e3"` are refused |
| JavaLong.ParseFormat | src/main/java/com/amazonaws/samples/kinesis/replay/utils/DataNormalizer.java:82 | `Long.parseLong(Long.toString(n)) == n` for every `long` |
| JavaLong.Div | src/main/java/com/amazonaws/samples/kinesis/replay/StreamPopulator.java:136 | Java's long `/` rounds toward zero: the quotient's magnitude is the floor of the magnitudes' quotient, and its sign is the product of the operands' signs; the exception is `Long.MIN_VALUE / -1`, which wraps to `Long.MIN_VALUE`; a quotient of two longs is always a long |
| DataNormalizer.LookupFound | src/main/java/com/amazonaws/samples/kinesis/replay/utils/DataNormalizer.java:20-29 | a lookup in the alias table succeeds exactly for the listed keys, and it yields a listed pair |
| DataNormalizer.AliasKeysDistinct | src/main/java/com/amazonaws/samples/kinesis/replay/utils/DataNormalizer.java:20-29 | the eight alias keys are distinct, so `headers.size()` is 8 |
| DataNormalizer.AliasTargetsNotKeys | src/main/java/com/amazonaws/samples/kinesis/replay/utils/DataNormalizer.java:20-29 | no alias target is itself an alias key |
| DataNormalizer.AliasTargetsNormal | src/main/java/com/amazonaws/samples/kinesis/replay/utils/DataNormalizer.java:20-29 | every alias target is stripped, lower-case and not an alias key |
| DataNormalizer.NormalizeHeaderNormalForm | src/main/java/com/amazonaws/samples/kinesis/replay/utils/DataNormalizer.java:52-57 | with `k` the stripped, lower-cased name, the result is `headers[k]` when `k` is an alias key and `k` otherwise; either way it is stripped, lower-case and not an alias key |
| DataNormalizer.NormalizeHeaderIdempotent | src/main/java/com/amazonaws/samples/kinesis/replay/utils/DataNormalizer.java:52-57 | normalising a header name twice gives what normalising it once gives |
| DataNormalizer.NormalizeHeaderInsensitive | src/main/java/com/amazonaws/samples/kinesis/replay/utils/DataNormalizer.java:52-57 | surrounding white space and letter case do not change the normalised name |
| DataNormalizer.NormalizeHeaders | src/main/java/com/amazonaws/samples/kinesis/replay/utils/DataNormalizer.java:45-50 | the list overload replaces each element `i` by `normalizeHeader(old[i])`, in place and with the same length, and returns the very list it was given |
| DataNormalizer.NormalizeHeadersIdempotent | src/main/java/com/amazonaws/samples/kinesis/replay/utils/DataNormalizer.java:45-50 | running the list overload a second time changes no element |
| DataNormalizer.List2Map | src/main/java/com/amazonaws/samples/kinesis/replay/utils/DataNormalizer.java:91-101 | fails with an index error exactly when the header has fewer than 8 columns; otherwise the keys are the first 8 header names, each maps to its cell or `""` when the row is shorter, a later duplicate name wins, and columns from the ninth on are ignored |
| DataNormalizer.DoublesQuirk | src/main/java/com/amazonaws/samples/kinesis/replay/utils/DataNormalizer.java:36-41 | the four-entry `doubles` table has two members, so `pickup_latitude` and `dropoff_longitude` are never converted |
| DataNormalizer.NormalizeEntry | src/main/java/com/amazonaws/samples/kinesis/replay/utils/DataNormalizer.java:59-89 | per key class: a value that is neither a string nor `null` fails with a cast error; a date-time value is kept exactly when it is a string that parses; an empty or `null` `trip_distance` or `longs` value becomes `0L`, and a `doubles` value `0.0`; otherwise a `longs` value becomes `Long.parseLong(v)`, a `doubles` value `Double.parseDouble(v)` and `trip_distance` `mile2meter(Double.parseDouble(v))`, succeeding exactly when the parse does; an untyped value is unchanged; every `IllegalArgumentException` (`InvalidValue`) names the key and the value, while the cast failure (`NotAString`) carries only the key |
| DataNormalizer.Record.constructor | src/main/java/com/amazonaws/samples/kinesis/replay/utils/DataNormalizer.java:59 | the record holds the given fields |
| DataNormalizer.NormalizeRecord | src/main/java/com/amazonaws/samples/kinesis/replay/utils/DataNormalizer.java:59-89 | the in-place loop over the entry set leaves the record, and throws the error, that `NormalizeFields` gives for the same iteration order |
| DataNormalizer.NormalizeKeepsKeys | src/main/java/com/amazonaws/samples/kinesis/replay/utils/DataNormalizer.java:59-89 | the key set is unchanged, whether the normaliser succeeds or throws |
| DataNormalizer.NormalizeKeepsUnconverted | src/main/java/com/amazonaws/samples/kinesis/replay/utils/DataNormalizer.java:35-43 | values under date-time keys and untyped keys (`pickup_latitude` and `dropoff_longitude` among them) are never changed |
| DataNormalizer.NormalizeSuccess | src/main/java/com/amazonaws/samples/kinesis/replay/utils/DataNormalizer.java:59-89 | the normaliser completes exactly when every entry converts, and then every entry holds its converted value |
| DataNormalizer.NormalizeFailure | src/main/java/com/amazonaws/samples/kinesis/replay/utils/DataNormalizer.java:63-87 | when it throws, the exception is the first failing entry's (its key and value); earlier entries are converted and the rest keep their old values |
| Replay.PacingDelay | src/main/java/com/amazonaws/samples/kinesis/replay/StreamPopulator.java:124-129 | the loop sleeps only when `ingestionTime` is after `now`, and then for exactly `ingestionTime - now` ms; when behind schedule it does not sleep |
| Replay.IngestFacts | src/main/java/com/amazonaws/samples/kinesis/replay/StreamPopulator.java:161-180 | a dry run traces the event (becoming `traceEvent`) only when nothing was traced yet or it is due more than 1000 ms later, and never sends or acquires; otherwise the event is sent once, a permit is acquired exactly when the semaphore exists, and `traceEvent` is kept |
| Replay.IngestQuiet | src/main/java/com/amazonaws/samples/kinesis/replay/StreamPopulator.java:161-180 | `ingestEvent` takes nothing, never sleeps, reports nothing and runs no cleanup |
| Replay.StatisticsFacts | src/main/java/com/amazonaws/samples/kinesis/replay/StreamPopulator.java:136-146 | a zero frequency throws; a report is made exactly when the truncated slot differs from the last one, and it carries the count, the next event's time stamp and the buffer size; afterwards the count is 0 and the last slot is re-read; with no report only the clock moves; a due report on an empty buffer is a null dereference |
| Replay.StatisticsQuiet | src/main/java/com/amazonaws/samples/kinesis/replay/StreamPopulator.java:136-146 | the statistics block fails only by its two exceptions: the division by zero exactly when the frequency is 0, the null dereference only on an empty buffer; it either leaves the count alone or reports it and resets it to 0 |
| Replay.ProceedExits | src/main/java/com/amazonaws/samples/kinesis/replay/StreamPopulator.java:131-146 | after pacing, the iteration takes nothing, never sleeps and runs no cleanup; it fails only in the statistics block (by division by zero exactly when the frequency is 0) and leaves the buffer alone |
| Replay.ProceedIngests | src/main/java/com/amazonaws/samples/kinesis/replay/StreamPopulator.java:131-146 | after pacing, the producer, the semaphore and the trace log see exactly what `ingestEvent` does |
| Replay.ProceedCounts | src/main/java/com/amazonaws/samples/kinesis/replay/StreamPopulator.java:133-145 | the count rises by exactly one per ingested event, or the batch that includes it is reported and the count resets to 0 |
| Replay.StepTakes | src/main/java/com/amazonaws/samples/kinesis/replay/StreamPopulator.java:121-122 | an iteration ends in `take()` exactly when interrupted there, and then changes nothing; otherwise it takes exactly the head of the buffer |
| Replay.StepExits | src/main/java/com/amazonaws/samples/kinesis/replay/StreamPopulator.java:121-150 | an iteration runs no cleanup and ends only normally, by an interruption in `take()` or the sleep (each only when the schedule interrupts that iteration there), or by one of the two statistics exceptions (the division by zero exactly when the frequency is 0 and the iteration got that far) |
| Replay.StepSleeps | src/main/java/com/amazonaws/samples/kinesis/replay/StreamPopulator.java:124-129 | an iteration sleeps exactly when its event is early, by exactly the gap, and it ends in the sleep exactly when it slept and the schedule interrupts it there |
| Replay.StepDrops | src/main/java/com/amazonaws/samples/kinesis/replay/StreamPopulator.java:126-131 | an iteration interrupted in its sleep neither ingests nor counts its event |
| Replay.StepIngests | src/main/java/com/amazonaws/samples/kinesis/replay/StreamPopulator.java:131 | an iteration that gets past the sleep ingests its event exactly once |
| Replay.StepCounts | src/main/java/com/amazonaws/samples/kinesis/replay/StreamPopulator.java:133-145 | an iteration that ingests adds one to the count, or it reports the batch including its event and resets the count |
| Replay.RunOrder | src/main/java/com/amazonaws/samples/kinesis/replay/StreamPopulator.java:121-147 | the loop takes events in buffer order, one per iteration, with none skipped; the events not taken stay in the buffer |
| Replay.RunExits | src/main/java/com/amazonaws/samples/kinesis/replay/StreamPopulator.java:121-150 | the loop ends normally only when `hasNext()` is false, runs no cleanup itself, and is interrupted in a sleep only after a take |
| Replay.RunSends | src/main/java/com/amazonaws/samples/kinesis/replay/StreamPopulator.java:131-177 | every ingested event is sent once and in order (none in a dry run); permits are acquired once per sent event with backpressure and never without it |
| Replay.RunCounts | src/main/java/com/amazonaws/samples/kinesis/replay/StreamPopulator.java:133-145 | the reported counts plus the final count equal the starting count plus the number of ingested events |
| Replay.RunReportsNonEmpty | src/main/java/com/amazonaws/samples/kinesis/replay/StreamPopulator.java:133-145 | every report covers at least one event, and the count never becomes negative |
| Replay.SpacedAppend | src/main/java/com/amazonaws/samples/kinesis/replay/StreamPopulator.java:163 | throttled trace sequences compose: a spaced run continued from its last traced event is spaced |
| Replay.RunThrottle | src/main/java/com/amazonaws/samples/kinesis/replay/StreamPopulator.java:162-168 | in a dry run each traced event is due more than 1000 ms after the one traced before it, and `traceEvent` ends as the last traced event |
| Replay.RunNoDrops | src/main/java/com/amazonaws/samples/kinesis/replay/StreamPopulator.java:121-147 | with no interruption in any later `take()` or sleep and a non-zero frequency, the loop ends normally or by the null dereference, never early |
| Replay.RunCatchUp | src/main/java/com/amazonaws/samples/kinesis/replay/StreamPopulator.java:124-131 | a loop that is behind schedule at every clock reading never sleeps |
| Replay.PopulateCleansUpOnce | src/main/java/com/amazonaws/samples/kinesis/replay/StreamPopulator.java:150-157 | on every path the cleanup (`interrupt`, `flushSync`, `destroy`) runs exactly once, last, and in that order |
| Replay.PopulateNoEvents | src/main/java/com/amazonaws/samples/kinesis/replay/StreamPopulator.java:107-115 | an interrupted `fill()` or an empty buffer ends `populate` before any take, with nothing but the cleanup |
| Replay.PopulateOrder | src/main/java/com/amazonaws/samples/kinesis/replay/StreamPopulator.java:121-147 | events are taken in buffer order, each at most once; a normal end has taken them all |
| Replay.PopulateSends | src/main/java/com/amazonaws/samples/kinesis/replay/StreamPopulator.java:162-177 | over a whole replay, ingested events are sent in order (none in a dry run), with one permit acquired per send exactly when backpressure is on |
| Replay.PopulateNoDrops | src/main/java/com/amazonaws/samples/kinesis/replay/StreamPopulator.java:100-158 | with no interruption at all and a non-zero frequency, `populate` takes every buffered event, sends every one in order unless in a dry run, and ends normally, with no events, or by the null dereference |
| Replay.PopulateCounts | src/main/java/com/amazonaws/samples/kinesis/replay/StreamPopulator.java:101-145 | over a whole replay, the reported counts plus the final count equal the number of ingested events, and no report is empty |
| Replay.PopulateThrottle | src/main/java/com/amazonaws/samples/kinesis/replay/StreamPopulator.java:160-168 | over a whole dry run, traces are more than 1000 ms apart, and `traceEvent` ends as the last one |
| Replay.PopulateCatchUp | src/main/java/com/amazonaws/samples/kinesis/replay/StreamPopulator.java:124-129 | a replay that is behind schedule at every clock reading never sleeps |
| Replay.StreamPopulator.constructor | src/main/java/com/amazonaws/samples/kinesis/replay/StreamPopulator.java:54-97 | keeps `notSend` and the statistics frequency; the semaphore exists exactly when backpressure is not disabled; nothing has been traced yet |
| Replay.StreamPopulator.IngestEvent | src/main/java/com/amazonaws/samples/kinesis/replay/StreamPopulator.java:161-180 | updates `traceEvent` and makes the calls that `Ingest` specifies |
| Replay.StreamPopulator.ReportStatistics | src/main/java/com/amazonaws/samples/kinesis/replay/StreamPopulator.java:136-146 | the statistics block on the loop's locals is exactly `Statistics` |
| Replay.StreamPopulator.Process | src/main/java/com/amazonaws/samples/kinesis/replay/StreamPopulator.java:131-146 | the ingest, count and statistics part of an iteration is exactly `Proceed` |
| Replay.StreamPopulator.Iterate | src/main/java/com/amazonaws/samples/kinesis/replay/StreamPopulator.java:122-146 | one pass through the loop body is exactly `Step` |
| Replay.StreamPopulator.Populate | src/main/java/com/amazonaws/samples/kinesis/replay/StreamPopulator.java:100-158 | the whole method is exactly `Populated`, so every `Populate…` lemma holds of it: its exit, the buffer, `traceEvent` and the log |

## Left out

- `main`, the command-line options and their defaults, and `Instant.parse` of the seek time: argument plumbing.
- The constructor's wiring of `S3Client`, `KinesisProducer`, `EventReader` (with `seek`) and `EventBuffer.start()`: external services and thread start-up. The constructor model keeps only the fields that the loop reads.
- `EventBuffer` and `BackpressureSemaphore` are not part of this model. Their point is concurrency. The buffer is the sequence of events it yields, and an acquire is a logged `Acquire`. Nothing models permits, blocking or release on completion.
- Real threads: `Thread.sleep` is a logged duration and nothing waits. An `InterruptedException` is an input schedule. The buffer's `fill()` only primes it, so events the background reader would add later are assumed to be in the sequence from the start.
- Floating point: the statistics rate `Math.round(1000.0 * count / freq)` is omitted from the `Report` effect. `mile2meter` and `Double.parseDouble` are uninterpreted parameters (`Parsers`), and a `double` is its IEEE bit pattern.
- `FastDateFormat.parse` is a validity predicate in `Parsers`. The date pattern is not modelled.
- `event.hashCode()` as the partition key, `toByteBuffer`, the stream name and all logging other than the statistics line and the dry-run trace.
- `null` header names, a `null` header list and `null` cells in a CSV row: `normalizeHeader` and `list2map` are modelled on lists of strings. A `null` record value is modelled.
- StringUtils.LowerCase: maps only the ASCII and Latin-1 upper-case letters. Other Unicode case mappings and locale-specific rules are not modelled, such as the Turkish dotted I.
- JavaLong.ParseLong: accepts only ASCII digits. `Long.parseLong` also accepts other Unicode decimal digits.
- The `TreeMap` key order of `list2map`'s result is not modelled: `List2Map` returns an unordered map, and `NormalizeRecord` accepts any iteration order, the sorted one included.
- `normalizeRecord` walks `entrySet()` in the map's iteration order. That order is a parameter (any ordering of the keys), not the ordering of a particular map class.
- Replay.StreamPopulator.Populate: a clock difference is unbounded, so it is not checked against `long` overflow. The `long` counter `statisticsBatchEventCount` is an unbounded integer too, so its wrap after 2^63 - 1 events is not modelled. `Duration` is taken at millisecond resolution, so a sub-millisecond gap is not modelled.
- Replay.PopulateOrder: "a normal end or the null dereference has taken every event" holds because the modelled buffer holds every event from the start. In the program a background thread fills `eventBuffer`, so `peek()` can return `null` in the middle of a replay whenever the loop has drained the buffer while `hasNext()` would still be true. The model does not capture that `NullPointerException`, nor a loop that waits in `take()` for the reader.
- Replay.PopulateNoDrops: rests on the same whole-buffer abstraction as `Replay.PopulateOrder`. With a background reader, an uninterrupted replay can still end early by the `NullPointerException` of a report that is due while the buffer is momentarily empty.
