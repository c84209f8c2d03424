# go-log in Dafny

A model of `log.go`, a small levelled logger with several outputs. Callers log a message at a
severity level. The `Logger` holds an ordered list of outputs, each a (writer, threshold,
formatter) triple. For every output whose threshold the level reaches, it formats the
message and writes the bytes to that output's writer. The standard formatter builds a line
from optional date/time segments, the level name, a prefix, an optional caller `file:line`
and the message, all joined by single spaces.

Files:

- `options.dfy`: module `Options`, the `Option` datatype.
- `decimal.dfy`: module `Decimal`. It gives the decimal renderings the formatter uses
  (`strconv.Itoa`, `%d`, `%v`, `%02d`, `%06d`), each proved against `Value`, the number a
  string of digits denotes.
- `levels.dfy`: module `Levels`. It has `Level` (a `uint8`), the six named levels, the plain
  and coloured name tables, and `String2Level`.
- `formatting.dfy`: module `Formatting`. It models `StdFormatter.Format` as pure functions.
  The clock reading and the result of the caller lookup are parameters.
- `logging.dfy`: module `Logging`. It has the `Logger` class, with `New`, `AddOutput`, `Log`,
  `Logf` and the six convenience methods. The effect of a `Log` call is specified by the
  function `Dispatch`.

Writers are opaque identifiers (`WriterId`). The `writes` field of a `Logger` records every
`Write` call, with its writer and bytes, in order. The `Formatter` interface is either the
standard formatter or any other implementation, given as a function from level and message
to bytes.

The date segment zero-pads month and day with `%02d` (log.go line 106).

## Model

| member | source | states |
|---|---|---|
| `Levels.LevelCStrings` | log.go:46-53 | the coloured table names exactly the same levels as the plain table |
| `Levels.ColoredNamesFollowHighlight` | log.go:46-53 | Trace and Debug keep their plain names in the coloured table; Info, Warning, Error and Fatal are their plain name wrapped by `AnsiEscape` between their colour and `OFF`; only Fatal is bold |
| `Levels.NamesUnique` | log.go:36-43 | no two named levels share a name |
| `Levels.FindName` | log.go:61-65 | the range loop over the name table, visiting levels in a given order, yields a visited level with that name, or none when no visited level has it |
| `Levels.FindNameComplete` | log.go:61-66 | a search of the whole table finds a level exactly when the name is in the table |
| `Levels.IterationOrderIrrelevant` | log.go:61-65 | every iteration order over the table's levels finds the same level, so the map's unspecified order does not affect the result |
| `Levels.String2Level` | log.go:57-67 | no error exactly when the name is one of the six table names, and then the level's table name is that name; otherwise Debug with "level is empty" for "" or "Wrong log level " + name |
| `Levels.String2LevelOfName` | log.go:57-67 | each table name parses back to its own level without error |
| `Levels.String2LevelExamples` | log.go:57-67 | "ERROR" gives (Error, nil); "" and "NOSUCHLEVEL" give Debug with their error messages |
| `Decimal.NatToString` | log.go:123 | the decimal rendering is non-empty, digits only, with no leading zero except for 0 |
| `Decimal.ValueOfNatToString` | log.go:123 | the rendering reads back as the number |
| `Decimal.NatToStringLength` | log.go:106-111 | a number below 10^k has at most k digits |
| `Decimal.IntToString` | log.go:140 | a non-negative integer renders as its shortest digit string (no leading zero except for 0) denoting it; a negative one as '-' followed by the shortest digits of its magnitude |
| `Decimal.ZeroPad` | log.go:106-111 | `%0Nd` yields digits denoting the number, padded to N characters and never truncated |
| `Formatting.Join` | log.go:147 | `strings.Join`; its meaning is stated by `JoinConcat`, `JoinEndsWithLast` and `JoinLayout` |
| `Formatting.JoinConcat` | log.go:147 | joining two non-empty runs of segments puts exactly one separator between them |
| `Formatting.DateSegment` | log.go:105-107 | `%v-%02d-%02d`: for a non-negative year and two-digit month and day, the year's digits, '-', the month in two digits, '-', the day in two digits, each reading back as its value |
| `Formatting.ClockSegment` | log.go:109-111 | `%02d:%02d:%02d`: for a valid time of day, eight characters with colons at 2 and 5, each field reading back as hour, minute and second |
| `Formatting.FractionAsWritten` | log.go:109 | the fraction field as written denotes Nanosecond()/1000000, i.e. milliseconds, in exactly six digits |
| `Formatting.FractionAsWrittenLosesMicroseconds` | log.go:109 | at 123456789 ns the field as written reads 000123, not the 123456 microseconds |
| `Formatting.Fraction` | log.go:108-109 | the corrected field denotes the microseconds Nanosecond()/1000, in exactly six digits |
| `Formatting.TimeSegments` | log.go:103-114 | one segment for the date when its flag is set and one more when the microseconds or time flag is set; the date comes first; the time segment is the clock plus "." and the as-written fraction under the microseconds flag, otherwise the plain clock |
| `Formatting.LevelName` | log.go:116-125 | a named level renders as its plain or coloured table entry per `Colored`; any other level renders as digits denoting its value |
| `Formatting.LevelNameUncolored` | log.go:116-125 | Trace, Debug and unnamed levels render the same whether or not `Colored` is set; an unnamed level renders as its decimal string |
| `Formatting.LevelNameOf99` | log.go:122-124 | level 99 renders as "99", coloured or not |
| `Formatting.LastSlash` | log.go:133-138 | the backwards scan finds the largest index of at least 1 holding '/', or reports none |
| `Formatting.ShortFile` | log.go:132-139 | the path is unchanged exactly when it has no '/' at an index of at least 1; otherwise the result is the part after the last '/' and holds no '/' |
| `Formatting.CallerSegment` | log.go:130-144 | no caller segment without a file flag; with one, "???" for an unresolved caller, and otherwise `file:line`, with the file shortened by `ShortFile` under the short-file flag and the line in decimal |
| `Formatting.JoinEndsWithLast` | log.go:146-147 | a join of at least two segments ends with the separator followed by the last segment |
| `Formatting.Segments` | log.go:100-146 | the segments are the time segments, then the level name, then the prefix, then the caller segment if any, and the message last |
| `Formatting.JoinLayout` | log.go:146-147 | joining time segments, level, prefix, the optional caller and the message with spaces, written out piece by piece |
| `Formatting.FormatLayout` | log.go:97-148 | a formatted line is the time segments, the level name, the prefix (even when empty), the optional caller segment and the message, in that order, separated by single spaces |
| `Formatting.FormatPlain` | log.go:125-127 | without date, time or file flags a line is name + " " + prefix + " " + msg |
| `Formatting.FormatEmptyPrefix` | log.go:127 | with an empty prefix and no flags, two spaces separate the level name from the message |
| `Formatting.FormatUnresolvedCaller` | log.go:141-143 | with a file flag and no date, time or microseconds flag, an unresolved caller appears as " ??? " between the prefix and the message |
| `Formatting.Format` | log.go:97-148 | every line ends with a space followed by the message; its full layout is stated by `FormatLayout` |
| `Logging.Render` | log.go:171 | `output.fmt.Format(level, msg)`; for the standard formatter the bytes end with a space and the message |
| `Logging.Delivery` | log.go:171 | the write goes to the output's own writer; with the standard formatter its bytes end with a space and the message |
| `Logging.Dispatch` | log.go:169-173 | at most one write per output; none when no threshold is reached; one per output when every threshold is reached; exact order and contents stated by `DispatchReachesMatching` |
| `Logging.Matching` | log.go:169-170 | the outputs a level reaches, in registration order: each at most once, exactly those with threshold <= level |
| `Logging.DispatchReachesMatching` | log.go:166-174 | `Log` writes once to each output whose threshold is reached, in registration order, and to no other; each write carries that output's formatter's rendering of (level, msg) |
| `Logging.DispatchAfterAdd` | log.go:158-174 | adding an output keeps the earlier outputs' writes and appends the new output's write when its threshold is reached |
| `Logging.Logger.New` | log.go:86-88 | a new logger has no outputs and has written nothing |
| `Logging.Logger.AddOutput` | log.go:158-162 | appends exactly one output at the end; earlier outputs and the writes are unchanged |
| `Logging.Logger.Log` | log.go:166-174 | outputs are unchanged; the writes grow by exactly `Dispatch` of the outputs for this level and message |
| `Logging.Logger.Logf` | log.go:178-180 | logs `Sprintf(format + "\n")` at the given level |
| `Logging.Logger.Trace` | log.go:183-186 | logs `Sprintf(format + "\n")` at Trace |
| `Logging.Logger.Debug` | log.go:189-191 | logs `Sprintf(format + "\n")` at Debug |
| `Logging.Logger.Info` | log.go:194-196 | logs `Sprintf(format + "\n")` at Info |
| `Logging.Logger.Warning` | log.go:199-201 | logs `Sprintf(format + "\n")` at Warning |
| `Logging.Logger.Error` | log.go:204-206 | logs `Sprintf(format + "\n")` at Error |
| `Logging.Logger.Fatal` | log.go:208-211 | logs `Sprintf(format + "\n")` at Fatal and does nothing else |
| `Logging.DispatchSingle` | log.go:169-173 | with a single output, `Log` writes to it once exactly when its threshold is at most the level, and otherwise not at all |
| `Logging.DiskFullLine` | log.go:146-147 | the standard formatter's line for "disk full\n" ends in " disk full\n" |
| `Logging.WarningThresholdScenario` | log.go:158-206 | with one output at threshold Warning, a Debug message writes nothing, and an Error "disk full" writes once to that output, as a line ending in " disk full\n" |

## Left out

- The mutex (`mtx`) is left out. Its only job is to make `AddOutput` and `Log` safe under concurrency, and the model is single-threaded.
- `time.Now()` is left out. Each formatter reads the clock itself. In the model, `Env.clock(i)` is the reading taken while formatting for the output at position `i`.
- `runtime.Caller(2)` is left out. Its result is the input `Env.caller`. The model does not say which frame depth 2 is. When `Log` is reached through `Logf` or a convenience method, that frame is the convenience method's own line in log.go.
- `fmt.Sprintf` with the variadic arguments is left out. A `sprintf: string -> string` parameter stands for it, with the call's arguments already bound, and is applied to `format + "\n"`.
- `io.Writer.Write` is left out. A write is recorded in `Logger.writes`. The source discards its error, so the model has no error path for it.
- `AnsiEscape` and the colour constants are defined outside log.go and are not part of this model. `AnsiEscape` is the parameter `ansi`, and the constants are the `Attribute` datatype.
- The bit values of the `log.L*` flags are left out. The flags are booleans. Flag bits that `Format` does not test have no effect, so they do not appear.
- The conversion to `[]byte` is not modelled, and Go's byte strings are modelled as Dafny strings, which are sequences of Unicode characters. A Go string that is not valid UTF-8 cannot be represented, and lengths count characters, not bytes. The '/' scan of `ShortFile` is unaffected: a '/' byte never occurs inside a multi-byte UTF-8 sequence, and index 0 is the same in both.
- A nil writer or formatter is not modelled. `AddOutput` accepts one (log.go:158-161); `Log` then panics at log.go:171, skips every later output and propagates the panic after the deferred unlock. A panicking `Write` or `Format` behaves the same. `WriterId` and the `Formatter` datatype always denote a working writer and formatter, so the model's `Log` always reaches every matching output.
- Formatters other than `StdFormatter` are modelled as pure functions of level and message. A formatter with its own state is not modelled.

## Findings

| source | as written | input that shows it | evidently intended | confidence | as-written member | corrected member |
|---|---|---|---|---|---|---|
| log.go:109 | the six-digit fraction after the seconds is `Nanosecond()/1000000`, which is the milliseconds | 123456789 ns past the second prints `.000123` | the microseconds `Nanosecond()/1000`, printed `.123456`, as the flag's name (`Lmicroseconds`) and the six-digit width say | high; not executed (the model's `Format` keeps the as-written field) | `Formatting.FractionAsWritten` (with `Formatting.FractionAsWrittenLosesMicroseconds`) | `Formatting.Fraction` |
