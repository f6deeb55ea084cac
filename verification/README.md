# Interval demultiplexer for sensor readings: a Dafny model

The program reads two files. The intervals file holds named time ranges. The data file holds timestamped
frequency/power readings. Every reading is copied into the output of each interval it belongs to. The
interval's start and end times are stamped on readings found exactly at its edges. For each interval the
program counts start-edge (`a`), interior (`b`) and end-edge (`c`) writes, and finally reports those
counters and their total in sorted id order.

This project models that core as pure functions over integer-millisecond times:

- `Text`: `strings.Split` on `,` with its inverse `Join`, and Go's byte-wise string order `<`.
- `Sorting`: the sorted id list (`sort.Strings` over the map keys).
- `Intervals`: the interval table load. Comment lines and one-field lines are skipped. A two-field line stops
  the run. A later line for an id overwrites an earlier one. A timestamp that does not parse is stored as
  Go's zero time.
- `Records`: fixed-width slicing of a data line into time, frequency and power texts, and their decoding.
- `Routing`: the per-interval classification. A near guard of ±150 ms is followed by three independent
  checks, one per bucket.
- `Sinks`: one interval's output lines and counters.
- `Ingest`: the fold over the data lines, including the header skip and the stop at the first bad line.
- `Summary`: the per-interval report.
- `Import`: the whole run.

Times are integers counted in milliseconds from Go's zero `time.Time`, so the zero time is 0. The data
format has centisecond resolution, so this is exact. Timestamp parsing is a parameter of the model: a
partial function from text to milliseconds. Number parsing is a parameter too, and frequency and power are
an opaque type `V` carried to the output unchanged.

The routing step keeps the source's conditions as written. The edge checks include the disjuncts
`t < start - 150 ms` and `t > end + 150 ms`, which can never hold inside the near guard. `Routing.Classify`
proves that the edges therefore fire only on exact equality with the start or end. The interior fires
strictly inside the interval. When start ≤ end, a reading inside the tolerance band but outside
`[start, end]` is written nowhere. An inverted interval whose start is less than 150 ms after its end still
gives a reading at its start a start-edge write (`Routing.InvertedIntervalStartWrite`).

Behaviour of the code that the model keeps:

- A start or end timestamp that does not parse is stored as Go's zero time, and the entry stays in the
  table (lines 126-137; `Intervals.ClassifyLine`, `Intervals.UnparsableStartKept`).
- Lines with one comma-separated field are skipped (line 116). A line with exactly two fields indexes
  `fields[2]` out of range and panics (line 133). The model returns `LoadError.IndexOutOfRange` for it.
- Nothing checks `start < end`, so the model accepts any pair of bounds. With `start == end`, a reading at
  that instant is written twice (`Routing.DegenerateIntervalWritesTwice`).
- Interval times are parsed only with the seconds-required layout `FMTINTERVALS2` (lines 21, 126, 133).
  `FMTINTERVALS` (line 20) is never used. In the model, the layout is a property of the parse parameter.

## Model

| member | source | states |
|---|---|---|
| `Text.Split` | import-den.go:115-116 | there is one more field than there are commas, and no field contains a comma |
| `Text.JoinSplit` | import-den.go:115 | joining the split fields back with `,` restores the line |
| `Text.SplitJoin` | import-den.go:115 | splitting a join of comma-free fields gives the fields back |
| `Text.LessIsLexLess` | import-den.go:145 | the string order used by the sort means: a proper prefix, or smaller at the first differing position |
| `Text.LessTransitive` | import-den.go:145 | the sort order is transitive |
| `Text.LessTotal` | import-den.go:145 | any two distinct ids are ordered one way or the other |
| `Sorting.Insert` | import-den.go:142-145 | inserting a new id into an ascending id list keeps it ascending, adds exactly that id and nothing else |
| `Sorting.SortedKeys` | import-den.go:142-145 | the sorted id list is ascending and holds every map key exactly once, and nothing else |
| `Sorting.SortedUnique` | import-den.go:142-145 | two ascending lists with the same ids are equal, so map iteration order cannot change the sorted list |
| `Intervals.ClassifyLine` | import-den.go:111-137 | `#` lines and comma-free lines are skipped; one comma means the `fields[2]` panic; two or more commas give an entry whose id is the text before the first comma; an unparsable bound becomes the zero time |
| `Intervals.LoadFromFailure` | import-den.go:116-133 | the load fails exactly when a two-field line is present, and it reports the first one |
| `Intervals.LoadFromTable` | import-den.go:109-139 | after a successful load each id maps to the range of its last entry line, and earlier table entries without a later entry survive |
| `Intervals.LoadSpec` | import-den.go:109-139 | the loaded table has exactly the ids that have an entry line, each with the range of its last entry line (last write wins) |
| `Intervals.UnparsableStartKept` | import-den.go:125-137 | an entry line whose start does not parse is still stored, with the zero time as its start |
| `Records.Slice` | import-den.go:236-238 | the slicing succeeds exactly for lines of length at least 35; the time text is 22 characters and the frequency text is 9; together with the separator positions they make up the line |
| `Records.SliceLayout` | import-den.go:236-238 | slicing a line laid out in the fixed columns gives back its three texts |
| `Records.Decode` | import-den.go:236-267 | a data line decodes exactly when it is long enough and its three texts parse; the record carries those values; a failure names the line and follows the source's order (slice, time, frequency, power) |
| `Records.DecodeLayout` | import-den.go:236-267 | a laid-out line whose texts parse decodes to their values |
| `Routing.Classify` | import-den.go:291-313 | the guarded checks as written produce exactly the writes of the buckets that fire: start edge only when t equals start, interior only strictly inside, end edge only when t equals end; stamps are start, t and end |
| `Routing.ClassifyMembers` | import-den.go:291-313 | a write for a bucket with a given stamp happens if and only if that bucket fires and the stamp is the bucket's stamp |
| `Routing.OutsideBandNothing` | import-den.go:291 | a reading outside the open band (start - 150 ms, end + 150 ms) produces no write |
| `Routing.BandOutsideIntervalNothing` | import-den.go:291-313 | when start ≤ end, a reading inside the band but outside [start, end] produces no write |
| `Routing.InvertedIntervalStartWrite` | import-den.go:291-298 | when the start lies less than 150 ms after the end, a reading at the start is in the band and past the end, yet it gets exactly one start-edge write stamped with the start |
| `Routing.AtMostOneWrite` | import-den.go:291-313 | with start < end a reading produces at most one write per interval |
| `Routing.DegenerateIntervalWritesTwice` | import-den.go:292-313 | with start == end a reading at that instant produces a start-edge write and then an end-edge write |
| `Routing.InsideIntervalExactlyOne` | import-den.go:292-313 | with start < end every reading in [start, end] produces exactly one write: start edge at start, interior strictly inside, end edge at end |
| `Sinks.WriteAll` | import-den.go:294-312 | performing writes appends one line per write, in order, and raises each counter by the number of writes in its bucket |
| `Sinks.Deliver` | import-den.go:291-313 | one reading appends exactly the lines of the buckets that fire, with their stamps and the reading's values; each counter grows by one exactly when its bucket fires |
| `Sinks.DeliverConsistent` | import-den.go:295-312 | delivering a reading keeps every counter equal to the number of lines its bucket has written |
| `Sinks.ConsistentTotal` | import-den.go:336 | when the counters agree with the file, a + b + c is the file's number of lines |
| `Ingest.StepInOrderSpec` | import-den.go:290-322 | walking the intervals in any order without repeats delivers the reading to exactly the walked intervals, each from its own earlier state, and leaves the others untouched |
| `Ingest.StepOrderIrrelevant` | import-den.go:290-322 | every enumeration of the intervals gives the same result, so Go's random map order cannot affect any output or counter |
| `Ingest.RunOrdersIrrelevant` | import-den.go:290-322 | routing a whole input with any enumeration of the intervals per reading, possibly different for each reading, ends in the same destinations as the order-free fold |
| `Ingest.PerInterval` | import-den.go:290-322 | each interval's output and counters depend only on its own range, its own starting state and the readings |
| `Ingest.RunRecordsKeys` | import-den.go:156 | routing keeps exactly one destination per interval |
| `Ingest.RunOneLines` | import-den.go:290-322 | routing readings to one interval appends the reference contents: each reading's firing writes, reading after reading |
| `Ingest.RunOneCount` | import-den.go:295-312 | each counter grows by the number of readings that fire its bucket |
| `Ingest.RunOneConsistent` | import-den.go:295-312 | counters stay equal to the per-bucket line counts of the file after any number of readings |
| `Ingest.RoutedFromStart` | import-den.go:290-322 | from zeroed counters, after any readings, each interval's file is the reference contents, and a, b and c count the readings firing each bucket |
| `Ingest.Monotone` | import-den.go:295-312 | after more readings, every file extends its earlier contents and no counter decreases |
| `Ingest.DecodeAll` | import-den.go:235-267 | the readings decoded before the first bad line, each the decoding of its line, and that line's failure if there is one |
| `Ingest.IngestIsDecodeThenRoute` | import-den.go:200-327 | ingest finishes exactly when every line decodes; otherwise it stops at the first bad line with its error; either way the outputs are the routing of the readings decoded before the stop |
| `Ingest.ReadingAtStart` | import-den.go:292-298 | a reading exactly at a five-minute interval's start writes one line stamped with the start, and a becomes 1 |
| `Ingest.ReadingInside` | import-den.go:299-305 | a reading halfway through writes one line with its own time, and b becomes 1 |
| `Ingest.ReadingInBandDropped` | import-den.go:291-313 | a reading 100 ms before the start leaves the interval's file and counters empty |
| `Summary.Summarize` | import-den.go:335-338 | one report row per sorted id, in that order, with that id's counters and total = a + b + c |
| `Summary.SummarizeTotals` | import-den.go:335-338 | each reported total is the number of lines written to that interval's file |
| `Import.RunImport` | import-den.go:91-338 | the run fails exactly on a two-field interval line; otherwise the ids are sorted and complete, there is exactly one destination per interval, ingest stops with the first bad line's error, each file holds the writes of the readings decoded before ingest ended, the counters count their buckets, and the report, printed only when ingest finished, carries each id's counters and totals each file's lines |

## Left out

- Flag parsing in `init` and the `testing`/`showinfo` toggles (lines 76-89, 119-123, 130-132, 151-153, 203-222, 315-319) are command-line plumbing and diagnostics. The `showinfo` branch at line 122 would hit the same out-of-range index as line 133, which the model already treats as a failure.
- Opening, creating, flushing and closing files, the `bufio` scanners and writers, scanner errors (lines 328-331) and `test-data.txt` are I/O. Files are modelled as sequences of lines, and outputs as sequences of `Sinks.Line`. The model's lines carry a bucket tag that is not printed; the tag lets the counters be read off the file contents.
- `time.Parse` with its calendar layouts and `Format` are library calls. They appear as the parse parameters and as integer stamps. The output file name built from them (lines 147, 159) is not modelled.
- `strconv.ParseFloat`, `strings.TrimSpace` and the `%6.4f`/`%5.3f` formatting are floating-point work. They are folded into the number parser parameter, and frequency and power are kept as an opaque payload `V`.
- Interval bounds finer than a millisecond are outside the model. `time.Parse` at lines 126 and 133 accepts a fraction of any length after the seconds. The parse parameter must map such a bound to a whole millisecond, so equality with a data time at the edges is judged on that rounded value.
- Data lines are character sequences, so slicing by character offset equals Go's slicing by byte offset only for ASCII input, which the fixed-width format implies.
- The process-level effect of a panic is not modelled. On a bad data line the run stops with `Outcome.Aborted` and keeps what was written so far. On a two-field interval line the run returns `Failure`.
- `printLineNr`, the per-day progress messages, first/last-entry tracking, the line total and elapsed-time reporting (lines 63-74, 270-279, 340-352) are diagnostics only.
- Reclassifying a reading always gives the same writes because every function here is pure. No separate statement is needed.
