# pkg/timing in Dafny

A model of the timing package of go-timing-suite: time ranges, operations
("ops") stamped with a start and an end, the aggregate queries over a group of
ops, and `CappedOpGroup`, a tracker that keeps a first-in first-out window of
at most `Cap` completed ops out of a known total, counts how many are done and
left, and projects the time left and the ETA from the window's average.

- `range.dfy`, module `TimeRange` (pkg/timing/range.go): instants and
  durations are nanosecond counts (`int`); `Zero` is the unset instant (Go's
  zero `time.Time`). `Range` is a datatype with `UnBounded`, `Direction`
  (a newtype over -1..1 with the constants `Desc`, `Equal`, `Asc`),
  `Contains`, `ContainsExclusive`, `Duration` and `DurationMagnitude`.
- `op.dfy`, module `Operations` (pkg/timing/op.go): `Op` is a class because
  `Start` and `End` stamp it in place; `OpValue` is its value, which groups
  hold. Each aggregate query is a method with the source's loop, proved equal
  to a recursive specification function over the prefixes (`Sum`,
  `FirstMax`, `FirstMin`), and those functions are characterised by lemmas
  (lowest-index maximum or minimum; the truncated mean lies between the
  shortest and the longest duration). A query that returns a `*Op` in the
  source returns the position of that op here, `None` for nil.
- `tracker.dfy`, module `Tracker` (pkg/timing/tracker.go): `CappedOpGroup`
  is a class with the window `ops`, the counters `done` and `left`, and a ghost
  history `accepted` of every op it took. Its invariant `Valid()` says that
  `done + left == total`, that `done` counts the accepted ops, that `left`
  stays non-negative for a non-negative total (so at most `total` adds ever
  succeed), that no accepted op was running, and that the window is the last
  `Kept(|accepted|, cap)` accepted ops in order, that is `min(max(cap, 0),
  |accepted|)` of them. The scenarios of
  pkg/timing/tracker_test.go are client methods whose results are proved.
- `wrappers.dfy`: the `Option` type (`None` stands for nil).

Where the code and its documentation disagree, the model follows the code:

- `EndedLast` is documented as returning the op with the latest end, but it
  replaces its pick only when a candidate ends strictly *before* it, so it
  returns the first op with the *earliest* end; `FullRange` therefore ends at
  the earliest end. `EndedLastPicksEarliestEnd` gives a two-op witness.
- `PercentComplete` returns `Left / Total`, the fraction still remaining.
- `NewCappedOpGroup` accepts any `cap` and total: a cap of zero or less keeps
  the window empty, and a negative total is never exhausted.
- `Avg` on an empty group divides by zero (a Go panic); the model requires a
  non-empty group there and in `TimeLeft` and `Eta`.

## Model

| member | source | states |
|---|---|---|
| TimeRange.Range.UnBounded | pkg/timing/range.go:16-19 | a range is bounded exactly when both endpoints carry a non-zero instant, i.e. unbounded iff an endpoint is the zero instant |
| TimeRange.Range.Direction | pkg/timing/range.go:21-32 | Equal iff start == end, Asc iff start < end, Desc iff end < start |
| TimeRange.DirectionIsSignOfDuration | pkg/timing/range.go:5-9 | the constants are -1, 0, 1 and the direction is the sign of the signed duration (Desc iff negative) |
| TimeRange.Range.ContainsExclusive | pkg/timing/range.go:40-44 | an instant is contained exclusively only by an ascending range and never at an endpoint |
| TimeRange.Range.Contains | pkg/timing/range.go:34-38 | both endpoints are contained, everything contained exclusively is contained, and a contained instant lies between the endpoints in whichever order they come |
| TimeRange.Range.Duration | pkg/timing/range.go:46-50 | the signed duration is negative exactly when the end comes before the start and zero exactly when the endpoints coincide |
| TimeRange.ContainsEndpoints | pkg/timing/range.go:34-38 | both endpoints are always contained; ContainsExclusive implies Contains |
| TimeRange.ContainsByDirection | pkg/timing/range.go:34-44 | without normalisation: the closed interval for a non-descending range, only the two endpoints for a descending one |
| TimeRange.ContainsExclusiveIsOpenInterval | pkg/timing/range.go:40-44 | never true for an Equal or Desc range, nor at either endpoint |
| TimeRange.Range.DurationMagnitude | pkg/timing/range.go:52-63 | non-negative, equal to the duration or its negation, and zero iff the direction is Equal |
| TimeRange.MagnitudeByDirection | pkg/timing/range.go:46-63 | the magnitude is end - start (the duration) when Asc, start - end when Desc, 0 when Equal |
| Operations.Op.constructor | pkg/timing/op.go:29-31 | NewOp: the given name, both endpoints unset, running |
| Operations.Op.Start | pkg/timing/op.go:14-17 | sets only the start to `now`; name and end unchanged |
| Operations.Op.End | pkg/timing/op.go:19-22 | sets only the end to `now`; name and start unchanged |
| Operations.OpValue.Running | pkg/timing/op.go:24-27 | an op that is not running has both endpoints set to non-zero instants |
| Operations.Op.Running | pkg/timing/op.go:24-27 | running iff the runtime range is unbounded |
| Operations.StampedOpIsDone | pkg/timing/op.go:24-27 | running iff the runtime is unbounded: stamped with two non-zero instants an op is not running, with one unset endpoint it is |
| Operations.TruncDiv | pkg/timing/op.go:46 | Go's division by a positive count: the remainder lies in [0, n) for a non-negative sum and in (-n, 0] for a negative one |
| Operations.Average | pkg/timing/op.go:39-47 | the mean of the durations truncated toward zero: avg * n <= sum < (avg + 1) * n for a non-negative sum, (avg - 1) * n < sum <= avg * n for a negative one |
| Operations.Avg | pkg/timing/op.go:39-47 | the loop's result is the sum of the durations divided by the count, truncated toward zero; non-empty input required (Go panics) |
| Operations.AverageBetweenExtremes | pkg/timing/op.go:39-81 | the average lies between the shortest and the longest duration |
| Operations.AverageOfEqualDurations | pkg/timing/op.go:39-47 | ops that all last d average exactly d |
| Operations.SumBetween | pkg/timing/op.go:41-44 | durations within [lo, hi] sum to within [lo * n, hi * n] |
| Operations.FirstMaxIsFirstMax | pkg/timing/op.go:49-64 | the strict-greater replacement loop picks i iff i is the lowest position of the largest key |
| Operations.FirstMinIsFirstMin | pkg/timing/op.go:66-115 | the strict-smaller replacement loop picks i iff i is the lowest position of the smallest key |
| Operations.Longest | pkg/timing/op.go:49-64 | nil iff empty; otherwise the lowest-index op whose duration is at least every other's |
| Operations.Shortest | pkg/timing/op.go:66-81 | nil iff empty; otherwise the lowest-index op whose duration is at most every other's |
| Operations.StartedFirst | pkg/timing/op.go:83-98 | nil iff empty; otherwise the lowest-index op with the earliest start |
| Operations.EndedLast | pkg/timing/op.go:100-115 | nil iff empty; otherwise, as written, the lowest-index op with the EARLIEST end |
| Operations.EndedLastPicksEarliestEnd | pkg/timing/op.go:109 | of ops ending at 5 and then at 9, EndedLast picks the one ending at 5 |
| Operations.FullRange | pkg/timing/op.go:117-123 | starts at the earliest start and ends at the earliest end among the ops, both taken from ops of the group; non-empty input required (nil dereference) |
| Operations.ShortestDuration | pkg/timing/op.go:66-81 | the duration of Shortest's pick is a duration of the group and at most every other |
| Operations.LongestDuration | pkg/timing/op.go:49-64 | the duration of Longest's pick is a duration of the group and at least every other |
| Tracker.Push | pkg/timing/tracker.go:46-49 | append-then-drop-oldest grows the window by at most one, puts the new op last, and keeps a window within a non-negative cap within it |
| Tracker.WindowIsLatest | pkg/timing/tracker.go:46-49 | the window never exceeds a non-negative cap, holds exactly cap ops once that many were accepted, all of them while fewer were, and is the tail of the accepted ops in order |
| Tracker.PushKeepsWindow | pkg/timing/tracker.go:46-49 | append-then-drop-oldest maps the window of the earlier ops to the window of the earlier ops plus the new one |
| Tracker.ReplayIsWindow | pkg/timing/tracker.go:46-49 | after any sequence of successful adds the window is the last Kept(accepted, cap), that is min(max(cap, 0), number accepted), accepted ops in their original order |
| Tracker.CappedOpGroup.Valid | pkg/timing/tracker.go:11-19 | the group's invariant: Done + Left == Total, Done counts the accepted ops, no accepted op was running, the window is the latest accepted ops; it implies the window never exceeds a non-negative Cap and Done never exceeds a non-negative Total |
| Tracker.CappedOpGroup.constructor | pkg/timing/tracker.go:21-29 | NewCappedOpGroup: given name and cap, empty window, Done 0, Left == Total, invariant established |
| Tracker.CappedOpGroup.AddOp | pkg/timing/tracker.go:31-55 | a running op is refused first, then every op once Left is 0; a refusal changes nothing; a success appends (evicting the oldest past Cap), Done + 1, Left - 1; the invariant (Done + Left == Total, window, no running op) is kept and at most Total adds succeed |
| Tracker.CappedOpGroup.TimeLeft | pkg/timing/tracker.go:62-71 | average of the window times Left: zero once nothing is left, and between shortest * Left and longest * Left |
| Tracker.CappedOpGroup.Eta | pkg/timing/tracker.go:57-60 | `now` itself once nothing is left, otherwise between now + shortest * Left and now + longest * Left |
| Tracker.CappedOpGroup.PercentComplete | pkg/timing/tracker.go:73-79 | the ratio Left / Total, i.e. (Total - Done) / Total, the fraction remaining; within [0, 1] for a positive total |
| Tracker.AddStamped | pkg/timing/tracker_test.go:14-19 | adding an op stamped with two instants: refused as running iff one is zero, otherwise as AddOp |
| Tracker.EtaCalculationScenario | pkg/timing/tracker_test.go:9-34 | five 1 ms ops, cap 5, total 10: time left is 5 ms and the ETA is now + 5 ms |
| Tracker.CapStaysCappedScenario | pkg/timing/tracker_test.go:36-56 | ten ops of 0..9 ms, cap 5: the window holds 5 ops and the longest lasts 9 ms |
| Tracker.CannotExceedTotalScenario | pkg/timing/tracker_test.go:58-82 | an eleventh op into a group of total 10 is refused as all ops complete |
| Tracker.PercentCalculationScenario | pkg/timing/tracker_test.go:84-100 | ten adds out of 20 report 10/20, one half |
| Tracker.CantAddRunningOpScenario | pkg/timing/tracker_test.go:102-115 | an op with no end is refused as running and nothing is done |

## Left out

- `LogDuration` (pkg/timing/basic.go) writes a formatted line to a logger: pure I/O with nothing to prove.
- Reading the clock (`time.Now()` in `Start`, `End` and `Eta`): the instant is a parameter `now`.
- The `sync.RWMutex` of `CappedOpGroup`: it only serialises the updates, so the model is sequential.
- Go `time.Time` details: monotonic versus wall-clock readings and time zones; an instant is one integer.
- TimeRange.Range.Duration: does not model `Sub` saturating at the int64 bounds; durations are unbounded integers.
- Operations.Avg: does not model int64 wrap-around of the running sum.
- Tracker.CappedOpGroup.TimeLeft: does not model int64 overflow of `avg * Left`.
- Tracker.CappedOpGroup.Eta: does not model `time.Time.Add` saturation.
- Tracker.CappedOpGroup.PercentComplete: returns the integer pair (Left, Total) rather than their float64 quotient (NaN or infinity when Total is 0).
- Operations.Avg: requires a non-empty group; the source divides by zero and panics on an empty one.
- Operations.FullRange: requires a non-empty group; the source dereferences the nil picks of StartedFirst and EndedLast and panics on an empty one.
- Tracker.CappedOpGroup.TimeLeft: requires a non-empty window; the source panics in Avg on an empty one (always the case while nothing was accepted or when the cap is zero or less).
- Tracker.CappedOpGroup.Eta: requires a non-empty window, for the same panic as TimeLeft.
- Tracker.CappedOpGroup.AddOp: takes a non-null op; the source panics in `op.Running()` when given nil.
- Error messages: only the kind of error (`OpStillRunning`, `AllOpsComplete`) is modelled, not the `fmt.Errorf` text.
- Pointer aliasing: the window holds the value of each op at the moment it was added; a caller mutating an op after adding it is not modelled.
- The Go literal `&Op{...}` is not modelled apart from `NewOp` followed by `Start` and `End`.
- The exported fields `Cap`, `Total` and `Name` are constants here; callers writing them directly are not modelled.
