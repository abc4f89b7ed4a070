/**
 * Operations and groups of operations (pkg/timing/op.go).
 *
 * An `Op` is a named time range whose endpoints are stamped in place; the
 * aggregate queries of `Ops` read a sequence of op values. Each query is a
 * loop in the source; here each is a method whose loop is proved equal to a
 * recursive specification function that folds the same comparison over the
 * prefixes of the sequence, and the specification functions are then
 * characterised by lemmas (lowest-index extremum, truncated mean).
 */
module Operations {

  import opened Wrappers
  import opened TimeRange

  //============================================================================
  // Singular
  //============================================================================

  /** The value of an op: what a group of ops holds. */
  datatype OpValue = OpValue(name: string, runtime: Range) {

    /** Still running: one of the endpoints is unset. An op whose start and
        end were both stamped with non-zero instants is done. */
    predicate Running()
      ensures !Running() ==> runtime.start != Zero && runtime.end != Zero
    {
      runtime.UnBounded()
    }
  }

  /** An op the caller stamps in place (the source's `*Op`). The clock is not
      read here: the current instant is passed in as `now`. */
  class Op {
    var name: string
    var runtime: Range

    /** NewOp: the given name and both endpoints unset, hence running. */
    constructor (name: string)
      ensures this.name == name && runtime == Unset
      ensures Running()
    {
      this.name := name;
      runtime := Unset;
    }

    /** The op's current value. */
    function Value(): (v: OpValue)
      reads this
      ensures v.name == name && v.runtime == runtime
    {
      OpValue(name, runtime)
    }

    /** Running exactly when the runtime range is unbounded. */
    predicate Running()
      reads this
      ensures Running() <==> runtime.UnBounded()
    {
      Value().Running()
    }

    /** Stamps the start; the name and the end stay as they were. */
    method Start(now: Instant)
      modifies this
      ensures runtime == Range(now, old(runtime.end)) && name == old(name)
    {
      runtime := runtime.(start := now);
    }

    /** Stamps the end; the name and the start stay as they were. */
    method End(now: Instant)
      modifies this
      ensures runtime == Range(old(runtime.start), now) && name == old(name)
    {
      runtime := runtime.(end := now);
    }
  }

  /** Stamping a non-zero start and a non-zero end stops an op running, and the
      duration is the difference of the two stamps. */
  lemma StampedOpIsDone(name: string, s: Instant, e: Instant)
    requires s != Zero && e != Zero
    ensures !OpValue(name, Range(s, e)).Running()
    ensures OpValue(name, Range(s, e)).runtime.Duration() == e - s
    ensures OpValue(name, Range(s, Zero)).Running() && OpValue(name, Range(Zero, e)).Running()
  {
  }

  //============================================================================
  // Group
  //============================================================================

  /** The durations of the ops, position by position. */
  function Durations(ops: seq<OpValue>): (d: seq<int>)
    ensures |d| == |ops|
    ensures forall i :: 0 <= i < |ops| ==> d[i] == ops[i].runtime.Duration()
  {
    seq(|ops|, i requires 0 <= i < |ops| => ops[i].runtime.Duration())
  }

  /** The start instants of the ops, position by position. */
  function Starts(ops: seq<OpValue>): (s: seq<Instant>)
    ensures |s| == |ops|
    ensures forall i :: 0 <= i < |ops| ==> s[i] == ops[i].runtime.start
  {
    seq(|ops|, i requires 0 <= i < |ops| => ops[i].runtime.start)
  }

  /** The end instants of the ops, position by position. */
  function Ends(ops: seq<OpValue>): (e: seq<Instant>)
    ensures |e| == |ops|
    ensures forall i :: 0 <= i < |ops| ==> e[i] == ops[i].runtime.end
  {
    seq(|ops|, i requires 0 <= i < |ops| => ops[i].runtime.end)
  }

  // --- Sums and the truncated mean -------------------------------------------

  /** The sum of the keys, accumulated from the left as the source's loop does. */
  function Sum(keys: seq<int>): int
  {
    if |keys| == 0 then 0 else Sum(keys[..|keys| - 1]) + keys[|keys| - 1]
  }

  /** Go's integer division for a positive divisor: the quotient is truncated
      toward zero, so the remainder has the sign of the dividend. */
  function TruncDiv(a: int, n: int): (q: int)
    requires n > 0
    ensures a >= 0 ==> 0 <= a - q * n < n
    ensures a < 0 ==> -n < a - q * n <= 0
  {
    if a >= 0 then a / n else -((-a) / n)
  }

  /** The average duration: the summed durations divided by the count, truncated
      toward zero. Defined only for a non-empty group; the source divides by
      zero and panics otherwise. */
  function Average(ops: seq<OpValue>): (avg: int)
    requires |ops| > 0
    ensures Sum(Durations(ops)) >= 0 ==> avg * |ops| <= Sum(Durations(ops)) < (avg + 1) * |ops|
    ensures Sum(Durations(ops)) < 0 ==> (avg - 1) * |ops| < Sum(Durations(ops)) <= avg * |ops|
  {
    TruncDiv(Sum(Durations(ops)), |ops|)
  }

  /** Ops.Avg: sums the durations in order, then divides by the count. */
  method Avg(ops: seq<OpValue>) returns (avg: int)
    requires |ops| > 0
    ensures avg == Average(ops)
  {
    ghost var keys := Durations(ops);
    var sum := 0;
    for i := 0 to |ops|
      invariant sum == Sum(keys[..i])
    {
      assert keys[..i + 1][..i] == keys[..i];
      sum := sum + ops[i].runtime.Duration();
    }
    assert keys[..|ops|] == keys;
    avg := TruncDiv(sum, |ops|);
  }

  // --- Extremal picks ----------------------------------------------------------

  /** `i` is the lowest position holding the largest key. */
  ghost predicate IsFirstMax(keys: seq<int>, i: nat) {
    i < |keys| &&
    (forall j :: 0 <= j < |keys| ==> keys[j] <= keys[i]) &&
    (forall j :: 0 <= j < i ==> keys[j] < keys[i])
  }

  /** `i` is the lowest position holding the smallest key. */
  ghost predicate IsFirstMin(keys: seq<int>, i: nat) {
    i < |keys| &&
    (forall j :: 0 <= j < |keys| ==> keys[i] <= keys[j]) &&
    (forall j :: 0 <= j < i ==> keys[i] < keys[j])
  }

  /** The pick of a loop that takes the first key and then moves to a later key
      only when it is strictly greater: None for no keys. */
  function FirstMax(keys: seq<int>): (r: Option<nat>)
    ensures r.None? <==> |keys| == 0
    ensures r.Some? ==> r.value < |keys|
  {
    if |keys| == 0 then None
    else
      var last := |keys| - 1;
      match FirstMax(keys[..last])
      case None => Some(last)
      case Some(i) => if keys[last] > keys[i] then Some(last) else Some(i)
  }

  /** The pick of a loop that takes the first key and then moves to a later key
      only when it is strictly smaller: None for no keys. */
  function FirstMin(keys: seq<int>): (r: Option<nat>)
    ensures r.None? <==> |keys| == 0
    ensures r.Some? ==> r.value < |keys|
  {
    if |keys| == 0 then None
    else
      var last := |keys| - 1;
      match FirstMin(keys[..last])
      case None => Some(last)
      case Some(i) => if keys[last] < keys[i] then Some(last) else Some(i)
  }

  /** FirstMax picks exactly the lowest position of the largest key. */
  lemma {:induction false} FirstMaxIsFirstMax(keys: seq<int>, i: nat)
    ensures FirstMax(keys) == Some(i) <==> IsFirstMax(keys, i)
  {
    if |keys| > 0 {
      var last := |keys| - 1;
      var front := keys[..last];
      var r := FirstMax(keys);
      match FirstMax(front)
      case None =>
      case Some(p) =>
        FirstMaxIsFirstMax(front, p);
        assert IsFirstMax(keys, r.value);
    }
  }

  /** FirstMin picks exactly the lowest position of the smallest key. */
  lemma {:induction false} FirstMinIsFirstMin(keys: seq<int>, i: nat)
    ensures FirstMin(keys) == Some(i) <==> IsFirstMin(keys, i)
  {
    if |keys| > 0 {
      var last := |keys| - 1;
      var front := keys[..last];
      var r := FirstMin(keys);
      match FirstMin(front)
      case None =>
      case Some(p) =>
        FirstMinIsFirstMin(front, p);
        assert IsFirstMin(keys, r.value);
    }
  }

  /** Ops.Longest: the position of the first op of largest duration, None (nil)
      for an empty group. */
  method Longest(ops: seq<OpValue>) returns (longest: Option<nat>)
    ensures longest == FirstMax(Durations(ops))
    ensures longest.None? <==> |ops| == 0
    ensures longest.Some? ==> IsFirstMax(Durations(ops), longest.value)
  {
    ghost var keys := Durations(ops);
    longest := None;
    for i := 0 to |ops|
      invariant longest == FirstMax(keys[..i])
    {
      assert keys[..i + 1][..i] == keys[..i];
      if longest.None? {
        longest := Some(i);
        continue;
      }
      if ops[i].runtime.Duration() > ops[longest.value].runtime.Duration() {
        longest := Some(i);
      }
    }
    assert keys[..|ops|] == keys;
    if longest.Some? {
      FirstMaxIsFirstMax(keys, longest.value);
    }
  }

  /** Ops.Shortest: the position of the first op of smallest duration, None (nil)
      for an empty group. */
  method Shortest(ops: seq<OpValue>) returns (shortest: Option<nat>)
    ensures shortest == FirstMin(Durations(ops))
    ensures shortest.None? <==> |ops| == 0
    ensures shortest.Some? ==> IsFirstMin(Durations(ops), shortest.value)
  {
    ghost var keys := Durations(ops);
    shortest := None;
    for i := 0 to |ops|
      invariant shortest == FirstMin(keys[..i])
    {
      assert keys[..i + 1][..i] == keys[..i];
      if shortest.None? {
        shortest := Some(i);
        continue;
      }
      if ops[i].runtime.Duration() < ops[shortest.value].runtime.Duration() {
        shortest := Some(i);
      }
    }
    assert keys[..|ops|] == keys;
    if shortest.Some? {
      FirstMinIsFirstMin(keys, shortest.value);
    }
  }

  /** Ops.StartedFirst: the position of the first op of earliest start, None
      (nil) for an empty group. */
  method StartedFirst(ops: seq<OpValue>) returns (first: Option<nat>)
    ensures first == FirstMin(Starts(ops))
    ensures first.None? <==> |ops| == 0
    ensures first.Some? ==> IsFirstMin(Starts(ops), first.value)
  {
    ghost var keys := Starts(ops);
    first := None;
    for i := 0 to |ops|
      invariant first == FirstMin(keys[..i])
    {
      assert keys[..i + 1][..i] == keys[..i];
      if first.None? {
        first := Some(i);
        continue;
      }
      if ops[i].runtime.start < ops[first.value].runtime.start {
        first := Some(i);
      }
    }
    assert keys[..|ops|] == keys;
    if first.Some? {
      FirstMinIsFirstMin(keys, first.value);
    }
  }

  /** Ops.EndedLast, as written: the pick moves only to an op whose end is
      strictly BEFORE the current pick's, so the result is the position of the
      first op of EARLIEST end (not the latest the name suggests), None (nil)
      for an empty group. */
  method EndedLast(ops: seq<OpValue>) returns (last: Option<nat>)
    ensures last == FirstMin(Ends(ops))
    ensures last.None? <==> |ops| == 0
    ensures last.Some? ==> IsFirstMin(Ends(ops), last.value)
  {
    ghost var keys := Ends(ops);
    last := None;
    for i := 0 to |ops|
      invariant last == FirstMin(keys[..i])
    {
      assert keys[..i + 1][..i] == keys[..i];
      if last.None? {
        last := Some(i);
        continue;
      }
      if ops[i].runtime.end < ops[last.value].runtime.end {
        last := Some(i);
      }
    }
    assert keys[..|ops|] == keys;
    if last.Some? {
      FirstMinIsFirstMin(keys, last.value);
    }
  }

  /** A witness of the misnaming: of an op ending at 5 and a later-listed op
      ending at 9, EndedLast picks the first, whose end is the earlier one. */
  lemma EndedLastPicksEarliestEnd()
    ensures FirstMin(Ends([OpValue("a", Range(1, 5)), OpValue("b", Range(1, 9))])) == Some(0)
  {
  }

  /** Ops.FullRange: from the start of StartedFirst to the end of EndedLast. The
      start is the earliest start; because of how EndedLast picks, the end is
      the earliest end. The source dereferences nil for an empty group. */
  function FullRange(ops: seq<OpValue>): (r: Range)
    requires |ops| > 0
    ensures r.start in Starts(ops) && r.end in Ends(ops)
    ensures forall j :: 0 <= j < |ops| ==> r.start <= ops[j].runtime.start && r.end <= ops[j].runtime.end
  {
    var first := FirstMin(Starts(ops)).value;
    var last := FirstMin(Ends(ops)).value;
    FirstMinIsFirstMin(Starts(ops), first);
    FirstMinIsFirstMin(Ends(ops), last);
    Range(ops[first].runtime.start, ops[last].runtime.end)
  }

  // --- The mean lies between the extremes -------------------------------------

  /** The duration of the op Ops.Shortest picks. */
  function ShortestDuration(ops: seq<OpValue>): (d: int)
    requires |ops| > 0
    ensures d in Durations(ops)
    ensures forall j :: 0 <= j < |ops| ==> d <= ops[j].runtime.Duration()
  {
    var i := FirstMin(Durations(ops)).value;
    FirstMinIsFirstMin(Durations(ops), i);
    ops[i].runtime.Duration()
  }

  /** The duration of the op Ops.Longest picks. */
  function LongestDuration(ops: seq<OpValue>): (d: int)
    requires |ops| > 0
    ensures d in Durations(ops)
    ensures forall j :: 0 <= j < |ops| ==> ops[j].runtime.Duration() <= d
  {
    var i := FirstMax(Durations(ops)).value;
    FirstMaxIsFirstMax(Durations(ops), i);
    ops[i].runtime.Duration()
  }

  /** Keys that all lie within [lo, hi] sum to within [lo * n, hi * n]. */
  lemma {:induction false} SumBetween(keys: seq<int>, lo: int, hi: int)
    requires forall j :: 0 <= j < |keys| ==> lo <= keys[j] <= hi
    ensures lo * |keys| <= Sum(keys) <= hi * |keys|
  {
    if |keys| > 0 {
      var n := |keys| - 1;
      SumBetween(keys[..n], lo, hi);
      assert lo * (n + 1) == lo * n + lo && hi * (n + 1) == hi * n + hi;
    }
  }

  /** Truncated division by n keeps a value of [lo * n, hi * n] within [lo, hi]. */
  lemma TruncDivBetween(a: int, n: int, lo: int, hi: int)
    requires n > 0 && lo * n <= a <= hi * n
    ensures lo <= TruncDiv(a, n) <= hi
  {
    var q := TruncDiv(a, n);
    if a >= 0 {
      CancelFactor(q, hi, n);
      CancelFactor(lo, q + 1, n);
    } else {
      CancelFactor(q - 1, hi, n);
      CancelFactor(lo, q, n);
    }
  }

  /** Dividing both sides of x * n <= y * n by a positive n. */
  lemma CancelFactor(x: int, y: int, n: int)
    requires n > 0 && x * n <= y * n
    ensures x <= y
  {
  }

  /** The average duration lies between the shortest and the longest duration. */
  lemma AverageBetweenExtremes(ops: seq<OpValue>)
    requires |ops| > 0
    ensures ShortestDuration(ops) <= Average(ops) <= LongestDuration(ops)
  {
    SumBetween(Durations(ops), ShortestDuration(ops), LongestDuration(ops));
    TruncDivBetween(Sum(Durations(ops)), |ops|, ShortestDuration(ops), LongestDuration(ops));
  }

  /** When every op lasted the same d, the average is exactly d. */
  lemma AverageOfEqualDurations(ops: seq<OpValue>, d: int)
    requires |ops| > 0
    requires forall j :: 0 <= j < |ops| ==> ops[j].runtime.Duration() == d
    ensures Average(ops) == d
  {
    SumBetween(Durations(ops), d, d);
    TruncDivBetween(Sum(Durations(ops)), |ops|, d, d);
  }
}
