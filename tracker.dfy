/**
 * A capped group of operations (pkg/timing/tracker.go): a first-in first-out
 * window of at most `cap` completed ops drawn from a known total, with done
 * and left counters, a projection of the time left and a completion ratio.
 *
 * The read/write lock of the source only serialises these updates; the model
 * is sequential. The clock is a parameter (`now`).
 */
module Tracker {

  import opened Wrappers
  import opened TimeRange
  import opened Operations

  /** Why AddOp refused an op; `None` stands for Go's nil error. */
  datatype AddError = OpStillRunning | AllOpsComplete

  /** A ratio kept as its two integers, in place of the source's float64. */
  datatype Ratio = Ratio(num: int, den: int)

  //============================================================================
  // The window
  //============================================================================

  /** One step of the window as AddOp takes it: append the op, then drop the
      oldest one when the window has grown past the cap. */
  function Push(window: seq<OpValue>, op: OpValue, cap: int): (w: seq<OpValue>)
    ensures |w| <= |window| + 1
    ensures |w| > 0 ==> w[|w| - 1] == op
    ensures 0 <= |window| <= cap ==> |w| <= cap
  {
    var grown := window + [op];
    if |grown| > cap then grown[1..] else grown
  }

  /** How many of n accepted ops a window of the given cap retains. */
  function Kept(n: nat, cap: int): (k: nat)
    ensures k <= n
  {
    if cap <= 0 then 0 else if n < cap then n else cap
  }

  /** The most recent Kept(|accepted|, cap) accepted ops, in acceptance order. */
  function Window(accepted: seq<OpValue>, cap: int): seq<OpValue>
  {
    accepted[|accepted| - Kept(|accepted|, cap)..]
  }

  /** The window obtained by pushing the accepted ops one by one into an empty one. */
  function Replay(accepted: seq<OpValue>, cap: int): seq<OpValue>
  {
    if |accepted| == 0 then []
    else Push(Replay(accepted[..|accepted| - 1], cap), accepted[|accepted| - 1], cap)
  }

  /** The window holds the latest accepted ops in order: never more than the cap
      (for a non-negative cap), exactly the cap once that many were accepted,
      and every accepted op while fewer were. */
  lemma WindowIsLatest(accepted: seq<OpValue>, cap: int)
    ensures cap >= 0 ==> |Window(accepted, cap)| <= cap
    ensures cap >= 0 && |accepted| >= cap ==> |Window(accepted, cap)| == cap
    ensures |accepted| < cap ==> Window(accepted, cap) == accepted
    ensures cap <= 0 ==> Window(accepted, cap) == []
    ensures forall k :: 0 <= k < |Window(accepted, cap)| ==>
      Window(accepted, cap)[k] == accepted[|accepted| - |Window(accepted, cap)| + k]
  {
  }

  /** One push of AddOp turns the window of the earlier ops into the window of
      the earlier ops followed by the new one. */
  lemma PushKeepsWindow(accepted: seq<OpValue>, op: OpValue, cap: int)
    ensures Push(Window(accepted, cap), op, cap) == Window(accepted + [op], cap)
  {
    var n := |accepted|;
    var grown := Window(accepted, cap) + [op];
    if cap <= 0 {
      assert Window(accepted, cap) == [] && Window(accepted + [op], cap) == [];
    } else if n < cap {
      assert Window(accepted, cap) == accepted;
      assert Window(accepted + [op], cap) == accepted + [op];
    } else {
      assert |grown| == cap + 1;
      assert grown[1..] == accepted[n - cap + 1..] + [op];
      assert (accepted + [op])[n + 1 - cap..] == accepted[n - cap + 1..] + [op];
    }
  }

  /** After any sequence of successful adds the window is the latest
      Kept(|accepted|, cap) accepted ops in their original order. */
  lemma {:induction false} ReplayIsWindow(accepted: seq<OpValue>, cap: int)
    ensures Replay(accepted, cap) == Window(accepted, cap)
  {
    if |accepted| > 0 {
      var front, last := accepted[..|accepted| - 1], accepted[|accepted| - 1];
      ReplayIsWindow(front, cap);
      PushKeepsWindow(front, last, cap);
      assert front + [last] == accepted;
    }
  }

  //============================================================================
  // The group
  //============================================================================

  class CappedOpGroup {
    const name: string
    const cap: int
    const total: int
    var ops: seq<OpValue>
    var done: int
    var left: int

    /** Every op accepted so far, oldest first. */
    ghost var accepted: seq<OpValue>

    /** The counters always add up to the total, `done` counts the accepted ops,
        `left` never goes negative for a non-negative total, the window is the
        latest accepted ops, and no accepted op was running. */
    ghost predicate Valid()
      reads this
      ensures Valid() && cap >= 0 ==> |ops| <= cap
      ensures Valid() && total >= 0 ==> done <= total
    {
      done == |accepted| &&
      done + left == total &&
      (total >= 0 ==> left >= 0) &&
      ops == Window(accepted, cap) &&
      forall k :: 0 <= k < |accepted| ==> !accepted[k].Running()
    }

    /** NewCappedOpGroup: an empty window, nothing done, everything left. */
    constructor (name: string, cap: int, totalOps: int)
      ensures Valid()
      ensures this.name == name && this.cap == cap && total == totalOps
      ensures ops == [] && accepted == [] && done == 0 && left == totalOps
    {
      this.name := name;
      this.cap := cap;
      total := totalOps;
      left := totalOps;
      done := 0;
      ops := [];
      accepted := [];
    }

    /** AddOp: refuses a running op first, then refuses every op once nothing is
        left; a refusal changes nothing. Otherwise the op's value enters the
        window (evicting the oldest past the cap) and one more op is done. */
    method AddOp(op: Op) returns (err: Option<AddError>)
      requires Valid()
      modifies this
      ensures Valid()
      ensures op.Running() ==> err == Some(OpStillRunning)
      ensures !op.Running() && old(left) == 0 ==> err == Some(AllOpsComplete)
      ensures err.None? <==> !op.Running() && old(left) != 0
      ensures err.Some? ==> unchanged(this)
      ensures err.None? ==>
        accepted == old(accepted) + [op.Value()] &&
        ops == Push(old(ops), op.Value(), cap) &&
        done == old(done) + 1 && left == old(left) - 1
      ensures total >= 0 ==> |accepted| <= total
    {
      if op.Running() {
        return Some(OpStillRunning);
      }
      if left == 0 {
        return Some(AllOpsComplete);
      }
      ghost var v := op.Value();
      PushKeepsWindow(accepted, v, cap);
      var window := ops + [op.Value()];
      if |window| > cap {
        window := window[1..];
      }
      assert window == Window(accepted + [v], cap);
      ops, done, left, accepted := window, done + 1, left - 1, accepted + [v];
      err := None;
    }

    /** TimeLeft: the average of the window times the ops left. The projection
        lies between the shortest and the longest retained duration times the
        ops left, and is zero once nothing is left. Go panics on an empty
        window (division by zero in Avg). */
    function TimeLeft(): (d: int)
      reads this
      requires |ops| > 0
      ensures left == 0 ==> d == 0
      ensures left >= 0 ==> ShortestDuration(ops) * left <= d <= LongestDuration(ops) * left
    {
      AverageBetweenExtremes(ops);
      MulMonotone(ShortestDuration(ops), Average(ops), left);
      MulMonotone(Average(ops), LongestDuration(ops), left);
      Average(ops) * left
    }

    /** Eta: the instant `now` moved forward by the time left. */
    function Eta(now: Instant): (t: Instant)
      reads this
      requires |ops| > 0
      ensures left == 0 ==> t == now
      ensures left >= 0 ==> now + ShortestDuration(ops) * left <= t <= now + LongestDuration(ops) * left
    {
      now + TimeLeft()
    }

    /** PercentComplete: left over total, that is the fraction of ops still
        REMAINING despite the name; between 0 and 1 for a positive total. */
    function PercentComplete(): (r: Ratio)
      reads this
      requires Valid()
      ensures r.num == total - done && r.den == total
      ensures total > 0 ==> 0 <= r.num <= r.den
    {
      Ratio(left, total)
    }
  }

  /** Multiplying both sides of a <= b by a non-negative factor. */
  lemma MulMonotone(a: int, b: int, k: int)
    requires a <= b
    ensures k >= 0 ==> a * k <= b * k
  {
    if k >= 0 {
      assert b * k - a * k == (b - a) * k;
    }
  }

  //============================================================================
  // The scenarios of pkg/timing/tracker_test.go
  //============================================================================

  /** Stamps a fresh op with the given endpoints and offers it to the group. */
  method AddStamped(g: CappedOpGroup, start: Instant, end: Instant) returns (err: Option<AddError>)
    requires g.Valid()
    modifies g
    ensures g.Valid()
    ensures start == Zero || end == Zero ==> err == Some(OpStillRunning)
    ensures start != Zero && end != Zero && old(g.left) == 0 ==> err == Some(AllOpsComplete)
    ensures err.None? <==> start != Zero && end != Zero && old(g.left) != 0
    ensures err.Some? ==> unchanged(g)
    ensures err.None? ==>
      g.accepted == old(g.accepted) + [OpValue("", Range(start, end))] &&
      g.done == old(g.done) + 1 && g.left == old(g.left) - 1
  {
    var op := new Op("");
    op.Start(start);
    op.End(end);
    err := g.AddOp(op);
  }

  /** Five ops of one millisecond each, cap 5, total 10: five are left, so the
      time left is five milliseconds and the ETA is now plus that. */
  method EtaCalculationScenario(now: Instant) returns (timeLeft: int, eta: Instant)
    requires now > 0
    ensures timeLeft == 5 * Millisecond && eta == now + 5 * Millisecond
  {
    var g := new CappedOpGroup("Group1", 5, 10);
    for i := 0 to 5
      invariant g.Valid() && g.done == i && g.left == 10 - i
      invariant g.accepted == Uniform(now, i)
    {
      var _ := AddStamped(g, now, now + Millisecond);
      assert Uniform(now, i + 1) == Uniform(now, i) + [OpValue("", Range(now, now + Millisecond))];
    }
    assert g.ops == g.accepted;
    AverageOfEqualDurations(g.ops, Millisecond);
    timeLeft := g.TimeLeft();
    assert timeLeft == Millisecond * 5;
    eta := g.Eta(now);
  }

  /** The ops of the ETA scenario: n ops from `now` to one millisecond later. */
  ghost function Uniform(now: Instant, n: nat): (r: seq<OpValue>)
    ensures |r| == n
    ensures forall k :: 0 <= k < n ==> r[k].runtime.Duration() == Millisecond
  {
    seq(n, k requires 0 <= k < n => OpValue("", Range(now, now + Millisecond)))
  }

  /** The ops of the cap scenario: all start at `now`, the k-th ends k milliseconds later. */
  ghost function Ramp(now: Instant, n: nat): (r: seq<OpValue>)
    ensures |r| == n
    ensures forall k :: 0 <= k < n ==> r[k].runtime.Duration() == k * Millisecond
  {
    seq(n, k requires 0 <= k < n => OpValue("", Range(now, now + k * Millisecond)))
  }

  /** Ten ops lasting 0..9 milliseconds, cap 5, total 10: the window keeps the
      last five, and the longest of them lasts nine milliseconds. */
  method CapStaysCappedScenario(now: Instant) returns (count: int, longest: int)
    requires now > 0
    ensures count == 5 && longest == 9 * Millisecond
  {
    var g := new CappedOpGroup("Group1", 5, 10);
    for i := 0 to 10
      invariant g.Valid() && g.done == i && g.left == 10 - i
      invariant g.accepted == Ramp(now, i)
    {
      var _ := AddStamped(g, now, now + i * Millisecond);
      assert Ramp(now, i + 1) == Ramp(now, i) + [OpValue("", Range(now, now + i * Millisecond))];
    }
    ghost var window := g.ops;
    WindowIsLatest(g.accepted, 5);
    assert |window| == 5;
    assert forall k :: 0 <= k < 5 ==> window[k].runtime.Duration() == (5 + k) * Millisecond;
    count := |g.ops|;
    var pick := Longest(g.ops);
    longest := g.ops[pick.value].runtime.Duration();
    ghost var keys := Durations(window);
    assert keys[4] <= longest <= 9 * Millisecond;
  }

  /** Ten ops into a group of total 10 exhaust it: an eleventh is refused. */
  method CannotExceedTotalScenario(now: Instant) returns (err: Option<AddError>)
    requires now > 0
    ensures err == Some(AllOpsComplete)
  {
    var g := new CappedOpGroup("Group1", 5, 10);
    for i := 0 to 10
      invariant g.Valid() && g.done == i && g.left == 10 - i
    {
      var _ := AddStamped(g, now, now + i * Millisecond);
    }
    err := AddStamped(g, now, now + 11 * Millisecond);
  }

  /** Ten ops into a group of total 20: the ratio reported is 10/20, one half. */
  method PercentCalculationScenario(now: Instant) returns (percent: Ratio)
    requires now > 0
    ensures percent == Ratio(10, 20) && 2 * percent.num == percent.den
  {
    var g := new CappedOpGroup("Group1", 5, 20);
    for i := 0 to 10
      invariant g.Valid() && g.done == i && g.left == 20 - i
    {
      var _ := AddStamped(g, now, now + i * Millisecond);
    }
    percent := g.PercentComplete();
  }

  /** An op with a start and no end is refused as running and leaves the
      group untouched. */
  method CantAddRunningOpScenario(now: Instant) returns (err: Option<AddError>, done: int)
    requires now > 0
    ensures err == Some(OpStillRunning) && done == 0
  {
    var g := new CappedOpGroup("Group1", 5, 20);
    err := AddStamped(g, now, Zero);
    done := g.done;
  }
}
