/**
 * A time range: a pair of instants with a direction, a signed duration,
 * a magnitude and two containment tests (pkg/timing/range.go).
 *
 * Instants are counted in nanoseconds; `Zero` plays the part of Go's zero
 * `time.Time`, the value an unset endpoint has. Durations are nanosecond
 * counts as `time.Duration` is.
 */
module TimeRange {

  /** An instant, in nanoseconds. */
  type Instant = int

  /** The zero instant: the value of an endpoint that was never set. */
  const Zero: Instant := 0

  /** One millisecond, as a nanosecond count. */
  const Millisecond: int := 1_000_000

  /** Go's `type Direction int`; only the three constants below are ever produced. */
  newtype Direction = d: int | -1 <= d <= 1

  const Desc: Direction := -1
  const Equal: Direction := 0
  const Asc: Direction := 1

  datatype Range = Range(start: Instant, end: Instant) {

    /** True when either endpoint is still unset; a range is bounded only once
        both endpoints carry a non-zero instant. */
    predicate UnBounded()
      ensures !UnBounded() <==> start != Zero && end != Zero
    {
      start == Zero || end == Zero
    }

    /** Equal when the endpoints coincide, Asc when start comes first, Desc otherwise. */
    function Direction(): (d: Direction)
      ensures d == Equal <==> start == end
      ensures d == Asc <==> start < end
      ensures d == Desc <==> end < start
    {
      if start == end then Equal
      else if start < end then Asc
      else Desc
    }

    /** Strictly after start and strictly before end; the endpoints are not
        reordered, so only an ascending range contains anything exclusively. */
    predicate ContainsExclusive(t: Instant)
      ensures ContainsExclusive(t) ==> Direction() == Asc && t != start && t != end
    {
      start < t && t < end
    }

    /** The exclusive test widened by the two endpoints themselves: both
        endpoints are contained, and whatever is contained lies between them
        in whichever order they come. */
    predicate Contains(t: Instant)
      ensures t == start || t == end ==> Contains(t)
      ensures ContainsExclusive(t) ==> Contains(t)
      ensures Contains(t) ==> (start <= t <= end || end <= t <= start)
    {
      ContainsExclusive(t) || t == end || t == start
    }

    /** The signed duration end - start: negative exactly when end comes
        before start, zero exactly when the endpoints coincide. */
    function Duration(): (d: int)
      ensures d < 0 <==> end < start
      ensures d == 0 <==> start == end
    {
      end - start
    }

    /** The size of the range, whatever its direction. */
    function DurationMagnitude(): (m: int)
      ensures m >= 0
      ensures m == Duration() || m == -Duration()
      ensures m == 0 <==> Direction() == Equal
    {
      match Direction()
      case 1 => end - start
      case -1 => start - end
      case _ => 0
    }
  }

  /** The range both of whose endpoints are unset. */
  const Unset: Range := Range(Zero, Zero)

  /** The direction constants carry the values -1, 0 and 1, and the direction
      is the sign of the duration. */
  lemma DirectionIsSignOfDuration(r: Range)
    ensures Desc as int == -1 && Equal as int == 0 && Asc as int == 1
    ensures r.Direction() == Desc <==> r.Duration() < 0
    ensures r.Direction() == Equal <==> r.Duration() == 0
    ensures r.Direction() == Asc <==> r.Duration() > 0
  {
  }

  /** Both endpoints are always contained, and the exclusive test implies the inclusive one. */
  lemma ContainsEndpoints(r: Range, t: Instant)
    ensures r.Contains(r.start) && r.Contains(r.end)
    ensures r.ContainsExclusive(t) ==> r.Contains(t)
  {
  }

  /** For an ascending or empty range the inclusive test is the closed interval;
      for a descending one only the two endpoints are contained. */
  lemma ContainsByDirection(r: Range, t: Instant)
    ensures r.Direction() != Desc ==> (r.Contains(t) <==> r.start <= t <= r.end)
    ensures r.Direction() == Desc ==> (r.Contains(t) <==> t == r.start || t == r.end)
  {
  }

  /** The exclusive test is the open interval between the raw endpoints, so it
      never holds for an equal or descending range, nor at an endpoint. */
  lemma ContainsExclusiveIsOpenInterval(r: Range, t: Instant)
    ensures r.Direction() != Asc ==> !r.ContainsExclusive(t)
    ensures !r.ContainsExclusive(r.start) && !r.ContainsExclusive(r.end)
  {
  }

  /** The magnitude is the duration for an ascending range, its negation for a
      descending one, and zero for an equal one. */
  lemma MagnitudeByDirection(r: Range)
    ensures r.Direction() == Asc ==> r.DurationMagnitude() == r.Duration() == r.end - r.start
    ensures r.Direction() == Desc ==> r.DurationMagnitude() == -r.Duration() == r.start - r.end
    ensures r.Direction() == Equal ==> r.DurationMagnitude() == 0 == r.Duration()
  {
  }
}
