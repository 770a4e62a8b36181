/** Half-open intervals of days (effective time) and of instants (recorded time).

    Both kinds are intervals of integers; a missing end is open. The constructor
    rejects an empty or reversed interval, so every `Interval` contains its start.
 */
module Intervals {
  import opened Prelude
  import opened Errors

  datatype Bounds = Bounds(start: int, end: Option<int>) {
    predicate Ordered() {
      end.Some? ==> start < end.value
    }

    predicate Contains(point: int) {
      start <= point && (end.Some? ==> point < end.value)
    }

    predicate Overlaps(other: Bounds) {
      && !(end.Some? && end.value <= other.start)
      && !(other.end.Some? && other.end.value <= start)
    }
  }

  type Interval = b: Bounds | b.Ordered() witness Bounds(0, None)

  function From(start: int): Interval {
    Bounds(start, None)
  }

  /** The constructor check: exactly the intervals with a point are accepted. */
  function Create(start: int, end: Option<int>): (r: Result<Interval, KernelError>)
    ensures r.Ok? <==> exists p :: Bounds(start, end).Contains(p)
    ensures r.Ok? ==> r.value.start == start && r.value.end == end
  {
    var b := Bounds(start, end);
    if end.Some? && end.value <= start then
      Err(IntervalError)
    else
      assert b.Contains(start);
      Ok(b)
  }

  /** A bounded interval holds its first point and the last before its end, and neither the end nor anything outside. */
  lemma HalfOpen(start: int, end: int, point: int)
    requires start < end
    ensures Bounds(start, Some(end)).Contains(point) <==> start <= point < end
    ensures Bounds(start, None).Contains(point) <==> point >= start
  {
  }

  /** The two comparisons of `overlaps` decide whether a common point exists. */
  lemma OverlapIsCommonPoint(a: Interval, b: Interval)
    ensures a.Overlaps(b) <==> exists p :: a.Contains(p) && b.Contains(p)
    ensures a.Overlaps(b) ==> var p := if a.start < b.start then b.start else a.start;
                              a.Contains(p) && b.Contains(p)
  {
    var p := if a.start < b.start then b.start else a.start;
    if a.Overlaps(b) {
      assert a.Contains(p) && b.Contains(p);
    }
  }

  /** Helly's theorem on the line: three intervals that meet pairwise have one common point. */
  lemma PairwiseMeetingHasCommonPoint(a: Interval, b: Interval, c: Interval) returns (p: int)
    requires a.Overlaps(b) && b.Overlaps(c) && a.Overlaps(c)
    ensures a.Contains(p) && b.Contains(p) && c.Contains(p)
  {
    var ab := if a.start < b.start then b.start else a.start;
    p := if ab < c.start then c.start else ab;
  }
}
