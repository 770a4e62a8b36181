/** The greedy cursor walk that decides whether a union of periods covers a target period. */
module Coverage {
  import opened Prelude
  import opened Intervals

  ghost predicate CoveredOn(intervals: seq<Interval>, day: int) {
    exists i :: i in intervals && i.Contains(day)
  }

  /** Every day of the target, finitely or infinitely many, lies in some interval. */
  ghost predicate CoversEveryDay(intervals: seq<Interval>, target: Interval) {
    forall day :: target.Contains(day) ==> CoveredOn(intervals, day)
  }

  /** The first interval containing the day, as `next(...)` finds it. */
  function FirstContaining(intervals: seq<Interval>, day: int): (r: Option<Interval>)
    ensures r.Some? ==> r.value in intervals && r.value.Contains(day)
    ensures r.None? ==> forall i :: i in intervals ==> !i.Contains(day)
  {
    if intervals == [] then None
    else if intervals[0].Contains(day) then Some(intervals[0])
    else FirstContaining(intervals[1..], day)
  }

  /** How many intervals end after the cursor; the walk uses one of them up at each turn. */
  ghost function EndingAfter(intervals: seq<Interval>, cursor: int): nat {
    if intervals == [] then 0
    else (if intervals[0].end.Some? && cursor < intervals[0].end.value then 1 else 0)
         + EndingAfter(intervals[1..], cursor)
  }

  lemma {:induction false} EndingAfterShrinks(intervals: seq<Interval>, cursor: int, later: int)
    requires cursor <= later
    ensures EndingAfter(intervals, later) <= EndingAfter(intervals, cursor)
    ensures (exists i :: i in intervals && i.end == Some(later) && cursor < later)
            ==> EndingAfter(intervals, later) < EndingAfter(intervals, cursor)
  {
    if intervals != [] {
      EndingAfterShrinks(intervals[1..], cursor, later);
    }
  }

  /** The walk terminates and accepts exactly when every day of the target, bounded or open,
      is covered, whatever the order and the overlaps of the intervals. */
  method UnionCovers(intervals: seq<Interval>, target: Interval) returns (covered: bool)
    ensures covered <==> CoversEveryDay(intervals, target)
  {
    var cursor := target.start;
    while target.end.None? || cursor < target.end.value
      invariant target.start <= cursor
      invariant forall day :: target.Contains(day) && day < cursor ==> CoveredOn(intervals, day)
      decreases EndingAfter(intervals, cursor)
    {
      var covering := FirstContaining(intervals, cursor);
      if covering.None? {
        assert target.Contains(cursor) && !CoveredOn(intervals, cursor);
        return false;
      }
      if covering.value.end.None? {
        forall day | target.Contains(day) ensures CoveredOn(intervals, day) {
          if cursor <= day {
            assert covering.value.Contains(day);
          }
        }
        return true;
      }
      var next := covering.value.end.value;
      forall day | target.Contains(day) && day < next ensures CoveredOn(intervals, day) {
        if cursor <= day {
          assert covering.value.Contains(day);
        }
      }
      EndingAfterShrinks(intervals, cursor, next);
      cursor := next;
    }
    return true;
  }
}
