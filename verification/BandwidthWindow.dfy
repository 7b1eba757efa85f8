/** How many points the aggregation of a time window has: one for each non-empty slot that the window touches. */
module BandwidthWindow {
  import opened Base
  import opened Bandwidth
  import opened BandwidthGroupBy

  /** The k-th bucket that a window starting at the given time touches. */
  function Slot(from: int, d: int, k: int): int
    requires d > 0
  {
    Truncate(from, d) + k * d
  }

  /** The k-th of n + 1 slots. */
  function Slots(from: int, d: int, n: nat): set<int>
    requires d > 0
  {
    set k | 0 <= k <= n :: Slot(from, d, k)
  }

  lemma SlotsRise(from: int, d: int, j: int, k: int)
    requires d > 0 && j < k
    ensures Slot(from, d, j) + d <= Slot(from, d, k)
  {
    MulMonotone(d, j + 1, k);
  }

  lemma {:induction false} SlotsSize(from: int, d: int, n: nat)
    requires d > 0
    ensures |Slots(from, d, n)| == n + 1
  {
    if n == 0 {
      assert Slots(from, d, n) == {Slot(from, d, 0)};
    } else {
      SlotsSize(from, d, n - 1);
      assert Slots(from, d, n) == Slots(from, d, n - 1) + {Slot(from, d, n)};
      forall k | 0 <= k < n
        ensures Slot(from, d, k) != Slot(from, d, n)
      {
        SlotsRise(from, d, k, n);
      }
    }
  }

  lemma SlotAligned(from: int, d: int, k: int)
    requires d > 0
    ensures Aligned(Slot(from, d, k), d)
  {
    assert from == d * (from / d) + from % d;
    assert Slot(from, d, k) == d * (from / d + k);
    MulMod(d, from / d + k);
  }

  /** A time in the window falls into one of its slots. */
  lemma SlotOf(from: int, d: int, n: nat, at: int) returns (k: int)
    requires d > 0 && from <= at <= from + n * d
    ensures 0 <= k <= n && Truncate(at, d) == Slot(from, d, k)
  {
    var p, q := from / d, at / d;
    k := q - p;
    assert from == d * p + from % d && at == d * q + at % d;
    assert d * q == d * p + k * d;
    if k < 0 {
      MulMonotone(d, q + 1, p);
    } else if k > n {
      MulMonotone(d, p + n + 1, q);
    }
  }

  ghost predicate InWindow(snaps: seq<Snapshot>, from: int, to: int) {
    Sorted(snaps) && forall i :: 0 <= i < |snaps| ==> from <= snaps[i].at <= to
  }

  // ----- the times of the points -----

  function Times(points: seq<Snapshot>): set<int> {
    set i | 0 <= i < |points| :: points[i].at
  }

  lemma {:induction false} TimesSize(points: seq<Snapshot>)
    requires Rising(points)
    ensures |Times(points)| == |points|
  {
    if points != [] {
      var n := |points| - 1;
      TimesSize(points[..n]);
      assert Times(points) == Times(points[..n]) + {points[n].at};
    }
  }

  lemma PointHasMembers(snaps: seq<Snapshot>, d: int, points: seq<Snapshot>, t: int)
    requires d > 0 && GroupBy(points, snaps, d)
    ensures t in Times(points) <==> Members(snaps, t, d) != []
  {
    if t in Times(points) {
      var i :| 0 <= i < |points| && points[i].at == t;
      assert IsBucket(points[i], snaps, d);
    }
    if Members(snaps, t, d) != [] {
      var s := Members(snaps, t, d)[0];
      MembersAre(snaps, t, d, s);
      assert HasPoint(points, t);
    }
  }

  lemma TimesInSlots(snaps: seq<Snapshot>, d: int, from: int, n: nat, points: seq<Snapshot>)
    requires d > 0 && InWindow(snaps, from, from + n * d) && GroupBy(points, snaps, d)
    ensures Times(points) <= Slots(from, d, n)
  {
    forall t | t in Times(points)
      ensures t in Slots(from, d, n)
    {
      PointHasMembers(snaps, d, points, t);
      var s := Members(snaps, t, d)[0];
      MembersAre(snaps, t, d, s);
      var k := SlotOf(from, d, n, s.at);
    }
  }

  // ----- the number of points -----

  ghost predicate EmptySlot(snaps: seq<Snapshot>, d: int, from: int, k: int)
    requires d > 0
  {
    Members(snaps, Slot(from, d, k), d) == []
  }

  ghost predicate HasEmptySlot(snaps: seq<Snapshot>, d: int, from: int, n: nat)
    requires d > 0
  {
    exists k :: 0 <= k <= n && EmptySlot(snaps, d, from, k)
  }

  /** Every slot has a point if and only if none is empty. */
  lemma SlotsFull(snaps: seq<Snapshot>, d: int, from: int, n: nat, points: seq<Snapshot>)
    requires d > 0 && GroupBy(points, snaps, d)
    ensures Slots(from, d, n) <= Times(points) <==> !HasEmptySlot(snaps, d, from, n)
  {
    forall k | 0 <= k <= n
      ensures Slot(from, d, k) in Times(points) <==> !EmptySlot(snaps, d, from, k)
    {
      PointHasMembers(snaps, d, points, Slot(from, d, k));
    }
    if k :| 0 <= k <= n && EmptySlot(snaps, d, from, k) {
      assert Slot(from, d, k) in Slots(from, d, n);
    }
  }

  lemma GroupPoints(points: seq<Snapshot>, snaps: seq<Snapshot>, d: int, from: int, n: nat)
    requires d > 0 && InWindow(snaps, from, from + n * d) && GroupBy(points, snaps, d)
    ensures |points| <= n + 1
    ensures |points| <= n <==> HasEmptySlot(snaps, d, from, n)
  {
    var times, slots := Times(points), Slots(from, d, n);
    TimesSize(points);
    SlotsSize(from, d, n);
    TimesInSlots(snaps, d, from, n, points);
    SubsetSize(times, slots);
    SlotsFull(snaps, d, from, n, points);
    if HasEmptySlot(snaps, d, from, n) {
      assert times != slots;
    } else {
      assert times == slots;
    }
  }

  /** A window of n intervals has at most n + 1 points, and at most n if and only if one of its n + 1 slots is empty. */
  lemma WindowPoints(snaps: seq<Snapshot>, d: int, from: int, n: nat)
    requires d >= SECOND && InWindow(snaps, from, from + n * d)
    ensures |Aggregated(snaps, d)| <= n + 1
    ensures |Aggregated(snaps, d)| <= n <==> HasEmptySlot(snaps, d, from, n)
  {
    AggregatedIsGroupBy(snaps, d);
    GroupPoints(Aggregated(snaps, d), snaps, d, from, n);
  }

  lemma {:induction false} EmittedCount(snaps: seq<Snapshot>, d: int, t: int, end: int, n: nat)
    requires d > 0 && end - t < n * d
    ensures |Emitted(snaps, d, t, end)| <= n
    decreases n
  {
    if t <= end {
      assert n > 0 && (n - 1) * d == n * d - d;
      EmittedCount(snaps, d, t + d, end, n - 1);
    }
  }

  /** Whatever the interval and the order, snapshots spanning n intervals make at most n + 1 points. */
  lemma PointsWithin(snaps: seq<Snapshot>, d: int, n: nat)
    requires d > 0 && (snaps != [] ==> snaps[|snaps| - 1].at - snaps[0].at <= n * d)
    ensures |Aggregated(snaps, d)| <= n + 1
  {
    if snaps != [] {
      TruncateAligned(snaps[0].at, d);
      assert (n + 1) * d == n * d + d;
      EmittedCount(snaps, d, Truncate(snaps[0].at, d), snaps[|snaps| - 1].at, n + 1);
    }
  }

  /** One snapshot in each slot of the window, as early as the window allows. */
  function Spread(from: int, d: int, n: nat): seq<Snapshot>
    requires d > 0
  {
    seq(n + 1, k requires 0 <= k <= n => Snapshot("vm", if k == 0 then from else Slot(from, d, k), 0, 0))
  }

  lemma SpreadInWindow(from: int, d: int, n: nat)
    requires d > 0
    ensures InWindow(Spread(from, d, n), from, from + n * d)
  {
    var snaps := Spread(from, d, n);
    TruncateAligned(from, d);
    forall i, j | 0 <= i < j < |snaps|
      ensures snaps[i].at <= snaps[j].at
    {
      SlotsRise(from, d, i, j);
    }
    forall i | 0 <= i < |snaps|
      ensures from <= snaps[i].at <= from + n * d
    {
      MulMonotone(d, i, n);
      if i > 0 {
        SlotsRise(from, d, 0, i);
      }
    }
  }

  lemma SpreadFills(from: int, d: int, n: nat, k: int)
    requires d > 0 && 0 <= k <= n
    ensures !EmptySlot(Spread(from, d, n), d, from, k)
  {
    var s := Spread(from, d, n)[k];
    assert Truncate(s.at, d) == Slot(from, d, k) by {
      if k > 0 {
        SlotAligned(from, d, k);
      }
    }
    MembersAre(Spread(from, d, n), Slot(from, d, k), d, s);
  }

  /** Wherever a window of n intervals starts, some snapshots in it make n + 1 points. */
  lemma WindowCanBeFull(from: int, d: int, n: nat)
    requires d >= SECOND
    ensures InWindow(Spread(from, d, n), from, from + n * d) && |Aggregated(Spread(from, d, n), d)| == n + 1
  {
    SpreadInWindow(from, d, n);
    WindowPoints(Spread(from, d, n), d, from, n);
    forall k | 0 <= k <= n
      ensures !EmptySlot(Spread(from, d, n), d, from, k)
    {
      SpreadFills(from, d, n, k);
    }
  }

  // ----- a week -----

  const WEEK := 7 * 24 * HOUR
  const SIX_HOURS := 6 * HOUR

  /** A week of snapshots in six-hour buckets has at most 29 points, and the documented 28 at most if and only if one of
      the 29 slots that the week touches is empty. */
  lemma WeekPoints(snaps: seq<Snapshot>, from: int)
    requires InWindow(snaps, from, from + WEEK)
    ensures |Aggregated(snaps, SIX_HOURS)| <= 29
    ensures |Aggregated(snaps, SIX_HOURS)| <= 28 <==> HasEmptySlot(snaps, SIX_HOURS, from, 28)
  {
    WindowPoints(snaps, SIX_HOURS, from, 28);
  }

  // ----- the rows that are stored -----

  /** Stored snapshots carry a year, month, day and hour: their times are on the hour. */
  ghost predicate OnTheHour(snaps: seq<Snapshot>) {
    forall i :: 0 <= i < |snaps| ==> snaps[i].at % HOUR == 0
  }

  /** In the last hour of a slot no hour begins before the slot ends. */
  lemma LateStartLeavesSlot(snaps: seq<Snapshot>, from: int)
    requires InWindow(snaps, from, from + WEEK) && OnTheHour(snaps) && from % SIX_HOURS > 5 * HOUR
    ensures EmptySlot(snaps, SIX_HOURS, from, 0)
  {
    var t := Slot(from, SIX_HOURS, 0);
    if Members(snaps, t, SIX_HOURS) != [] {
      var s := Members(snaps, t, SIX_HOURS)[0];
      MembersAre(snaps, t, SIX_HOURS, s);
      NoHourBetween(from, s.at);
    }
  }

  lemma TruncateIs(t: int, d: int, q: int)
    requires d > 0 && d * q <= t < d * q + d
    ensures Truncate(t, d) == d * q
  {
    var p := t / d;
    assert t == d * p + t % d;
    if p < q {
      MulMonotone(d, p + 1, q);
    } else if p > q {
      MulMonotone(d, q + 1, p);
    }
  }

  lemma NoHourBetween(from: int, at: int)
    requires from <= at && from % SIX_HOURS > 5 * HOUR && at % HOUR == 0
    ensures Truncate(at, SIX_HOURS) != Truncate(from, SIX_HOURS)
  {
    var m, q := at / HOUR, from / SIX_HOURS;
    assert at == HOUR * m && Truncate(from, SIX_HOURS) == SIX_HOURS * q;
    assert HOUR * m > HOUR * (6 * q + 5);
    assert m >= 6 * q + 6;
    assert at >= SIX_HOURS * q + SIX_HOURS;
    TruncateAligned(at, SIX_HOURS);
  }

  function FirstHour(from: int): int {
    if from % HOUR == 0 then from else from - from % HOUR + HOUR
  }

  lemma FirstHourInSlot(from: int)
    requires from % SIX_HOURS <= 5 * HOUR
    ensures FirstHour(from) % HOUR == 0 && from <= FirstHour(from) && Truncate(FirstHour(from), SIX_HOURS) == Truncate(from, SIX_HOURS)
  {
    var m, q := from / HOUR, from / SIX_HOURS;
    assert from == HOUR * m + from % HOUR && Truncate(from, SIX_HOURS) == SIX_HOURS * q;
    var k := if from % HOUR == 0 then m else m + 1;
    assert FirstHour(from) == HOUR * k;
    MulMod(HOUR, k);
    assert k <= 6 * q + 5;
    TruncateIs(FirstHour(from), SIX_HOURS, q);
  }

  /** A snapshot at the first hour of the week and at the start of each further slot. */
  function Hourly(from: int, n: nat): seq<Snapshot> {
    seq(n + 1, k requires 0 <= k <= n => Snapshot("vm", if k == 0 then FirstHour(from) else Slot(from, SIX_HOURS, k), 0, 0))
  }

  lemma SlotOnTheHour(from: int, k: int)
    ensures Slot(from, SIX_HOURS, k) % HOUR == 0
  {
    var q := from / SIX_HOURS + k;
    assert Slot(from, SIX_HOURS, k) == HOUR * (6 * q);
    MulMod(HOUR, 6 * q);
  }

  lemma HourlyInWeek(from: int)
    requires from % SIX_HOURS <= 5 * HOUR
    ensures InWindow(Hourly(from, 28), from, from + WEEK) && OnTheHour(Hourly(from, 28))
  {
    var snaps, d := Hourly(from, 28), SIX_HOURS;
    FirstHourInSlot(from);
    TruncateAligned(from, d);
    TruncateAligned(FirstHour(from), d);
    forall i, j | 0 <= i < j < |snaps|
      ensures snaps[i].at <= snaps[j].at
    {
      SlotsRise(from, d, i, j);
    }
    forall i | 0 <= i < |snaps|
      ensures from <= snaps[i].at <= from + WEEK && snaps[i].at % HOUR == 0
    {
      SlotOnTheHour(from, i);
      MulMonotone(d, i, 28);
      if i > 0 {
        SlotsRise(from, d, 0, i);
      }
    }
  }

  lemma HourlyFills(from: int, k: int)
    requires from % SIX_HOURS <= 5 * HOUR && 0 <= k <= 28
    ensures !EmptySlot(Hourly(from, 28), SIX_HOURS, from, k)
  {
    var s := Hourly(from, 28)[k];
    FirstHourInSlot(from);
    SlotAligned(from, SIX_HOURS, k);
    MembersAre(Hourly(from, 28), Slot(from, SIX_HOURS, k), SIX_HOURS, s);
  }

  /** Stored snapshots of the week can make 29 points if and only if the week does not start in the last hour of a slot. */
  lemma WeekCanHave29(from: int)
    ensures (exists snaps :: FullWeek(snaps, from)) <==> from % SIX_HOURS <= 5 * HOUR
  {
    if from % SIX_HOURS <= 5 * HOUR {
      var snaps := Hourly(from, 28);
      HourlyInWeek(from);
      WeekPoints(snaps, from);
      forall k | 0 <= k <= 28
        ensures !EmptySlot(snaps, SIX_HOURS, from, k)
      {
        HourlyFills(from, k);
      }
      assert FullWeek(snaps, from);
    } else {
      forall snaps
        ensures !FullWeek(snaps, from)
      {
        LateStart(snaps, from);
      }
    }
  }

  /** Stored snapshots of the week from the given time make 29 points. */
  ghost predicate FullWeek(snaps: seq<Snapshot>, from: int) {
    InWindow(snaps, from, from + WEEK) && OnTheHour(snaps) && |Aggregated(snaps, SIX_HOURS)| == 29
  }

  lemma LateStart(snaps: seq<Snapshot>, from: int)
    requires from % SIX_HOURS > 5 * HOUR
    ensures !FullWeek(snaps, from)
  {
    if InWindow(snaps, from, from + WEEK) && OnTheHour(snaps) {
      LateStartLeavesSlot(snaps, from);
      WeekPoints(snaps, from);
    }
  }
}
