/** Aggregation loses no bytes. */
module BandwidthTotals {
  import opened Base
  import opened Bandwidth
  import opened BandwidthGroupBy

  // ----- conservation -----

  /** The bytes of the snapshots whose bucket starts at t or later. */
  function SumFrom(snaps: seq<Snapshot>, t: int, d: int, dir: Direction): int
    requires d > 0
  {
    if snaps == [] then 0
    else
      var n := |snaps| - 1;
      SumFrom(snaps[..n], t, d, dir) + (if Truncate(snaps[n].at, d) >= t then Flow(snaps[n], dir) else 0)
  }

  lemma {:induction false} SumConcat(a: seq<Snapshot>, b: seq<Snapshot>, dir: Direction)
    ensures Sum(a + b, dir) == Sum(a, dir) + Sum(b, dir)
  {
    if b == [] {
      assert a + b == a;
    } else {
      var n := |b| - 1;
      assert (a + b)[..|a + b| - 1] == a + b[..n];
      SumConcat(a, b[..n], dir);
    }
  }

  lemma {:induction false} MembersSum(snaps: seq<Snapshot>, t: int, d: int, dir: Direction)
    requires d > 0 && Aligned(t, d)
    ensures SumFrom(snaps, t, d, dir) == Sum(Members(snaps, t, d), dir) + SumFrom(snaps, t + d, d, dir)
  {
    if snaps != [] {
      var n := |snaps| - 1;
      MembersSum(snaps[..n], t, d, dir);
      var b := Truncate(snaps[n].at, d);
      TruncateAligned(snaps[n].at, d);
      if b == t {
        SumConcat(Members(snaps[..n], t, d), [snaps[n]], dir);
        assert [snaps[n]][..0] == [];
      } else {
        assert Members(snaps, t, d) == Members(snaps[..n], t, d);
        if b > t {
          AlignedGap(t, b, d);
        }
      }
    }
  }

  lemma {:induction false} SumFromLimits(snaps: seq<Snapshot>, t: int, d: int, dir: Direction)
    requires d > 0
    ensures (forall s :: s in snaps ==> s.at < t) ==> SumFrom(snaps, t, d, dir) == 0
    ensures (forall s :: s in snaps ==> Truncate(s.at, d) >= t) ==> SumFrom(snaps, t, d, dir) == Sum(snaps, dir)
  {
    if snaps != [] {
      var n := |snaps| - 1;
      SumFromLimits(snaps[..n], t, d, dir);
      assert snaps[n] in snaps && forall s :: s in snaps[..n] ==> s in snaps;
      TruncateAligned(snaps[n].at, d);
    }
  }

  /** The bytes of a point are those of its bucket, up to a multiple of 2^64. */
  lemma PointFlow(snaps: seq<Snapshot>, d: int, t: int, dir: Direction) returns (k: int)
    requires d >= SECOND && Aligned(t, d)
    ensures Sum(PointAt(snaps, d, t), dir) == Sum(Members(snaps, t, d), dir) + k * TWO_64
  {
    FiledIsMembers(snaps, t, d);
    var ps := PointAt(snaps, d, t);
    if ps == [] {
      k := 0;
    } else {
      assert ps[..0] == [];
      k := WrapShift(Sum(Members(snaps, t, d), dir));
    }
  }

  lemma EmittedStep(snaps: seq<Snapshot>, d: int, t: int, end: int, dir: Direction)
    requires d > 0 && t <= end
    ensures Sum(Emitted(snaps, d, t, end), dir) == Sum(PointAt(snaps, d, t), dir) + Sum(Emitted(snaps, d, t + d, end), dir)
  {
    SumConcat(PointAt(snaps, d, t), Emitted(snaps, d, t + d, end), dir);
  }

  ghost predicate NoneAfter(snaps: seq<Snapshot>, end: int) {
    forall s :: s in snaps ==> s.at <= end
  }

  /** So are the bytes of all points from t on. */
  lemma {:induction false} EmittedSum(snaps: seq<Snapshot>, d: int, t: int, end: int, dir: Direction) returns (k: int)
    requires d >= SECOND && Aligned(t, d) && NoneAfter(snaps, end)
    ensures Sum(Emitted(snaps, d, t, end), dir) == SumFrom(snaps, t, d, dir) + k * TWO_64
    decreases end - t
  {
    if t > end {
      SumFromLimits(snaps, t, d, dir);
      k := 0;
    } else {
      AlignedNext(t, d);
      var here := PointFlow(snaps, d, t, dir);
      var later := EmittedSum(snaps, d, t + d, end, dir);
      EmittedStep(snaps, d, t, end, dir);
      MembersSum(snaps, t, d, dir);
      k := here + later;
    }
  }

  /** In int64 arithmetic the emitted bytes, in and out, add up to the input bytes. */
  lemma AggregationConserves(snaps: seq<Snapshot>, d: int, dir: Direction)
    requires d >= SECOND && Sorted(snaps)
    ensures Wrap(Sum(Aggregated(snaps, d), dir)) == Wrap(Sum(snaps, dir))
  {
    if snaps != [] {
      var start, end := Truncate(snaps[0].at, d), snaps[|snaps| - 1].at;
      TruncateAligned(snaps[0].at, d);
      forall s | s in snaps
        ensures s.at <= end && Truncate(s.at, d) >= start
      {
        TruncateMonotone(snaps[0].at, s.at, d);
      }
      var k := EmittedSum(snaps, d, start, end, dir);
      SumFromLimits(snaps, start, d, dir);
      WrapShifted(Sum(snaps, dir), k);
    }
  }
}
