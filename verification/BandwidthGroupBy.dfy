/** The map-and-scan aggregation is the plain group-by, exactly for intervals of at least one second. */
module BandwidthGroupBy {
  import opened Base
  import opened Bandwidth

  // ----- alignment -----

  predicate Aligned(t: int, d: int)
    requires d > 0
  {
    t % d == 0
  }

  lemma MulMod(d: int, q: int)
    requires d > 0
    ensures (d * q) % d == 0
  {
    var n := d * q;
    assert n == d * (n / d) + n % d;
    if n % d != 0 {
      if q > n / d {
        MulMonotone(d, n / d + 1, q);
      } else {
        MulMonotone(d, q, n / d);
      }
      assert false;
    }
  }

  lemma TruncateAligned(t: int, d: int)
    requires d > 0
    ensures Aligned(Truncate(t, d), d) && Truncate(t, d) <= t < Truncate(t, d) + d
  {
    assert t == d * (t / d) + t % d;
    MulMod(d, t / d);
  }

  /** Different aligned times are at least one interval apart. */
  lemma AlignedGap(a: int, b: int, d: int)
    requires d > 0 && Aligned(a, d) && Aligned(b, d) && a < b
    ensures a + d <= b
  {
    assert a == d * (a / d) && b == d * (b / d);
    if a / d >= b / d {
      MulMonotone(d, b / d, a / d);
      assert false;
    }
    MulMonotone(d, a / d + 1, b / d);
  }

  lemma AlignedNext(t: int, d: int)
    requires d > 0 && Aligned(t, d)
    ensures Aligned(t + d, d)
  {
    var q := t / d;
    assert t + d == d * (q + 1);
    MulMod(d, q + 1);
  }

  /** With intervals of a second or more, the Unix second of a bucket names the bucket. */
  lemma KeysDistinct(a: int, b: int, d: int)
    requires d >= SECOND && Aligned(a, d) && Aligned(b, d)
    ensures Unix(a) == Unix(b) <==> a == b
  {
    if a < b {
      AlignedGap(a, b, d);
    } else if b < a {
      AlignedGap(b, a, d);
    }
  }

  // ----- the group-by -----

  /** The snapshots of one bucket. */
  function Members(snaps: seq<Snapshot>, t: int, d: int): seq<Snapshot>
    requires d > 0
  {
    if snaps == [] then []
    else
      var n := |snaps| - 1;
      Members(snaps[..n], t, d) + (if Truncate(snaps[n].at, d) == t then [snaps[n]] else [])
  }

  lemma {:induction false} MembersAre(snaps: seq<Snapshot>, t: int, d: int, s: Snapshot)
    requires d > 0
    ensures s in Members(snaps, t, d) <==> s in snaps && Truncate(s.at, d) == t
  {
    if snaps != [] {
      var n := |snaps| - 1;
      MembersAre(snaps[..n], t, d, s);
      assert s in snaps <==> s in snaps[..n] || s == snaps[n];
    }
  }

  ghost predicate Rising(points: seq<Snapshot>) {
    forall i, j :: 0 <= i < j < |points| ==> points[i].at < points[j].at
  }

  ghost predicate HasPoint(points: seq<Snapshot>, t: int) {
    exists i :: 0 <= i < |points| && points[i].at == t
  }

  predicate IsBucket(p: Snapshot, snaps: seq<Snapshot>, d: int)
    requires d > 0
  {
    var items := Members(snaps, p.at, d);
    items != [] && p == Total(items, p.at)
  }

  ghost predicate AllBuckets(points: seq<Snapshot>, snaps: seq<Snapshot>, d: int)
    requires d > 0
  {
    forall i :: 0 <= i < |points| ==> IsBucket(points[i], snaps, d)
  }

  /** One point for each non-empty bucket, holding that bucket's total, in increasing time. */
  ghost predicate GroupBy(points: seq<Snapshot>, snaps: seq<Snapshot>, d: int)
    requires d > 0
  {
    && Rising(points)
    && AllBuckets(points, snaps, d)
    && (forall s :: s in snaps ==> HasPoint(points, Truncate(s.at, d)))
  }

  lemma {:induction false} FiledIsMembers(snaps: seq<Snapshot>, t: int, d: int)
    requires d >= SECOND && Aligned(t, d)
    ensures Filed(snaps, Unix(t), d) == Members(snaps, t, d)
  {
    if snaps != [] {
      var n := |snaps| - 1;
      FiledIsMembers(snaps[..n], t, d);
      TruncateAligned(snaps[n].at, d);
      KeysDistinct(Truncate(snaps[n].at, d), t, d);
    }
  }

  /** Every emitted point is a bucket at or after t, and they rise. */
  lemma {:induction false} EmittedBuckets(snaps: seq<Snapshot>, d: int, t: int, end: int)
    requires d >= SECOND && Aligned(t, d)
    ensures var ps := Emitted(snaps, d, t, end);
            Rising(ps) && AllBuckets(ps, snaps, d) && NotBefore(ps, t)
    decreases end - t
  {
    if t <= end {
      AlignedNext(t, d);
      EmittedBuckets(snaps, d, t + d, end);
      PointIsBucket(snaps, d, t);
      var here, rest := PointAt(snaps, d, t), Emitted(snaps, d, t + d, end);
      if here != [] {
        PrependBucket(here[0], rest, snaps, d);
        assert here + rest == [here[0]] + rest;
      } else {
        assert here + rest == rest;
      }
    }
  }

  lemma PointIsBucket(snaps: seq<Snapshot>, d: int, t: int)
    requires d >= SECOND && Aligned(t, d)
    ensures var here := PointAt(snaps, d, t);
            here != [] ==> |here| == 1 && here[0].at == t && IsBucket(here[0], snaps, d)
  {
    FiledIsMembers(snaps, t, d);
  }

  ghost predicate NotBefore(points: seq<Snapshot>, t: int) {
    forall i :: 0 <= i < |points| ==> t <= points[i].at
  }

  lemma PrependBucket(p: Snapshot, rest: seq<Snapshot>, snaps: seq<Snapshot>, d: int)
    requires d > 0 && IsBucket(p, snaps, d)
    requires Rising(rest) && AllBuckets(rest, snaps, d) && NotBefore(rest, p.at + d)
    ensures Rising([p] + rest) && AllBuckets([p] + rest, snaps, d) && NotBefore([p] + rest, p.at)
  {
  }

  lemma HasPointConcat(here: seq<Snapshot>, rest: seq<Snapshot>, t: int)
    ensures HasPoint(here + rest, t) <==> HasPoint(here, t) || HasPoint(rest, t)
  {
    if HasPoint(here, t) {
      var i :| 0 <= i < |here| && here[i].at == t;
      assert (here + rest)[i].at == t;
    } else if HasPoint(rest, t) {
      var i :| 0 <= i < |rest| && rest[i].at == t;
      assert (here + rest)[|here| + i].at == t;
    }
  }

  lemma PointCovers(snaps: seq<Snapshot>, d: int, s: Snapshot)
    requires d >= SECOND && s in snaps
    ensures HasPoint(PointAt(snaps, d, Truncate(s.at, d)), Truncate(s.at, d))
  {
    var t := Truncate(s.at, d);
    TruncateAligned(s.at, d);
    FiledIsMembers(snaps, t, d);
    MembersAre(snaps, t, d, s);
    assert PointAt(snaps, d, t)[0].at == t;
  }

  lemma {:induction false} EmittedCovers(snaps: seq<Snapshot>, d: int, t: int, end: int, s: Snapshot)
    requires d >= SECOND && Aligned(t, d) && s in snaps && t <= Truncate(s.at, d) <= end
    ensures HasPoint(Emitted(snaps, d, t, end), Truncate(s.at, d))
    decreases end - t
  {
    var b := Truncate(s.at, d);
    if t == b {
      PointCovers(snaps, d, s);
    } else {
      TruncateAligned(s.at, d);
      AlignedGap(t, b, d);
      AlignedNext(t, d);
      EmittedCovers(snaps, d, t + d, end, s);
    }
    HasPointConcat(PointAt(snaps, d, t), Emitted(snaps, d, t + d, end), b);
  }

  lemma TruncateMonotone(a: int, b: int, d: int)
    requires d > 0 && a <= b
    ensures Truncate(a, d) <= Truncate(b, d)
  {
    TruncateAligned(a, d);
    TruncateAligned(b, d);
    if Truncate(b, d) < Truncate(a, d) {
      AlignedGap(Truncate(b, d), Truncate(a, d), d);
    }
  }

  lemma AggregatedIsGroupBy(snaps: seq<Snapshot>, d: int)
    requires d >= SECOND && Sorted(snaps)
    ensures GroupBy(Aggregated(snaps, d), snaps, d)
  {
    if snaps != [] {
      var start, end := Truncate(snaps[0].at, d), snaps[|snaps| - 1].at;
      TruncateAligned(snaps[0].at, d);
      EmittedBuckets(snaps, d, start, end);
      forall s | s in snaps
        ensures HasPoint(Aggregated(snaps, d), Truncate(s.at, d))
      {
        TruncateMonotone(snaps[0].at, s.at, d);
        TruncateAligned(s.at, d);
        EmittedCovers(snaps, d, start, end, s);
      }
    }
  }

  // ----- whose points they are -----

  ghost predicate AllOf(snaps: seq<Snapshot>, vm: string) {
    forall s :: s in snaps ==> s.vm == vm
  }

  lemma {:induction false} FiledOf(snaps: seq<Snapshot>, key: int, d: int, vm: string)
    requires d > 0 && AllOf(snaps, vm)
    ensures AllOf(Filed(snaps, key, d), vm)
  {
    if snaps != [] {
      FiledOf(snaps[..|snaps| - 1], key, d, vm);
    }
  }

  lemma {:induction false} EmittedOf(snaps: seq<Snapshot>, d: int, t: int, end: int, vm: string)
    requires d > 0 && AllOf(snaps, vm)
    ensures AllOf(Emitted(snaps, d, t, end), vm)
    decreases end - t
  {
    if t <= end {
      PointOf(snaps, d, t, vm);
      EmittedOf(snaps, d, t + d, end, vm);
      AllOfConcat(PointAt(snaps, d, t), Emitted(snaps, d, t + d, end), vm);
    }
  }

  lemma PointOf(snaps: seq<Snapshot>, d: int, t: int, vm: string)
    requires d > 0 && AllOf(snaps, vm)
    ensures AllOf(PointAt(snaps, d, t), vm)
  {
    var items := Filed(snaps, Unix(t), d);
    FiledOf(snaps, Unix(t), d, vm);
    if items != [] {
      assert items[0] in items;
    }
  }

  lemma AllOfConcat(a: seq<Snapshot>, b: seq<Snapshot>, vm: string)
    requires AllOf(a, vm) && AllOf(b, vm)
    ensures AllOf(a + b, vm)
  {
  }

  /** The points of a VM's snapshots are the VM's. */
  lemma PointsKeepVm(snaps: seq<Snapshot>, d: int, vm: string)
    requires d > 0 && AllOf(snaps, vm)
    ensures AllOf(Aggregated(snaps, d), vm)
  {
    if snaps != [] {
      EmittedOf(snaps, d, Truncate(snaps[0].at, d), snaps[|snaps| - 1].at, vm);
    }
  }

  // ----- shorter intervals -----

  lemma PairFiled(a: Snapshot, b: Snapshot, key: int, d: int)
    requires d > 0 && Unix(Truncate(a.at, d)) == key && Unix(Truncate(b.at, d)) == key
    ensures Filed([a, b], key, d) == [a, b]
  {
    assert [a, b][..1] == [a] && [a][..0] == [];
    assert Filed([a], key, d) == [a];
  }

  lemma PairMembers(a: Snapshot, b: Snapshot, t: int, d: int)
    requires d > 0 && Truncate(a.at, d) == t && Truncate(b.at, d) != t
    ensures Members([a, b], t, d) == [a]
  {
    assert [a, b][..1] == [a] && [a][..0] == [];
    assert Members([a], t, d) == [a];
  }

  lemma PairTotals(a: Snapshot, b: Snapshot, t: int)
    requires a.bytesIn == 1 && b.bytesIn == 1
    ensures Total([a, b], t).bytesIn == 2 && Total([a], t).bytesIn == 1
  {
    assert [a, b][..1] == [a] && [a][..0] == [];
    assert Sum([a], In) == 1 && Sum([a, b], In) == 2;
  }

  lemma TruncateSelf(d: int)
    requires d > 0
    ensures Truncate(0, d) == 0 && Truncate(d, d) == d
  {
    MulMod(d, 1);
    MulMod(d, 0);
  }

  /** Below one second two buckets share a Unix second, and the scan reports both under each of them. */
  lemma SubSecondDuplicates(d: int) returns (snaps: seq<Snapshot>)
    requires 0 < d < SECOND
    ensures !ScanAgrees(snaps, d)
  {
    var a, b := Snapshot("vm", 0, 1, 0), Snapshot("vm", d, 1, 0);
    TruncateSelf(d);
    PairFiled(a, b, Unix(0), d);
    PairMembers(a, b, 0, d);
    PairTotals(a, b, 0);
    snaps := [a, b];
    var points := Aggregated(snaps, d);
    assert points[0] == Total([a, b], 0);
    assert !IsBucket(points[0], snaps, d);
  }

  /** The scan is the group-by on every sorted input if and only if the interval is at least one second. */
  lemma GroupByExactly(d: int)
    requires d > 0
    ensures d >= 1_000_000_000 <==> forall snaps :: ScanAgrees(snaps, d)
  {
    if d >= SECOND {
      forall snaps
        ensures ScanAgrees(snaps, d)
      {
        AlwaysAgrees(snaps, d);
      }
    } else {
      var snaps := SubSecondDuplicates(d);
    }
  }

  lemma AlwaysAgrees(snaps: seq<Snapshot>, d: int)
    requires d >= SECOND
    ensures ScanAgrees(snaps, d)
  {
    if Sorted(snaps) {
      AggregatedIsGroupBy(snaps, d);
    }
  }

  ghost predicate ScanAgrees(snaps: seq<Snapshot>, d: int)
    requires d > 0
  {
    Sorted(snaps) ==> GroupBy(Aggregated(snaps, d), snaps, d)
  }

  /** The group-by of an input is one sequence: the specification leaves nothing open. */
  lemma GroupByUnique(ps: seq<Snapshot>, qs: seq<Snapshot>, snaps: seq<Snapshot>, d: int)
    requires d > 0 && GroupBy(ps, snaps, d) && GroupBy(qs, snaps, d)
    ensures ps == qs
  {
    SameTimes(ps, qs, snaps, d);
    SameTimes(qs, ps, snaps, d);
    RisingEqual(ps, qs, snaps, d);
  }

  ghost predicate Within(ps: seq<Snapshot>, qs: seq<Snapshot>) {
    forall i :: 0 <= i < |ps| ==> HasPoint(qs, ps[i].at)
  }

  lemma SameTimes(ps: seq<Snapshot>, qs: seq<Snapshot>, snaps: seq<Snapshot>, d: int)
    requires d > 0 && GroupBy(ps, snaps, d) && GroupBy(qs, snaps, d)
    ensures Within(ps, qs)
  {
    forall i | 0 <= i < |ps|
      ensures HasPoint(qs, ps[i].at)
    {
      assert IsBucket(ps[i], snaps, d);
      var s := Members(snaps, ps[i].at, d)[0];
      MembersAre(snaps, ps[i].at, d, s);
    }
  }

  lemma {:induction false} RisingEqual(ps: seq<Snapshot>, qs: seq<Snapshot>, snaps: seq<Snapshot>, d: int)
    requires d > 0 && Rising(ps) && Rising(qs) && AllBuckets(ps, snaps, d) && AllBuckets(qs, snaps, d)
    requires Within(ps, qs) && Within(qs, ps)
    ensures ps == qs
  {
    if ps != [] && qs != [] {
      var m, n := |ps| - 1, |qs| - 1;
      LastTimes(ps, qs);
      ShorterPoints(ps, qs);
      ShorterPoints(qs, ps);
      SameBucket(ps, qs, snaps, d);
      RisingEqual(ps[..m], qs[..n], snaps, d);
      assert ps == ps[..m] + [ps[m]] && qs == qs[..n] + [qs[n]];
    } else if ps != [] {
      WithinNonEmpty(ps, qs);
    } else if qs != [] {
      WithinNonEmpty(qs, ps);
    }
  }

  lemma SameBucket(ps: seq<Snapshot>, qs: seq<Snapshot>, snaps: seq<Snapshot>, d: int)
    requires d > 0 && AllBuckets(ps, snaps, d) && AllBuckets(qs, snaps, d)
    requires |ps| > 0 && |qs| > 0 && ps[|ps| - 1].at == qs[|qs| - 1].at
    ensures ps[|ps| - 1] == qs[|qs| - 1]
    ensures AllBuckets(ps[..|ps| - 1], snaps, d) && AllBuckets(qs[..|qs| - 1], snaps, d)
  {
    assert IsBucket(ps[|ps| - 1], snaps, d) && IsBucket(qs[|qs| - 1], snaps, d);
  }

  lemma WithinNonEmpty(ps: seq<Snapshot>, qs: seq<Snapshot>)
    requires Within(ps, qs) && ps != []
    ensures qs != []
  {
    assert HasPoint(qs, ps[0].at);
  }

  lemma LastTimes(ps: seq<Snapshot>, qs: seq<Snapshot>)
    requires |ps| > 0 && |qs| > 0 && Rising(ps) && Rising(qs) && Within(ps, qs) && Within(qs, ps)
    ensures ps[|ps| - 1].at == qs[|qs| - 1].at
  {
    assert HasPoint(qs, ps[|ps| - 1].at) && HasPoint(ps, qs[|qs| - 1].at);
  }

  /** Dropping the common last time keeps the other times common. */
  lemma ShorterPoints(ps: seq<Snapshot>, qs: seq<Snapshot>)
    requires |ps| > 0 && |qs| > 0 && Rising(ps) && Rising(qs) && ps[|ps| - 1].at == qs[|qs| - 1].at
    requires Within(ps, qs)
    ensures Within(ps[..|ps| - 1], qs[..|qs| - 1]) && Rising(ps[..|ps| - 1])
  {
    var ps', qs' := ps[..|ps| - 1], qs[..|qs| - 1];
    forall i | 0 <= i < |ps'|
      ensures HasPoint(qs', ps'[i].at)
    {
      assert HasPoint(qs, ps[i].at);
      var j :| 0 <= j < |qs| && qs[j].at == ps[i].at;
      assert qs'[j].at == ps'[i].at;
    }
  }
}
