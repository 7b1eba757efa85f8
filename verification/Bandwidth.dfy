/** Aggregation of bandwidth snapshots into fixed time buckets: a map filled in one pass, then a time-stepping scan. */
module Bandwidth {
  import opened Base

  /** Times are nanoseconds since Go's zero time, to which Truncate aligns. */
  datatype Snapshot = Snapshot(vm: string, at: int, bytesIn: int, bytesOut: int)

  const SECOND: int := 1_000_000_000
  const HOUR: int := 3600 * SECOND
  const UNIX_OFFSET: int := 62135596800

  function Truncate(t: int, d: int): int
    requires d > 0
  {
    t - t % d
  }

  function Unix(t: int): int {
    t / SECOND - UNIX_OFFSET
  }

  ghost predicate Sorted(snaps: seq<Snapshot>) {
    forall i, j :: 0 <= i < j < |snaps| ==> snaps[i].at <= snaps[j].at
  }

  datatype Direction = In | Out

  function Flow(s: Snapshot, dir: Direction): int {
    if dir == In then s.bytesIn else s.bytesOut
  }

  function Sum(items: seq<Snapshot>, dir: Direction): int {
    if items == [] then 0 else Sum(items[..|items| - 1], dir) + Flow(items[|items| - 1], dir)
  }

  function Total(items: seq<Snapshot>, t: int): Snapshot
    requires items != []
  {
    Snapshot(items[0].vm, t, Wrap(Sum(items, In)), Wrap(Sum(items, Out)))
  }

  /** The snapshots that fall under one map key, in their order. */
  function Filed(snaps: seq<Snapshot>, key: int, d: int): seq<Snapshot>
    requires d > 0
  {
    if snaps == [] then []
    else
      var n := |snaps| - 1;
      Filed(snaps[..n], key, d) + (if Unix(Truncate(snaps[n].at, d)) == key then [snaps[n]] else [])
  }

  /** What the scan appends at time t. */
  function PointAt(snaps: seq<Snapshot>, d: int, t: int): seq<Snapshot>
    requires d > 0
  {
    var items := Filed(snaps, Unix(t), d);
    if items != [] then [Total(items, t)] else []
  }

  /** The points the scan emits from time t on. */
  function Emitted(snaps: seq<Snapshot>, d: int, t: int, end: int): seq<Snapshot>
    requires d > 0
    decreases end - t
  {
    if t > end then [] else PointAt(snaps, d, t) + Emitted(snaps, d, t + d, end)
  }

  function Aggregated(snaps: seq<Snapshot>, d: int): seq<Snapshot>
    requires d > 0
  {
    if snaps == [] then [] else Emitted(snaps, d, Truncate(snaps[0].at, d), snaps[|snaps| - 1].at)
  }

  lemma SumStep(items: seq<Snapshot>, i: nat, dir: Direction)
    requires i < |items|
    ensures Sum(items[..i + 1], dir) == Sum(items[..i], dir) + Flow(items[i], dir)
  {
    assert items[..i + 1][..i] == items[..i];
  }

  /** sumBucket; the accumulators are int64. */
  method SumBucket(items: seq<Snapshot>, t: int) returns (s: Snapshot)
    requires items != []
    ensures s == Total(items, t)
  {
    var totalIn, totalOut := 0, 0;
    for i := 0 to |items|
      invariant totalIn == Wrap(Sum(items[..i], In)) && totalOut == Wrap(Sum(items[..i], Out))
    {
      SumStep(items, i, In);
      SumStep(items, i, Out);
      WrapAdd(Sum(items[..i], In), items[i].bytesIn);
      WrapAdd(Sum(items[..i], Out), items[i].bytesOut);
      totalIn, totalOut := Wrap(totalIn + items[i].bytesIn), Wrap(totalOut + items[i].bytesOut);
    }
    assert items[..|items|] == items;
    s := Snapshot(items[0].vm, t, totalIn, totalOut);
  }

  ghost predicate FiledIn(buckets: map<int, seq<Snapshot>>, snaps: seq<Snapshot>, d: int)
    requires d > 0
  {
    forall k :: (k in buckets <==> Filed(snaps, k, d) != []) && (k in buckets ==> buckets[k] == Filed(snaps, k, d))
  }

  lemma FiledStep(buckets: map<int, seq<Snapshot>>, snaps: seq<Snapshot>, i: nat, d: int)
    requires d > 0 && i < |snaps| && FiledIn(buckets, snaps[..i], d)
    ensures var k := Unix(Truncate(snaps[i].at, d));
            FiledIn(buckets[k := (if k in buckets then buckets[k] else []) + [snaps[i]]], snaps[..i + 1], d)
  {
    assert snaps[..i + 1][..i] == snaps[..i];
  }

  /** The grouping loop of aggregateSnapshots. */
  method FileSnapshots(snaps: seq<Snapshot>, interval: int) returns (buckets: map<int, seq<Snapshot>>)
    requires interval > 0
    ensures FiledIn(buckets, snaps, interval)
  {
    buckets := map[];
    for i := 0 to |snaps|
      invariant FiledIn(buckets, snaps[..i], interval)
    {
      FiledStep(buckets, snaps, i, interval);
      var bucket := Unix(Truncate(snaps[i].at, interval));
      buckets := buckets[bucket := (if bucket in buckets then buckets[bucket] else []) + [snaps[i]]];
    }
    assert snaps[..|snaps|] == snaps;
  }

  /** What the map tells the scan at time t. */
  lemma PointFound(buckets: map<int, seq<Snapshot>>, snaps: seq<Snapshot>, d: int, t: int)
    requires d > 0 && FiledIn(buckets, snaps, d)
    ensures Unix(t) in buckets ==> buckets[Unix(t)] != [] && PointAt(snaps, d, t) == [Total(buckets[Unix(t)], t)]
    ensures Unix(t) !in buckets ==> PointAt(snaps, d, t) == []
  {
  }

  /** One step of the scan, in front of which result has been emitted. */
  lemma EmittedNext(snaps: seq<Snapshot>, d: int, t: int, end: int, result: seq<Snapshot>, point: seq<Snapshot>)
    requires d > 0 && t <= end && point == PointAt(snaps, d, t)
    ensures result + Emitted(snaps, d, t, end) == result + point + Emitted(snaps, d, t + d, end)
  {
    var rest := Emitted(snaps, d, t + d, end);
    assert result + (point + rest) == result + point + rest;
  }

  /** The scan of aggregateSnapshots. */
  method Scan(buckets: map<int, seq<Snapshot>>, ghost snaps: seq<Snapshot>, interval: int, start: int, end: int)
    returns (result: seq<Snapshot>)
    requires interval > 0 && FiledIn(buckets, snaps, interval)
    ensures result == Emitted(snaps, interval, start, end)
  {
    result := [];
    var t := start;
    while t <= end
      invariant result + Emitted(snaps, interval, t, end) == Emitted(snaps, interval, start, end)
      decreases end - t
    {
      PointFound(buckets, snaps, interval, t);
      if Unix(t) in buckets {
        var point := SumBucket(buckets[Unix(t)], t);
        EmittedNext(snaps, interval, t, end, result, [point]);
        result := result + [point];
      } else {
        EmittedNext(snaps, interval, t, end, result, []);
        assert result + [] == result;
      }
      t := t + interval;
    }
    assert Emitted(snaps, interval, t, end) == [];
  }

  /** aggregateSnapshots. The interval is positive: with another one the scan would not end. */
  method AggregateSnapshots(snaps: seq<Snapshot>, interval: int) returns (result: seq<Snapshot>)
    requires interval > 0
    ensures result == Aggregated(snaps, interval)
  {
    if |snaps| == 0 {
      return snaps;
    }
    var buckets := FileSnapshots(snaps, interval);
    result := Scan(buckets, snaps, interval, Truncate(snaps[0].at, interval), snaps[|snaps| - 1].at);
  }
}
