/** The zone aggregation of Heatmap/backend_api.py (`_aggregate_heatmap`, and
    the identical inline fold of `heatmap_model`): located incidents are grouped
    by their quantized zone, each zone keeps `rank_sum` and `count`, and one
    entry per zone is emitted with `weight = round(rank_sum, 3)` and
    `avg = round(rank_sum / count, 3)`, sorted by `avg`, highest first. */
module Heatmap {
  import opened Numeric
  import opened Sorting
  import opened Incidents

  /** The zone centre `(zlat, zlng)`; the dictionary key `f"{zlat}:{zlng}"`
      is in one-to-one correspondence with it. */
  type ZoneKey = (real, real)

  /** One value of the `zones` dictionary. */
  datatype Bucket = Bucket(lat: real, lng: real, rankSum: real, count: nat)

  /** The `zones` dictionary: its keys in insertion order, and the buckets. */
  datatype ZoneTable = ZoneTable(keys: seq<ZoneKey>, buckets: map<ZoneKey, Bucket>)

  /** One emitted zone: `{"lat", "lng", "weight", "avg", "count"}`. */
  datatype ZoneEntry = ZoneEntry(lat: real, lng: real, weight: real, avg: real, count: nat)

  /** The incident has both a latitude and a longitude (neither is None). */
  predicate Located(it: Record)
  {
    it.latitude.Some? && it.longitude.Some?
  }

  function ZoneOf(it: Record, step: real): ZoneKey
    requires Located(it) && step != 0.0
  {
    RoundZone(it.latitude.value, it.longitude.value, step)
  }

  /** `_model_rank(_extract_features(it))` */
  function RankOf(it: Record, sigmoid: real -> real): (r: real)
    ensures 0.0 <= r <= 1.0
  {
    ModelRank(ExtractFeatures(it), sigmoid)
  }

  /** What the fold keeps true of the dictionary: the key list and the
      dictionary hold the same zones, each once; every bucket sits at its own
      centre, has been hit at least once, and its rank sum lies in [0, count]. */
  ghost predicate WellFormed(t: ZoneTable)
  {
    && (forall k :: k in t.buckets <==> k in t.keys)
    && (forall i, j :: 0 <= i < j < |t.keys| ==> t.keys[i] != t.keys[j])
    && (forall k :: k in t.buckets ==>
          && t.buckets[k].lat == k.0 && t.buckets[k].lng == k.1
          && t.buckets[k].count >= 1
          && 0.0 <= t.buckets[k].rankSum <= t.buckets[k].count as real)
  }

  /** One iteration of the loop: an unlocated incident is skipped; otherwise
      its zone's bucket is created if missing, then `rank_sum += rank` and
      `count += 1`. */
  function AddItem(t: ZoneTable, it: Record, step: real, sigmoid: real -> real): ZoneTable
    requires step != 0.0
  {
    if !Located(it) then t
    else
      var k := ZoneOf(it, step);
      var b := if k in t.buckets then t.buckets[k] else Bucket(k.0, k.1, 0.0, 0);
      ZoneTable(if k in t.buckets then t.keys else t.keys + [k],
                t.buckets[k := b.(rankSum := b.rankSum + RankOf(it, sigmoid), count := b.count + 1)])
  }

  lemma AddItemWellFormed(t: ZoneTable, it: Record, step: real, sigmoid: real -> real)
    requires step != 0.0 && WellFormed(t)
    ensures WellFormed(AddItem(t, it, step, sigmoid))
  {
    if Located(it) {
      var k := ZoneOf(it, step);
      var t' := AddItem(t, it, step, sigmoid);
      if k !in t.buckets {
        assert forall j :: 0 <= j < |t.keys| ==> t'.keys[j] == t.keys[j];
      }
    }
  }

  /** The dictionary after the loop has run over `items`. */
  function Accumulate(items: seq<Record>, step: real, sigmoid: real -> real): (t: ZoneTable)
    requires step != 0.0
    ensures forall k :: k in t.keys ==> k in t.buckets
  {
    if items == [] then ZoneTable([], map[])
    else AddItem(Accumulate(items[..|items| - 1], step, sigmoid), items[|items| - 1], step, sigmoid)
  }

  /** The fold keeps the dictionary well formed. */
  lemma {:induction false} AccumulateWellFormed(items: seq<Record>, step: real, sigmoid: real -> real)
    requires step != 0.0
    ensures WellFormed(Accumulate(items, step, sigmoid))
  {
    if items != [] {
      AccumulateWellFormed(items[..|items| - 1], step, sigmoid);
      AddItemWellFormed(Accumulate(items[..|items| - 1], step, sigmoid), items[|items| - 1], step, sigmoid);
    }
  }

  /** The entry emitted for one bucket. */
  function EntryOf(b: Bucket): ZoneEntry
  {
    ZoneEntry(b.lat, b.lng, RoundTo(b.rankSum, 3), RoundTo(b.rankSum / (Max(1, b.count) as real), 3), b.count)
  }

  /** The entries in dictionary order, before sorting. */
  function Emit(t: ZoneTable): (s: seq<ZoneEntry>)
    requires forall k :: k in t.keys ==> k in t.buckets
    ensures |s| == |t.keys|
    ensures forall i :: 0 <= i < |s| ==> s[i] == EntryOf(t.buckets[t.keys[i]])
  {
    seq(|t.keys|, i requires 0 <= i < |t.keys| => EntryOf(t.buckets[t.keys[i]]))
  }

  /** The sort key `lambda r: r["avg"]` with `reverse=True`. */
  const ByAvgDesc: (ZoneEntry, ZoneEntry) -> bool := (a: ZoneEntry, b: ZoneEntry) => a.avg >= b.avg

  /** The list `_aggregate_heatmap` returns. */
  function AggregatedZones(items: seq<Record>, step: real, sigmoid: real -> real): seq<ZoneEntry>
    requires step != 0.0
  {
    SortBy(Emit(Accumulate(items, step, sigmoid)), ByAvgDesc)
  }

  /** `_aggregate_heatmap(items, zone_step)`, as the loop over the items that
      fills the `zones` dictionary, the loop that emits one entry per zone,
      and the stable sort. */
  method AggregateHeatmap(items: seq<Record>, zoneStep: real, sigmoid: real -> real) returns (zones: seq<ZoneEntry>)
    requires zoneStep != 0.0
    ensures zones == AggregatedZones(items, zoneStep, sigmoid)
  {
    var keys: seq<ZoneKey> := [];
    var table: map<ZoneKey, Bucket> := map[];
    for i := 0 to |items|
      invariant ZoneTable(keys, table) == Accumulate(items[..i], zoneStep, sigmoid)
    {
      AccumulateSnoc(items, i, zoneStep, sigmoid);
      ghost var before := ZoneTable(keys, table);
      var it := items[i];
      if Located(it) {
        var rank := RankOf(it, sigmoid);
        var zid := ZoneOf(it, zoneStep);
        if zid !in table {
          keys := keys + [zid];
          table := table[zid := Bucket(zid.0, zid.1, 0.0, 0)];
        }
        var z := table[zid];
        table := table[zid := z.(rankSum := z.rankSum + rank, count := z.count + 1)];
        assert z == (if zid in before.buckets then before.buckets[zid] else Bucket(zid.0, zid.1, 0.0, 0));
        assert keys == if zid in before.buckets then before.keys else before.keys + [zid];
        assert table == before.buckets[zid := z.(rankSum := z.rankSum + rank, count := z.count + 1)];
        AddItemBucket(before, it, zoneStep, sigmoid, z, keys, table);
      }
    }
    assert items[..|items|] == items;
    ghost var emitted := Emit(ZoneTable(keys, table));
    var result: seq<ZoneEntry> := [];
    for j := 0 to |keys|
      invariant result == Emit(ZoneTable(keys, table))[..j]
    {
      result := result + [EntryOf(table[keys[j]])];
    }
    assert result == emitted;
    zones := SortBy(result, ByAvgDesc);
  }

  /** The inline aggregation of `heatmap_model`: the same fold as
      `_aggregate_heatmap`, written with `continue`, with `rank_sum` and
      `count` updated through the dictionary one after the other, a
      comprehension over the zones and an in-place sort. */
  method ModelZones(items: seq<Record>, zoneStep: real, sigmoid: real -> real) returns (zones: seq<ZoneEntry>)
    requires zoneStep != 0.0
    ensures zones == AggregatedZones(items, zoneStep, sigmoid)
  {
    var keys: seq<ZoneKey> := [];
    var table: map<ZoneKey, Bucket> := map[];
    for i := 0 to |items|
      invariant ZoneTable(keys, table) == Accumulate(items[..i], zoneStep, sigmoid)
    {
      AccumulateSnoc(items, i, zoneStep, sigmoid);
      ghost var before := ZoneTable(keys, table);
      var it := items[i];
      if !Located(it) {
        continue;
      }
      var rank := RankOf(it, sigmoid);
      var zid := ZoneOf(it, zoneStep);
      if zid !in table {
        keys := keys + [zid];
        table := table[zid := Bucket(zid.0, zid.1, 0.0, 0)];
      }
      ghost var z := table[zid];
      table := table[zid := table[zid].(rankSum := table[zid].rankSum + rank)];
      table := table[zid := table[zid].(count := table[zid].count + 1)];
      assert z == (if zid in before.buckets then before.buckets[zid] else Bucket(zid.0, zid.1, 0.0, 0));
      assert keys == if zid in before.buckets then before.keys else before.keys + [zid];
      assert table == before.buckets[zid := z.(rankSum := z.rankSum + rank, count := z.count + 1)];
      AddItemBucket(before, it, zoneStep, sigmoid, z, keys, table);
    }
    assert items[..|items|] == items;
    var result := Emit(ZoneTable(keys, table));
    zones := SortBy(result, ByAvgDesc);
  }

  lemma AddItemLocated(t: ZoneTable, it: Record, step: real, sigmoid: real -> real)
    requires step != 0.0 && Located(it)
    ensures var k := ZoneOf(it, step);
            var b := if k in t.buckets then t.buckets[k] else Bucket(k.0, k.1, 0.0, 0);
            AddItem(t, it, step, sigmoid)
              == ZoneTable(if k in t.buckets then t.keys else t.keys + [k],
                           t.buckets[k := b.(rankSum := b.rankSum + RankOf(it, sigmoid), count := b.count + 1)])
  {
  }

  /** The dictionary after one located incident, as the loops build it. */
  lemma AddItemBucket(t: ZoneTable, it: Record, step: real, sigmoid: real -> real,
                      z: Bucket, keys: seq<ZoneKey>, table: map<ZoneKey, Bucket>)
    requires step != 0.0 && Located(it)
    requires z == if ZoneOf(it, step) in t.buckets then t.buckets[ZoneOf(it, step)]
                  else Bucket(ZoneOf(it, step).0, ZoneOf(it, step).1, 0.0, 0)
    requires keys == if ZoneOf(it, step) in t.buckets then t.keys else t.keys + [ZoneOf(it, step)]
    requires table == t.buckets[ZoneOf(it, step) := z.(rankSum := z.rankSum + RankOf(it, sigmoid), count := z.count + 1)]
    ensures ZoneTable(keys, table) == AddItem(t, it, step, sigmoid)
  {
  }

  lemma AccumulateSnoc(items: seq<Record>, i: nat, step: real, sigmoid: real -> real)
    requires step != 0.0 && i < |items|
    ensures Accumulate(items[..i + 1], step, sigmoid) == AddItem(Accumulate(items[..i], step, sigmoid), items[i], step, sigmoid)
  {
    assert items[..i + 1][..i] == items[..i];
  }

  // ----- What the aggregation computes, zone by zone -----

  /** Number of located incidents of `items` whose zone is `k`. */
  function ZoneCount(items: seq<Record>, k: ZoneKey, step: real): nat
    requires step != 0.0
  {
    if items == [] then 0
    else
      var it := items[|items| - 1];
      ZoneCount(items[..|items| - 1], k, step) + (if Located(it) && ZoneOf(it, step) == k then 1 else 0)
  }

  /** Sum of the ranks of the located incidents of `items` whose zone is `k`. */
  function ZoneRankSum(items: seq<Record>, k: ZoneKey, step: real, sigmoid: real -> real): real
    requires step != 0.0
  {
    if items == [] then 0.0
    else
      var it := items[|items| - 1];
      ZoneRankSum(items[..|items| - 1], k, step, sigmoid) + (if Located(it) && ZoneOf(it, step) == k then RankOf(it, sigmoid) else 0.0)
  }

  /** Number of located incidents of `items`. */
  function LocatedCount(items: seq<Record>): nat
  {
    if items == [] then 0
    else LocatedCount(items[..|items| - 1]) + (if Located(items[|items| - 1]) then 1 else 0)
  }

  /** A zone has a bucket exactly when some located incident falls in it, and
      the bucket holds the number of those incidents and the sum of their ranks. */
  lemma {:induction false} AccumulateBuckets(items: seq<Record>, step: real, sigmoid: real -> real, k: ZoneKey)
    requires step != 0.0
    ensures k in Accumulate(items, step, sigmoid).buckets <==> ZoneCount(items, k, step) > 0
    ensures k in Accumulate(items, step, sigmoid).buckets ==>
              && Accumulate(items, step, sigmoid).buckets[k].count == ZoneCount(items, k, step)
              && Accumulate(items, step, sigmoid).buckets[k].rankSum == ZoneRankSum(items, k, step, sigmoid)
  {
    if items != [] {
      var init := items[..|items| - 1];
      var it := items[|items| - 1];
      AccumulateBuckets(init, step, sigmoid, k);
      var t := Accumulate(init, step, sigmoid);
      assert Accumulate(items, step, sigmoid) == AddItem(t, it, step, sigmoid);
      if Located(it) && ZoneOf(it, step) == k {
        assert ZoneRankSum(items, k, step, sigmoid) == ZoneRankSum(init, k, step, sigmoid) + RankOf(it, sigmoid);
        if k !in t.buckets {
          assert ZoneRankSum(init, k, step, sigmoid) == 0.0 by {
            ZoneRankSumZero(init, k, step, sigmoid);
          }
        }
      } else {
        assert ZoneRankSum(items, k, step, sigmoid) == ZoneRankSum(init, k, step, sigmoid);
      }
    }
  }

  lemma {:induction false} ZoneRankSumZero(items: seq<Record>, k: ZoneKey, step: real, sigmoid: real -> real)
    requires step != 0.0 && ZoneCount(items, k, step) == 0
    ensures ZoneRankSum(items, k, step, sigmoid) == 0.0
  {
    if items != [] {
      ZoneRankSumZero(items[..|items| - 1], k, step, sigmoid);
    }
  }

  /** The per-zone count and rank sum of two lists joined are the sums of
      those of each list. */
  lemma {:induction false} ZoneTotalsAppend(a: seq<Record>, b: seq<Record>, k: ZoneKey, step: real, sigmoid: real -> real)
    requires step != 0.0
    ensures ZoneCount(a + b, k, step) == ZoneCount(a, k, step) + ZoneCount(b, k, step)
    ensures ZoneRankSum(a + b, k, step, sigmoid) == ZoneRankSum(a, k, step, sigmoid) + ZoneRankSum(b, k, step, sigmoid)
  {
    if b == [] {
      assert a + b == a;
    } else {
      var init := b[..|b| - 1];
      assert (a + b)[..|a + b| - 1] == a + init;
      assert (a + b)[|a + b| - 1] == b[|b| - 1];
      ZoneTotalsAppend(a, init, k, step, sigmoid);
    }
  }

  /** Taking one incident out of a list takes its share out of the totals. */
  lemma ZoneTotalsRemove(b: seq<Record>, i: nat, k: ZoneKey, step: real, sigmoid: real -> real)
    requires step != 0.0 && i < |b|
    ensures ZoneCount(b, k, step) == ZoneCount(b[..i] + b[i + 1..], k, step) + ZoneCount([b[i]], k, step)
    ensures ZoneRankSum(b, k, step, sigmoid)
            == ZoneRankSum(b[..i] + b[i + 1..], k, step, sigmoid) + ZoneRankSum([b[i]], k, step, sigmoid)
  {
    var left, right := b[..i], b[i + 1..];
    assert b == left + [b[i]] + right;
    ZoneTotalsAppend(left, [b[i]], k, step, sigmoid);
    ZoneTotalsAppend(left + [b[i]], right, k, step, sigmoid);
    ZoneTotalsAppend(left, right, k, step, sigmoid);
  }

  /** Removing the last element of `a`, and one equal element of a
      permutation `b` of `a`, leaves two permutations of each other. */
  lemma MultisetRemove<T>(a: seq<T>, b: seq<T>, i: nat)
    requires multiset(a) == multiset(b) && |a| > 0 && i < |b| && b[i] == a[|a| - 1]
    ensures multiset(a[..|a| - 1]) == multiset(b[..i] + b[i + 1..])
  {
    var x := a[|a| - 1];
    assert a == a[..|a| - 1] + [x];
    assert b == b[..i] + [x] + b[i + 1..];
    assert multiset(a) == multiset(a[..|a| - 1]) + multiset{x};
    assert multiset(b) == multiset(b[..i] + b[i + 1..]) + multiset{x};
    assert multiset(a[..|a| - 1]) == multiset(a) - multiset{x};
    assert multiset(b[..i] + b[i + 1..]) == multiset(b) - multiset{x};
  }

  /** The per-zone count and rank sum depend only on which incidents there
      are, not on their order. */
  lemma {:induction false} ZoneTotalsPermutation(a: seq<Record>, b: seq<Record>, k: ZoneKey, step: real, sigmoid: real -> real)
    requires step != 0.0 && multiset(a) == multiset(b)
    ensures ZoneCount(a, k, step) == ZoneCount(b, k, step)
    ensures ZoneRankSum(a, k, step, sigmoid) == ZoneRankSum(b, k, step, sigmoid)
    decreases |a|
  {
    if a == [] {
      assert |b| == |multiset(b)| == 0;
    } else {
      var x := a[|a| - 1];
      var init := a[..|a| - 1];
      assert x in multiset(b);
      var i :| 0 <= i < |b| && b[i] == x;
      MultisetRemove(a, b, i);
      ZoneTotalsPermutation(init, b[..i] + b[i + 1..], k, step, sigmoid);
      ZoneTotalsRemove(b, i, k, step, sigmoid);
      assert a == init + [x];
      ZoneTotalsAppend(init, [x], k, step, sigmoid);
    }
  }

  /** Reordering the incidents gives the same zones with the same buckets. */
  lemma AccumulateOrderIndependent(a: seq<Record>, b: seq<Record>, step: real, sigmoid: real -> real, k: ZoneKey)
    requires step != 0.0 && multiset(a) == multiset(b)
    ensures k in Accumulate(a, step, sigmoid).buckets <==> k in Accumulate(b, step, sigmoid).buckets
    ensures k in Accumulate(a, step, sigmoid).buckets ==>
              Accumulate(a, step, sigmoid).buckets[k] == Accumulate(b, step, sigmoid).buckets[k]
  {
    ZoneTotalsPermutation(a, b, k, step, sigmoid);
    AccumulateBuckets(a, step, sigmoid, k);
    AccumulateBuckets(b, step, sigmoid, k);
    AccumulateWellFormed(a, step, sigmoid);
    AccumulateWellFormed(b, step, sigmoid);
  }

  /** A located incident of `items` lies in a zone of the table. */
  lemma {:induction false} AccumulateCoversItem(items: seq<Record>, step: real, sigmoid: real -> real, i: nat)
    requires step != 0.0 && i < |items| && Located(items[i])
    ensures ZoneOf(items[i], step) in Accumulate(items, step, sigmoid).keys
  {
    AccumulateWellFormed(items[..|items| - 1], step, sigmoid);
    if i < |items| - 1 {
      assert items[..|items| - 1][i] == items[i];
      AccumulateCoversItem(items[..|items| - 1], step, sigmoid, i);
    }
  }

  /** Sum of the `count` fields of a list of entries. */
  function SumCounts(s: seq<ZoneEntry>): nat
  {
    if s == [] then 0 else s[0].count + SumCounts(s[1..])
  }

  lemma {:induction false} SumCountsAppend(s: seq<ZoneEntry>, e: ZoneEntry)
    ensures SumCounts(s + [e]) == SumCounts(s) + e.count
  {
    if s != [] {
      assert (s + [e])[1..] == s[1..] + [e];
      SumCountsAppend(s[1..], e);
    }
  }

  /** Raising one entry's count by one raises the sum by one. */
  lemma {:induction false} SumCountsBump(s: seq<ZoneEntry>, s': seq<ZoneEntry>, p: nat)
    requires |s| == |s'| && p < |s|
    requires forall i :: 0 <= i < |s| && i != p ==> s'[i].count == s[i].count
    requires s'[p].count == s[p].count + 1
    ensures SumCounts(s') == SumCounts(s) + 1
  {
    if p == 0 {
      SumCountsSame(s[1..], s'[1..]);
    } else {
      SumCountsBump(s[1..], s'[1..], p - 1);
    }
  }

  lemma {:induction false} SumCountsSame(s: seq<ZoneEntry>, s': seq<ZoneEntry>)
    requires |s| == |s'|
    requires forall i :: 0 <= i < |s| ==> s'[i].count == s[i].count
    ensures SumCounts(s') == SumCounts(s)
  {
    if s != [] {
      SumCountsSame(s[1..], s'[1..]);
    }
  }

  lemma {:induction false} SumCountsInsert(x: ZoneEntry, s: seq<ZoneEntry>, le: (ZoneEntry, ZoneEntry) -> bool)
    ensures SumCounts(Insert(x, s, le)) == x.count + SumCounts(s)
  {
    if s == [] || le(x, s[0]) {
      assert ([x] + s)[1..] == s;
    } else {
      SumCountsInsert(x, s[1..], le);
      assert ([s[0]] + Insert(x, s[1..], le))[1..] == Insert(x, s[1..], le);
    }
  }

  /** Sorting does not change the total count. */
  lemma {:induction false} SumCountsSortBy(s: seq<ZoneEntry>, le: (ZoneEntry, ZoneEntry) -> bool)
    ensures SumCounts(SortBy(s, le)) == SumCounts(s)
  {
    if s != [] {
      SumCountsSortBy(s[1..], le);
      SumCountsInsert(s[0], SortBy(s[1..], le), le);
    }
  }

  /** Before sorting, the counts add up to the number of located incidents. */
  lemma {:induction false} EmitCountsLocated(items: seq<Record>, step: real, sigmoid: real -> real)
    requires step != 0.0
    ensures SumCounts(Emit(Accumulate(items, step, sigmoid))) == LocatedCount(items)
  {
    if items != [] {
      var init := items[..|items| - 1];
      EmitCountsLocated(init, step, sigmoid);
      AccumulateWellFormed(init, step, sigmoid);
      EmitAddItemCounts(Accumulate(init, step, sigmoid), items[|items| - 1], step, sigmoid);
    }
  }

  /** One iteration adds one to the total count exactly when the incident is located. */
  lemma EmitAddItemCounts(t: ZoneTable, it: Record, step: real, sigmoid: real -> real)
    requires step != 0.0 && WellFormed(t)
    ensures SumCounts(Emit(AddItem(t, it, step, sigmoid))) == SumCounts(Emit(t)) + if Located(it) then 1 else 0
  {
    if Located(it) {
      var k := ZoneOf(it, step);
      var t' := AddItem(t, it, step, sigmoid);
      AddItemLocated(t, it, step, sigmoid);
      var e, e' := Emit(t), Emit(t');
      if k in t.buckets {
        var p :| 0 <= p < |t.keys| && t.keys[p] == k;
        assert t'.keys == t.keys;
        forall i | 0 <= i < |e| && i != p
          ensures e'[i].count == e[i].count
        {
          assert t.keys[i] != k;
        }
        SumCountsBump(e, e', p);
      } else {
        assert t'.keys == t.keys + [k];
        forall i | 0 <= i < |e|
          ensures e'[i] == e[i]
        {
          assert t.keys[i] in t.buckets;
        }
        assert e' == e + [e'[|e|]];
        SumCountsAppend(e, e'[|e|]);
      }
    }
  }

  // ----- Properties of the emitted list -----

  lemma ByAvgDescTotal()
    ensures TotalPreorder(ByAvgDesc)
  {
  }

  /** The zones come out ordered by `avg`, highest first. */
  lemma HeatmapSorted(items: seq<Record>, step: real, sigmoid: real -> real)
    requires step != 0.0
    ensures forall i, j :: 0 <= i < j < |AggregatedZones(items, step, sigmoid)| ==>
              AggregatedZones(items, step, sigmoid)[i].avg >= AggregatedZones(items, step, sigmoid)[j].avg
  {
    ByAvgDescTotal();
    SortBySorted(Emit(Accumulate(items, step, sigmoid)), ByAvgDesc);
  }

  /** The sort is stable: zones with the same `avg` keep the order in which
      their first incident appeared. */
  lemma HeatmapStable(items: seq<Record>, step: real, sigmoid: real -> real, e: ZoneEntry)
    requires step != 0.0
    ensures SameKey(AggregatedZones(items, step, sigmoid), e, ByAvgDesc)
         == SameKey(Emit(Accumulate(items, step, sigmoid)), e, ByAvgDesc)
  {
    ByAvgDescTotal();
    SortByStable(Emit(Accumulate(items, step, sigmoid)), e, ByAvgDesc);
  }

  /** The counts of the emitted zones add up to the number of located
      incidents: every located incident is counted once, the others not at all. */
  lemma HeatmapCountsLocated(items: seq<Record>, step: real, sigmoid: real -> real)
    requires step != 0.0
    ensures SumCounts(AggregatedZones(items, step, sigmoid)) == LocatedCount(items)
  {
    EmitCountsLocated(items, step, sigmoid);
    SumCountsSortBy(Emit(Accumulate(items, step, sigmoid)), ByAvgDesc);
  }

  function CentreOf(e: ZoneEntry): ZoneKey
  {
    (e.lat, e.lng)
  }

  /** One entry per zone: no two entries share a centre. */
  lemma HeatmapDistinctZones(items: seq<Record>, step: real, sigmoid: real -> real)
    requires step != 0.0
    ensures forall i, j :: 0 <= i < j < |AggregatedZones(items, step, sigmoid)| ==>
              CentreOf(AggregatedZones(items, step, sigmoid)[i]) != CentreOf(AggregatedZones(items, step, sigmoid)[j])
  {
    var t := Accumulate(items, step, sigmoid);
    var e := Emit(t);
    AccumulateWellFormed(items, step, sigmoid);
    assert forall i :: 0 <= i < |e| ==> CentreOf(e[i]) == t.keys[i];
    SortByDistinctBy(e, ByAvgDesc, CentreOf);
  }

  /** Every entry is the zone of some located incident and carries that zone's
      incident count (at least 1), its rounded rank sum as `weight`, and its
      rounded mean rank, a number in [0, 1], as `avg`. */
  lemma HeatmapEntries(items: seq<Record>, step: real, sigmoid: real -> real, z: ZoneEntry)
    requires step != 0.0 && z in AggregatedZones(items, step, sigmoid)
    ensures z.count == ZoneCount(items, CentreOf(z), step) >= 1
    ensures z.weight == RoundTo(ZoneRankSum(items, CentreOf(z), step, sigmoid), 3)
    ensures z.avg == RoundTo(ZoneRankSum(items, CentreOf(z), step, sigmoid) / (z.count as real), 3)
    ensures 0.0 <= z.avg <= 1.0
  {
    var t := Accumulate(items, step, sigmoid);
    var e := Emit(t);
    assert z in multiset(AggregatedZones(items, step, sigmoid));
    assert z in e;
    var i :| 0 <= i < |e| && e[i] == z;
    var k := t.keys[i];
    var b := t.buckets[k];
    AccumulateWellFormed(items, step, sigmoid);
    assert CentreOf(z) == k;
    AccumulateBuckets(items, step, sigmoid, k);
    DivUnit(b.rankSum, b.count as real);
    RoundToUnit(b.rankSum / (b.count as real), 3);
  }

  /** Every located incident's zone has an entry. */
  lemma HeatmapCoversLocated(items: seq<Record>, step: real, sigmoid: real -> real, i: nat)
    requires step != 0.0 && i < |items| && Located(items[i])
    ensures exists z :: z in AggregatedZones(items, step, sigmoid) && CentreOf(z) == ZoneOf(items[i], step)
  {
    var t := Accumulate(items, step, sigmoid);
    var e := Emit(t);
    AccumulateCoversItem(items, step, sigmoid, i);
    var p :| 0 <= p < |t.keys| && t.keys[p] == ZoneOf(items[i], step);
    AccumulateWellFormed(items, step, sigmoid);
    assert CentreOf(e[p]) == ZoneOf(items[i], step);
    assert e[p] in multiset(AggregatedZones(items, step, sigmoid));
  }

  /** An entry of the heat map of `a` is an entry of the heat map of any
      reordering `b` of `a`. */
  lemma HeatmapEntryReordered(a: seq<Record>, b: seq<Record>, step: real, sigmoid: real -> real, z: ZoneEntry)
    requires step != 0.0 && multiset(a) == multiset(b) && z in AggregatedZones(a, step, sigmoid)
    ensures z in AggregatedZones(b, step, sigmoid)
  {
    var ta, tb := Accumulate(a, step, sigmoid), Accumulate(b, step, sigmoid);
    var ea, eb := Emit(ta), Emit(tb);
    assert z in multiset(AggregatedZones(a, step, sigmoid));
    assert z in ea;
    var i :| 0 <= i < |ea| && ea[i] == z;
    var k := ta.keys[i];
    AccumulateOrderIndependent(a, b, step, sigmoid, k);
    AccumulateWellFormed(b, step, sigmoid);
    var p :| 0 <= p < |tb.keys| && tb.keys[p] == k;
    assert eb[p] == z;
    assert z in multiset(AggregatedZones(b, step, sigmoid));
  }

  /** The heat map does not depend on the order of the incidents: any
      reordering yields the same zones, each with the same count, weight and
      average. Only the order of zones with equal averages can differ. */
  lemma HeatmapOrderIndependent(a: seq<Record>, b: seq<Record>, step: real, sigmoid: real -> real)
    requires step != 0.0 && multiset(a) == multiset(b)
    ensures forall z :: z in AggregatedZones(a, step, sigmoid) <==> z in AggregatedZones(b, step, sigmoid)
  {
    forall z | z in AggregatedZones(a, step, sigmoid)
      ensures z in AggregatedZones(b, step, sigmoid)
    {
      HeatmapEntryReordered(a, b, step, sigmoid, z);
    }
    forall z | z in AggregatedZones(b, step, sigmoid)
      ensures z in AggregatedZones(a, step, sigmoid)
    {
      HeatmapEntryReordered(b, a, step, sigmoid, z);
    }
  }
}
