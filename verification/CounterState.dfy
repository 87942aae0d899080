/** Counters: a set of tagged adds; compaction sums old adds into buckets, modulo 2^64. */
module CounterState {
  import opened Words
  import opened Sorted
  import opened Histograms
  import opened Rows

  datatype CounterBucket = CounterBucket(time: u64, sum: u64)

  datatype Counters = Counters(rows: seq<Row>, buckets: seq<CounterBucket>)

  function BucketTime(b: CounterBucket): u64 { b.time }

  /** The adds of some rows; the same add written twice is one add. */
  function Ops(rows: seq<Row>): set<Row> { set r | r in rows }

  predicate Distinct(rows: seq<Row>) {
    forall i, j :: 0 <= i < j < |rows| ==> rows[i] != rows[j]
  }

  function SumAt(m: map<u64, u64>, t: u64): u64 { if t in m then m[t] else 0 }

  /** Buckets summed by time. */
  function SumBuckets(m: map<u64, u64>, bs: seq<CounterBucket>): map<u64, u64> {
    if bs == [] then m else
    var before := SumBuckets(m, bs[..|bs| - 1]);
    var b := bs[|bs| - 1];
    before[b.time := Add(SumAt(before, b.time), b.sum)]
  }

  function ToBuckets(m: map<u64, u64>): (bs: seq<CounterBucket>)
    ensures |bs| == |m|
  {
    var q := SortedTimes(m);
    seq(|q|, i requires 0 <= i < |q| => assert q[i] in q; CounterBucket(q[i], m[q[i]]))
  }

  function MergeBuckets(a: seq<CounterBucket>, b: seq<CounterBucket>): seq<CounterBucket> {
    ToBuckets(SumBuckets(SumBuckets(map[], a), b))
  }

  /** What a merge may yield: the union of the adds, each once, by time; the order of adds with the
      same time is the map's and is left open. */
  ghost predicate MergedInto(d: Counters, delta: Counters, out: Counters) {
    && Nondecreasing(out.rows) && Distinct(out.rows)
    && Ops(out.rows) == Ops(d.rows) + Ops(delta.rows)
    && out.buckets == MergeBuckets(d.buckets, delta.buckets)
  }

  function GroupSums(m: map<u64, u64>, rows: seq<Row>, span: u64): map<u64, u64> {
    Group(m, rows, span, Zero, Add)
  }

  function Zero(t: u64): u64 { 0 }

  function Compacted(d: Counters, cutoff: u64, span: u64): Counters {
    Counters(Young(d.rows, cutoff), ToBuckets(GroupSums(SumBuckets(map[], d.buckets), Old(d.rows, cutoff), span)))
  }

  // ----- In place -----

  /** The adds of some rows, by time. */
  function OpsByTime(rows: seq<Row>): map<u64, set<Row>> {
    if rows == [] then map[] else PutOp(OpsByTime(rows[..|rows| - 1]), rows[|rows| - 1])
  }

  function PutOp(ops: map<u64, set<Row>>, r: Row): map<u64, set<Row>> {
    ops[r.time := (if r.time in ops then ops[r.time] else {}) + {r}]
  }

  predicate In(r: Row, ops: map<u64, set<Row>>) {
    r.time in ops && r in ops[r.time]
  }

  lemma {:induction false} OpsByTimeHolds(rows: seq<Row>)
    ensures forall r :: In(r, OpsByTime(rows)) <==> r in rows
    ensures forall t :: t in OpsByTime(rows) ==> forall r :: r in OpsByTime(rows)[t] ==> r.time == t
  {
    if rows != [] {
      OpsByTimeHolds(rows[..|rows| - 1]);
      assert rows == rows[..|rows| - 1] + [rows[|rows| - 1]];
    }
  }

  ghost predicate ByOwnTime(ops: map<u64, set<Row>>) {
    forall t :: t in ops ==> forall r :: r in ops[t] ==> r.time == t
  }

  ghost predicate Exactly(rows: seq<Row>, ops: map<u64, set<Row>>) {
    forall r :: r in rows <==> In(r, ops)
  }

  lemma UnionOfOps(out: seq<Row>, ops: map<u64, set<Row>>, a: seq<Row>, b: seq<Row>)
    requires ops == OpsByTime(a + b) && Exactly(out, ops)
    ensures Ops(out) == Ops(a) + Ops(b)
  {
    hide OpsByTime;
    OpsByTimeHolds(a + b);
    assert forall r :: r in a + b <==> r in a || r in b;
  }

  /** The adds of both sides, by time. */
  method Collect(a: seq<Row>, b: seq<Row>) returns (out: map<u64, set<Row>>)
    ensures out == OpsByTime(a + b) && ByOwnTime(out)
  {
    hide PutOp;
    out := map[];
    for i := 0 to |a|
      invariant out == OpsByTime(a[..i])
    {
      out := PutOp(out, a[i]);
      assert a[..i + 1][..i] == a[..i];
    }
    assert a[..|a|] == a && a + b[..0] == a;
    for i := 0 to |b|
      invariant out == OpsByTime(a + b[..i])
    {
      out := PutOp(out, b[i]);
      assert (a + b[..i + 1])[..|a| + i] == a + b[..i];
    }
    assert b[..|b|] == b;
    OpsByTimeHolds(a + b);
  }

  lemma InhabitedRows(s: set<Row>)
    ensures s == {} || exists r :: r in s
  {
    if forall r :: r !in s {
      assert s == {};
    }
  }

  class CounterData {
    var Time: seq<u64>
    var Replica: seq<u64>
    var Clock: seq<u64>
    var Value: seq<u64>
    var Buckets: seq<CounterBucket>

    predicate Valid()
      reads this
    {
      |Time| == |Replica| == |Clock| == |Value|
    }

    ghost function View(): Counters
      reads this
      requires Valid()
    {
      Counters(Zip(Time, Value, Clock, Replica), Buckets)
    }

    constructor ()
      ensures Valid() && View() == Counters([], [])
    {
      Time, Replica, Clock, Value, Buckets := [], [], [], [], [];
    }

    constructor Of(p: Counters)
      ensures Valid() && View() == p
    {
      Time, Replica, Clock, Value, Buckets := Times(p.rows), Replicas(p.rows), Clocks(p.rows), Values(p.rows), p.buckets;
      new;
      ZipColumns(p.rows);
    }

    method Add(t: u64, replica: u64, clock: u64, value: u64)
      requires Valid()
      modifies `Time, `Replica, `Clock, `Value
      ensures Valid()
      ensures View() == old(View()).(rows := old(View()).rows + [Row(t, value, clock, replica)])
    {
      Time := Time + [t];
      Replica := Replica + [replica];
      Clock := Clock + [clock];
      Value := Value + [value];
    }

    method Reset()
      modifies this
      ensures Valid() && View() == Counters([], [])
    {
      Time, Replica, Clock, Value, Buckets := [], [], [], [], [];
    }

    method Merge(delta: Counters)
      requires Valid()
      modifies this
      ensures Valid()
      ensures MergedInto(old(View()), delta, View())
    {
      hide OpsByTime, Zip, Distinct, Nondecreasing, MergeBuckets, ByOwnTime, Exactly, Ops;
      var ops := Collect(Zip(Time, Value, Clock, Replica), delta.rows);
      Rewrite(ops);
      UnionOfOps(View().rows, ops, old(View()).rows, delta.rows);
      Buckets := MergeCounterBuckets(Buckets, delta.buckets);
    }

    /** Rewrites the columns from the adds, time by time. */
    method Rewrite(ops: map<u64, set<Row>>)
      requires ByOwnTime(ops)
      modifies `Time, `Replica, `Clock, `Value
      ensures Valid()
      ensures Nondecreasing(View().rows) && Distinct(View().rows)
      ensures Exactly(View().rows, ops)
    {
      var times := SortedTimes(ops);
      hide SortedTimes, Nondecreasing, Distinct, Zip;
      Time, Replica, Clock, Value := [], [], [], [];
      NothingBefore(View().rows, ops, times);
      for i := 0 to |times|
        invariant Valid()
        invariant Nondecreasing(View().rows) && Distinct(View().rows)
        invariant forall r :: r in View().rows <==> In(r, ops) && (i < |times| ==> r.time < times[i])
      {
        var t := times[i];
        assert t in times;
        TimesBetween(ops, times, i);
        AddAll(t, ops[t]);
      }
    }

    /** Appends all adds of one time, in no particular order. */
    method AddAll(t: u64, ops: set<Row>)
      requires Valid() && Nondecreasing(View().rows) && Distinct(View().rows)
      requires forall r :: r in View().rows ==> r.time < t
      requires forall r :: r in ops ==> r.time == t
      modifies `Time, `Replica, `Clock, `Value
      ensures Valid() && Nondecreasing(View().rows) && Distinct(View().rows)
      ensures forall r :: r in View().rows <==> r in old(View()).rows || r in ops
    {
      hide Zip;
      var left := ops;
      while left != {}
        invariant Valid() && left <= ops
        invariant Nondecreasing(View().rows) && Distinct(View().rows)
        invariant forall r :: r in View().rows <==> r in old(View()).rows || r in ops - left
        invariant forall r :: r in View().rows ==> r.time <= t && r !in left
        decreases |left|
      {
        InhabitedRows(left);
        var op :| op in left;
        ghost var before := View().rows;
        Add(t, op.replica, op.clock, op.value);
        Appended(before, op);
        left := left - {op};
      }
    }

    method Compact(cutoff: u64, span: u64)
      requires Valid()
      modifies this
      ensures Valid()
      ensures View() == Compacted(old(View()), cutoff, span)
    {
      hide Old, Young, GroupSums, SumBuckets, ToBuckets;
      ghost var start := View();
      var buckets := AddBuckets(map[], Buckets);
      ghost var base := buckets;
      var keep := 0;
      NothingYet(base, start.rows, cutoff, span);
      for i := 0 to |Time|
        invariant Valid() && |Time| == |start.rows| && Buckets == start.buckets
        invariant keep <= i
        invariant View().rows[..keep] == Young(start.rows[..i], cutoff)
        invariant View().rows[i..] == start.rows[i..]
        invariant buckets == GroupSums(base, Old(start.rows[..i], cutoff), span)
      {
        OldYoungSnoc(start.rows, i, cutoff);
        assert View().rows[i..][0] == start.rows[i];
        if Time[i] >= cutoff {
          KeepRow(keep, i);
          keep := keep + 1;
        } else {
          var bt := BucketOf(Time[i], span);
          buckets := buckets[bt := Words.Add(SumAt(buckets, bt), Value[i])];
          GroupSnoc(base, Old(start.rows[..i], cutoff), start.rows[i], span);
          assert View().rows[i..][1..] == start.rows[i..][1..];
        }
      }
      assert start.rows[..|Time|] == start.rows;
      Truncate(keep);
      Buckets := ToBuckets(buckets);
    }

    /** Moves the i-th row down to position `keep`. */
    method KeepRow(keep: nat, i: nat)
      requires Valid() && keep <= i < |Time|
      modifies `Time, `Replica, `Clock, `Value
      ensures Valid() && |Time| == |old(Time)|
      ensures View().rows[..keep + 1] == old(View()).rows[..keep] + [old(View()).rows[i]]
      ensures View().rows[i + 1..] == old(View()).rows[i..][1..]
    {
      Time := Time[keep := Time[i]];
      Replica := Replica[keep := Replica[i]];
      Clock := Clock[keep := Clock[i]];
      Value := Value[keep := Value[i]];
    }

    method Truncate(keep: nat)
      requires Valid() && keep <= |Time|
      modifies `Time, `Replica, `Clock, `Value
      ensures Valid() && View() == old(View()).(rows := old(View()).rows[..keep])
    {
      Time := Time[..keep];
      Replica := Replica[..keep];
      Clock := Clock[..keep];
      Value := Value[..keep];
    }
  }

  lemma Appended(rows: seq<Row>, op: Row)
    requires Nondecreasing(rows) && Distinct(rows) && op !in rows
    requires forall r :: r in rows ==> r.time <= op.time
    ensures Nondecreasing(rows + [op]) && Distinct(rows + [op])
    ensures forall r :: r in rows + [op] <==> r in rows || r == op
  {
  }

  lemma NothingBefore(rows: seq<Row>, ops: map<u64, set<Row>>, times: seq<u64>)
    requires |rows| == 0 && Increasing(times)
    requires (forall t :: t in times <==> t in ops) && forall t :: t in ops ==> forall r :: r in ops[t] ==> r.time == t
    ensures Nondecreasing(rows) && Distinct(rows)
    ensures forall r: Row :: In(r, ops) ==> |times| > 0 && r.time >= times[0]
  {
    forall r: Row | In(r, ops)
      ensures |times| > 0 && r.time >= times[0]
    {
      assert r.time in times;
      var j :| 0 <= j < |times| && times[j] == r.time;
      assert j > 0 ==> times[0] < times[j];
    }
  }

  lemma TimesBetween(ops: map<u64, set<Row>>, times: seq<u64>, i: nat)
    requires i < |times| && Increasing(times)
    requires forall t :: t in times <==> t in ops
    requires forall t :: t in ops ==> forall r :: r in ops[t] ==> r.time == t
    ensures forall r: Row :: In(r, ops) && (i + 1 < |times| ==> r.time < times[i + 1]) <==>
                        (In(r, ops) && r.time < times[i]) || r in ops[times[i]]
  {
    forall r: Row | In(r, ops) && r.time != times[i]
      ensures (i + 1 < |times| ==> r.time < times[i + 1]) <==> r.time < times[i]
    {
      assert r.time in times;
      var j :| 0 <= j < |times| && times[j] == r.time;
    }
    assert times[i] in times;
  }

  lemma GroupSnoc(m: map<u64, u64>, rows: seq<Row>, r: Row, span: u64)
    ensures var g := GroupSums(m, rows, span);
            var k := BucketOf(r.time, span);
            GroupSums(m, rows + [r], span) == g[k := Add(SumAt(g, k), r.value)]
  {
    assert (rows + [r])[..|rows|] == rows;
  }

  lemma NothingYet(m: map<u64, u64>, rows: seq<Row>, cutoff: u64, span: u64)
    ensures Young(rows[..0], cutoff) == []
    ensures GroupSums(m, Old(rows[..0], cutoff), span) == m
  {
  }

  method AddBuckets(m: map<u64, u64>, bs: seq<CounterBucket>) returns (buckets: map<u64, u64>)
    ensures buckets == SumBuckets(m, bs)
  {
    buckets := m;
    for i := 0 to |bs|
      invariant buckets == SumBuckets(m, bs[..i])
    {
      buckets := buckets[bs[i].time := Add(SumAt(buckets, bs[i].time), bs[i].sum)];
      assert bs[..i + 1][..i] == bs[..i];
    }
    assert bs[..|bs|] == bs;
  }

  method MergeCounterBuckets(a: seq<CounterBucket>, b: seq<CounterBucket>) returns (out: seq<CounterBucket>)
    ensures out == MergeBuckets(a, b)
  {
    var buckets := AddBuckets(map[], a);
    buckets := AddBuckets(buckets, b);
    out := ToBuckets(buckets);
  }

  // ----- The merge is a union -----

  /** A merge is determined up to the order of adds with the same time. */
  lemma MergesAgree(d: Counters, delta: Counters, a: Counters, b: Counters)
    requires MergedInto(d, delta, a) && MergedInto(d, delta, b)
    ensures multiset(a.rows) == multiset(b.rows) && a.buckets == b.buckets
  {
    DistinctMultiset(a.rows);
    DistinctMultiset(b.rows);
  }

  lemma {:induction false} DistinctMultiset(rows: seq<Row>)
    requires Distinct(rows)
    ensures multiset(rows) == multiset(Ops(rows))
  {
    if rows == [] {
      assert Ops(rows) == {};
    } else {
      var n := |rows| - 1;
      DistinctMultiset(rows[..n]);
      assert rows == rows[..n] + [rows[n]];
      assert Ops(rows) == Ops(rows[..n]) + {rows[n]};
      assert rows[n] !in Ops(rows[..n]);
    }
  }

  /** Merging in the other order gives the same adds and the same buckets. */
  lemma MergeCommutes(d: Counters, delta: Counters, a: Counters, b: Counters)
    requires MergedInto(d, delta, a) && MergedInto(delta, d, b)
    ensures multiset(a.rows) == multiset(b.rows) && a.buckets == b.buckets
  {
    DistinctMultiset(a.rows);
    DistinctMultiset(b.rows);
    BucketSumsCommute(d.buckets, delta.buckets);
  }

  lemma {:induction false} SumBucketsAt(m: map<u64, u64>, bs: seq<CounterBucket>, t: u64)
    ensures t in SumBuckets(m, bs) <==> t in m || t in SumBuckets(map[], bs)
    ensures SumAt(SumBuckets(m, bs), t) == Add(SumAt(m, t), SumAt(SumBuckets(map[], bs), t))
  {
    if bs != [] {
      SumBucketsAt(m, bs[..|bs| - 1], t);
      var b := bs[|bs| - 1];
      SumBucketsAt(m, bs[..|bs| - 1], b.time);
    }
  }

  lemma BucketSumsCommute(a: seq<CounterBucket>, b: seq<CounterBucket>)
    ensures MergeBuckets(a, b) == MergeBuckets(b, a)
  {
    var l, r := SumBuckets(SumBuckets(map[], a), b), SumBuckets(SumBuckets(map[], b), a);
    forall t: u64
      ensures t in l <==> t in r
      ensures t in l ==> l[t] == r[t]
    {
      SumBucketsAt(SumBuckets(map[], a), b, t);
      SumBucketsAt(SumBuckets(map[], b), a, t);
    }
    assert l == r;
  }

  lemma BucketSumsAssociate(a: seq<CounterBucket>, b: seq<CounterBucket>, c: seq<CounterBucket>)
    ensures MergeBuckets(MergeBuckets(a, b), c) == MergeBuckets(a, MergeBuckets(b, c))
  {
    hide SumBuckets, ToBuckets, Add;
    var sa, sb := SumBuckets(map[], a), SumBuckets(map[], b);
    var ab, bc := SumBuckets(sa, b), SumBuckets(sb, c);
    SumOfToBuckets(ab);
    SumOfToBuckets(bc);
    var l, r := SumBuckets(ab, c), SumBuckets(sa, ToBuckets(bc));
    forall t: u64
      ensures t in l <==> t in r
      ensures SumAt(l, t) == SumAt(r, t)
    {
      SumBucketsAt(ab, c, t);
      SumBucketsAt(sa, b, t);
      SumBucketsAt(sb, c, t);
      SumBucketsAt(sa, ToBuckets(bc), t);
      AddAssociates(SumAt(sa, t), SumAt(sb, t), SumAt(SumBuckets(map[], c), t));
    }
    SameSums(l, r);
  }

  lemma SameSums(l: map<u64, u64>, r: map<u64, u64>)
    requires forall t: u64 :: (t in l <==> t in r) && SumAt(l, t) == SumAt(r, t)
    ensures l == r
  {
    assert forall t :: t in l ==> SumAt(l, t) == SumAt(r, t);
  }

  lemma AddAssociates(a: u64, b: u64, c: u64)
    ensures Add(Add(a, b), c) == Add(a, Add(b, c))
  {
  }

  /** Merging in either nesting gives the same adds and the same buckets. */
  lemma MergeAssociates(a: Counters, b: Counters, c: Counters, ab: Counters, bc: Counters, x: Counters, y: Counters)
    requires MergedInto(a, b, ab) && MergedInto(ab, c, x)
    requires MergedInto(b, c, bc) && MergedInto(a, bc, y)
    ensures multiset(x.rows) == multiset(y.rows) && x.buckets == y.buckets
  {
    hide MergeBuckets;
    DistinctMultiset(x.rows);
    DistinctMultiset(y.rows);
    assert Ops(x.rows) == Ops(y.rows);
    BucketSumsAssociate(a.buckets, b.buckets, c.buckets);
  }

  /** Merging the same raw adds again adds nothing. */
  lemma MergeIdempotent(d: Counters, rows: seq<Row>, once: Counters, twice: Counters)
    requires MergedInto(d, Counters(rows, []), once) && MergedInto(once, Counters(rows, []), twice)
    ensures multiset(once.rows) == multiset(twice.rows)
  {
    DistinctMultiset(once.rows);
    DistinctMultiset(twice.rows);
  }

  // ----- Compacting in steps -----

  lemma ToBucketsAt(m: map<u64, u64>)
    ensures forall i, j :: 0 <= i < j < |ToBuckets(m)| ==> ToBuckets(m)[i].time < ToBuckets(m)[j].time
    ensures forall i :: 0 <= i < |ToBuckets(m)| ==> ToBuckets(m)[i].time in m && ToBuckets(m)[i].sum == m[ToBuckets(m)[i].time]
    ensures forall t :: t in m ==> CounterBucket(t, m[t]) in ToBuckets(m)
  {
    hide SortedTimes, ToBuckets;
    var q := SortedTimes(m);
    forall i | 0 <= i < |q|
      ensures q[i] in m && ToBuckets(m)[i] == CounterBucket(q[i], m[q[i]])
    {
      ToBucketsIndex(m, i);
    }
    forall t | t in m
      ensures CounterBucket(t, m[t]) in ToBuckets(m)
    {
      assert t in q;
      var i :| 0 <= i < |q| && q[i] == t;
      assert ToBuckets(m)[i] == CounterBucket(t, m[t]);
    }
  }

  lemma ToBucketsIndex(m: map<u64, u64>, i: nat)
    requires i < |m|
    ensures var t := SortedTimes(m)[i]; t in m && ToBuckets(m)[i] == CounterBucket(t, m[t])
  {
    assert SortedTimes(m)[i] in SortedTimes(m);
  }

  predicate BucketsIncreasing(bs: seq<CounterBucket>) {
    forall i, j :: 0 <= i < j < |bs| ==> bs[i].time < bs[j].time
  }

  lemma {:induction false} SumDistinct(bs: seq<CounterBucket>)
    requires BucketsIncreasing(bs)
    ensures forall t :: t in SumBuckets(map[], bs) <==> exists b :: b in bs && b.time == t
    ensures forall b :: b in bs ==> b.time in SumBuckets(map[], bs) && SumBuckets(map[], bs)[b.time] == b.sum
  {
    if bs != [] {
      var n := |bs| - 1;
      hide SumBuckets, BucketsIncreasing;
      SumDistinct(bs[..n]) by { IncreasingPrefix(bs, n); }
      SumDistinctStep(bs, n);
    }
  }

  lemma IncreasingPrefix(bs: seq<CounterBucket>, n: nat)
    requires BucketsIncreasing(bs) && n <= |bs|
    ensures BucketsIncreasing(bs[..n])
  {
  }

  lemma SumDistinctStep(bs: seq<CounterBucket>, n: nat)
    requires BucketsIncreasing(bs) && n == |bs| - 1
    requires forall t :: t in SumBuckets(map[], bs[..n]) <==> exists b :: b in bs[..n] && b.time == t
    ensures forall b :: b in bs <==> b in bs[..n] || b == bs[n]
    ensures forall b :: b in bs[..n] ==> b.time < bs[n].time
    ensures SumBuckets(map[], bs) == SumBuckets(map[], bs[..n])[bs[n].time := bs[n].sum]
  {
    assert bs == bs[..n] + [bs[n]];
    forall b | b in bs[..n]
      ensures b.time < bs[n].time
    {
      var i :| 0 <= i < n && bs[i] == b;
    }
    SumsSnoc(bs, n);
    hide SumBuckets;
    assert bs[n].time !in SumBuckets(map[], bs[..n]);
  }

  lemma SumsSnoc(bs: seq<CounterBucket>, n: nat)
    requires n == |bs| - 1
    ensures var m := SumBuckets(map[], bs[..n]);
            SumBuckets(map[], bs) == m[bs[n].time := Add(SumAt(m, bs[n].time), bs[n].sum)]
  {
  }

  lemma SumOfToBuckets(m: map<u64, u64>)
    ensures SumBuckets(map[], ToBuckets(m)) == m
  {
    hide ToBuckets, SumBuckets;
    ToBucketsAt(m);
    var bs := ToBuckets(m);
    SumDistinct(bs);
    var back := SumBuckets(map[], bs);
    forall t: u64
      ensures t in back <==> t in m
      ensures t in m ==> back[t] == m[t]
    {
      if t in m {
        assert CounterBucket(t, m[t]) in bs;
      }
      if t in back {
        var b :| b in bs && b.time == t;
        var i :| 0 <= i < |bs| && bs[i] == b;
      }
    }
    assert back == m;
  }

  lemma CompactTwice(d: Counters, c1: u64, c2: u64, span: u64)
    requires Nondecreasing(d.rows) && c1 <= c2
    ensures Compacted(Compacted(d, c1, span), c2, span) == Compacted(d, c2, span)
  {
    var m := SumBuckets(map[], d.buckets);
    SumOfToBuckets(GroupSums(m, Old(d.rows, c1), span));
    CutTwice(d.rows, c1, c2);
    GroupTwice(m, d.rows, c1, c2, span, Zero, Add);
  }

  // ----- Conservation -----

  ghost function RowTotal(rows: seq<Row>): nat {
    if rows == [] then 0 else RowTotal(rows[..|rows| - 1]) + rows[|rows| - 1].value
  }

  ghost function BucketTotal(bs: seq<CounterBucket>): nat {
    if bs == [] then 0 else BucketTotal(bs[..|bs| - 1]) + bs[|bs| - 1].sum
  }

  /** Everything a state has counted, modulo 2^64. */
  ghost function Counted(d: Counters): int {
    (RowTotal(d.rows) + BucketTotal(d.buckets)) % W
  }

  lemma PutTotal(m: map<u64, u64>, t: u64, v: u64)
    ensures Total(m[t := Add(SumAt(m, t), v)]) % W == (Total(m) + v) % W
  {
    TotalPut(m, t, Add(SumAt(m, t), v));
    var before, after := Total(m), Total(m[t := Add(SumAt(m, t), v)]);
    assert Get(m, t) == SumAt(m, t);
    assert after == before + v || after == before + v - W;
  }

  lemma {:induction false} SumBucketsTotal(m: map<u64, u64>, bs: seq<CounterBucket>)
    ensures Total(SumBuckets(m, bs)) % W == (Total(m) + BucketTotal(bs)) % W
  {
    hide Total;
    if bs != [] {
      var n := |bs| - 1;
      SumBucketsTotal(m, bs[..n]);
      PutTotal(SumBuckets(m, bs[..n]), bs[n].time, bs[n].sum);
      Shift(Total(SumBuckets(m, bs[..n])), Total(m) + BucketTotal(bs[..n]), bs[n].sum);
    }
  }

  lemma Shift(a: int, b: int, c: int)
    requires a % W == b % W
    ensures (a + c) % W == (b + c) % W
  {
  }

  lemma {:induction false} GroupTotal(m: map<u64, u64>, rows: seq<Row>, span: u64)
    ensures Total(GroupSums(m, rows, span)) % W == (Total(m) + RowTotal(rows)) % W
  {
    hide Total;
    if rows != [] {
      var n := |rows| - 1;
      GroupTotal(m, rows[..n], span);
      var g := GroupSums(m, rows[..n], span);
      PutTotal(g, BucketOf(rows[n].time, span), rows[n].value);
      GroupSnoc(m, rows[..n], rows[n], span);
      assert rows == rows[..n] + [rows[n]];
      Shift(Total(g), Total(m) + RowTotal(rows[..n]), rows[n].value);
    }
  }

  lemma ToBucketsTotal(m: map<u64, u64>)
    ensures BucketTotal(ToBuckets(m)) % W == Total(m) % W
  {
    hide Total, ToBuckets, SumBuckets, BucketTotal;
    SumBucketsTotal(map[], ToBuckets(m));
    SumOfToBuckets(m);
    TotalEmpty();
  }

  lemma {:induction false} RowTotalConcat(a: seq<Row>, b: seq<Row>)
    ensures RowTotal(a + b) == RowTotal(a) + RowTotal(b)
  {
    if b == [] {
      assert a + b == a;
    } else {
      assert (a + b)[..|a| + |b| - 1] == a + b[..|b| - 1];
      RowTotalConcat(a, b[..|b| - 1]);
    }
  }

  lemma {:induction false} OldYoungTotal(rows: seq<Row>, cutoff: u64)
    ensures RowTotal(rows) == RowTotal(Old(rows, cutoff)) + RowTotal(Young(rows, cutoff))
  {
    if rows != [] {
      var n := |rows| - 1;
      OldYoungTotal(rows[..n], cutoff);
      assert rows[..n + 1] == rows;
      OldYoungSnoc(rows, n, cutoff);
      RowTotalConcat(Old(rows[..n], cutoff), [rows[n]]);
      RowTotalConcat(Young(rows[..n], cutoff), [rows[n]]);
      RowTotalConcat([], [rows[n]]);
      assert [] + [rows[n]] == [rows[n]];
    }
  }

  /** Compaction counts nothing twice and loses nothing. */
  lemma CompactConserves(d: Counters, cutoff: u64, span: u64)
    ensures Counted(Compacted(d, cutoff, span)) == Counted(d)
  {
    hide Total, RowTotal, BucketTotal, GroupSums, SumBuckets, ToBuckets, Old, Young;
    var m := SumBuckets(map[], d.buckets);
    var g := GroupSums(m, Old(d.rows, cutoff), span);
    SumBucketsTotal(map[], d.buckets);
    TotalEmpty();
    GroupTotal(m, Old(d.rows, cutoff), span);
    ToBucketsTotal(g);
    OldYoungTotal(d.rows, cutoff);
    var o, y := RowTotal(Old(d.rows, cutoff)), RowTotal(Young(d.rows, cutoff));
    Shift(Total(m), BucketTotal(d.buckets), o);
    Shift(BucketTotal(ToBuckets(g)), Total(g), y);
    Shift(Total(g), Total(m) + o, y);
    Shift(Total(m) + o, BucketTotal(d.buckets) + o, y);
  }

  lemma TotalEmpty()
    ensures Total(map[]) == 0
  {
  }

  /** Merging disjoint adds counts both sides. */
  lemma MergeConserves(d: Counters, delta: Counters, out: Counters)
    requires MergedInto(d, delta, out)
    requires Distinct(d.rows) && Distinct(delta.rows) && Ops(d.rows) !! Ops(delta.rows)
    ensures Counted(out) == (Counted(d) + Counted(delta)) % W
  {
    hide Total, BucketTotal, SumBuckets, ToBuckets, RowTotal, Distinct, Nondecreasing;
    MergedRowTotal(d.rows, delta.rows, out.rows);
    var m := SumBuckets(map[], d.buckets);
    SumBucketsTotal(map[], d.buckets);
    TotalEmpty();
    SumBucketsTotal(m, delta.buckets);
    ToBucketsTotal(SumBuckets(m, delta.buckets));
    MergeArithmetic(RowTotal(d.rows), RowTotal(delta.rows), BucketTotal(d.buckets), BucketTotal(delta.buckets),
                    Total(m), BucketTotal(out.buckets));
  }

  lemma MergedRowTotal(a: seq<Row>, b: seq<Row>, out: seq<Row>)
    requires Distinct(a) && Distinct(b) && Ops(a) !! Ops(b)
    requires Distinct(out) && Ops(out) == Ops(a) + Ops(b)
    ensures RowTotal(out) == RowTotal(a) + RowTotal(b)
  {
    hide RowTotal, Distinct;
    DistinctConcat(a, b);
    DistinctMultiset(out);
    DistinctMultiset(a + b);
    assert Ops(a + b) == Ops(out);
    RowTotalPermuted(out, a + b);
    RowTotalConcat(a, b);
  }

  lemma MergeArithmetic(r1: int, r2: int, b1: int, b2: int, m: int, b: int)
    requires m % W == b1 % W && b % W == (m + b2) % W
    ensures (r1 + r2 + b) % W == ((r1 + b1) % W + (r2 + b2) % W) % W
  {
    Shift(m, b1, b2);
    Shift(b, b1 + b2, r1 + r2);
    SumModulo(r1 + b1, r2 + b2);
  }

  lemma SumModulo(a: int, b: int)
    ensures (a + b) % W == (a % W + b % W) % W
  {
  }

  lemma DistinctConcat(a: seq<Row>, b: seq<Row>)
    requires Distinct(a) && Distinct(b) && Ops(a) !! Ops(b)
    ensures Distinct(a + b)
  {
    var s := a + b;
    forall i, j | 0 <= i < j < |s|
      ensures s[i] != s[j]
    {
      if i < |a| <= j {
        assert s[i] in Ops(a) && s[j] in Ops(b);
      }
    }
  }

  lemma {:induction false} RowTotalPermuted(a: seq<Row>, b: seq<Row>)
    requires multiset(a) == multiset(b)
    ensures RowTotal(a) == RowTotal(b)
    decreases |a|
  {
    if a == [] {
      assert |multiset(b)| == 0;
    } else {
      var n := |a| - 1;
      var front, back := RemoveLast(a, b);
      RowTotalPermuted(a[..n], front + back);
      RowTotalConcat(front, [a[n]] + back);
      RowTotalConcat([a[n]], back);
      RowTotalConcat(front, back);
      RowTotalConcat([], [a[n]]);
      assert [] + [a[n]] == [a[n]];
    }
  }

  lemma RemoveLast(a: seq<Row>, b: seq<Row>) returns (front: seq<Row>, back: seq<Row>)
    requires a != [] && multiset(a) == multiset(b)
    ensures b == front + ([a[|a| - 1]] + back)
    ensures multiset(a[..|a| - 1]) == multiset(front + back)
  {
    var n := |a| - 1;
    var r := a[n];
    assert a == a[..n] + [r];
    assert multiset(a) == multiset(a[..n]) + multiset{r};
    assert r in multiset(b);
    var i :| 0 <= i < |b| && b[i] == r;
    front, back := b[..i], b[i + 1..];
    SplitAt(b, i);
    SameRest(multiset(a[..n]), multiset(front + back), r);
  }

  lemma SplitAt(b: seq<Row>, i: nat)
    requires i < |b|
    ensures b == b[..i] + ([b[i]] + b[i + 1..])
    ensures multiset(b) == multiset(b[..i] + b[i + 1..]) + multiset{b[i]}
  {
    assert b == b[..i] + ([b[i]] + b[i + 1..]);
  }

  lemma SameRest(a: multiset<Row>, b: multiset<Row>, r: Row)
    requires a + multiset{r} == b + multiset{r}
    ensures a == b
  {
    assert a == (a + multiset{r}) - multiset{r};
    assert b == (b + multiset{r}) - multiset{r};
  }
}
