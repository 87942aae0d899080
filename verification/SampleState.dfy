/** Samples: the last write to a time wins; compaction folds old points into buckets. */
module SampleState {
  import opened Words
  import opened FloatModel
  import opened Rows

  /** The aggregate of one bucket; a count of 0 means nothing was aggregated. */
  datatype SampleBucket = SampleBucket(time: u64, count: nat, sum: u64, min: u64, max: u64, first: u64, last: u64)

  datatype Samples = Samples(rows: seq<Row>, buckets: seq<SampleBucket>)

  function RowTime(r: Row): u64 { r.time }

  function BucketTime(b: SampleBucket): u64 { b.time }

  // ----- Last write wins -----

  predicate Newer(a: Row, b: Row) {
    a.clock > b.clock || (a.clock == b.clock && a.replica > b.replica)
  }

  /** `next` replaces what is at its time if there is nothing there or it is newer. */
  function Put(points: map<u64, Row>, next: Row): map<u64, Row> {
    if next.time !in points || Newer(next, points[next.time]) then points[next.time := next] else points
  }

  function Apply(points: map<u64, Row>, rows: seq<Row>): map<u64, Row> {
    if rows == [] then points else Put(Apply(points, rows[..|rows| - 1]), rows[|rows| - 1])
  }

  function Load(rows: seq<Row>): map<u64, Row> { ByTime(rows, RowTime) }

  // ----- Buckets -----

  function Combine(F: Floats, a: SampleBucket, b: SampleBucket): SampleBucket {
    if a.count == 0 then b
    else if b.count == 0 then a
    else a.(count := a.count + b.count, sum := F.add(a.sum, b.sum),
            min := if F.Less(b.min, a.min) then b.min else a.min,
            max := if F.Less(a.max, b.max) then b.max else a.max,
            last := b.last)
  }

  function PutBucket(F: Floats, m: map<u64, SampleBucket>, b: SampleBucket): map<u64, SampleBucket> {
    m[b.time := if b.time in m then Combine(F, m[b.time], b) else b]
  }

  function ApplyBuckets(F: Floats, m: map<u64, SampleBucket>, bs: seq<SampleBucket>): map<u64, SampleBucket> {
    if bs == [] then m else PutBucket(F, ApplyBuckets(F, m, bs[..|bs| - 1]), bs[|bs| - 1])
  }

  function BucketMap(bs: seq<SampleBucket>): map<u64, SampleBucket> { ByTime(bs, BucketTime) }

  function MergeBuckets(F: Floats, a: seq<SampleBucket>, b: seq<SampleBucket>): seq<SampleBucket> {
    InOrder(ApplyBuckets(F, BucketMap(a), b))
  }

  function Merged(F: Floats, d: Samples, delta: Samples): Samples {
    Samples(InOrder(Apply(Load(d.rows), delta.rows)), MergeBuckets(F, d.buckets, delta.buckets))
  }

  // ----- Compaction -----

  function EmptyBucket(t: u64): SampleBucket { SampleBucket(t, 0, 0, 0, 0, 0, 0) }

  function AddPoint(F: Floats, b: SampleBucket, v: u64): SampleBucket {
    var c := if b.count == 0 then b.(min := v, max := v, first := v) else b;
    c.(count := c.count + 1, sum := F.add(c.sum, v),
       min := if F.Less(v, c.min) then v else c.min,
       max := if F.Less(c.max, v) then v else c.max,
       last := v)
  }

  function GroupPoints(F: Floats, m: map<u64, SampleBucket>, rows: seq<Row>, span: u64): map<u64, SampleBucket> {
    Group(m, rows, span, EmptyBucket, (b: SampleBucket, v: u64) => AddPoint(F, b, v))
  }

  function Compacted(F: Floats, d: Samples, cutoff: u64, span: u64): Samples {
    if d.rows == [] then d else
    Samples(Young(d.rows, cutoff), InOrder(GroupPoints(F, BucketMap(d.buckets), Old(d.rows, cutoff), span)))
  }

  // ----- In place -----

  class SampleData {
    var Time: seq<u64>
    var Data: seq<u64>
    var Clock: seq<u64>
    var Replica: seq<u64>
    var Buckets: seq<SampleBucket>

    predicate Valid()
      reads this
    {
      |Time| == |Data| == |Clock| == |Replica|
    }

    ghost function View(): Samples
      reads this
      requires Valid()
    {
      Samples(Zip(Time, Data, Clock, Replica), Buckets)
    }

    constructor ()
      ensures Valid() && View() == Samples([], [])
    {
      Time, Data, Clock, Replica, Buckets := [], [], [], [], [];
    }

    constructor Of(p: Samples)
      ensures Valid() && View() == p
    {
      Time, Data, Clock, Replica, Buckets := Times(p.rows), Values(p.rows), Clocks(p.rows), Replicas(p.rows), p.buckets;
      new;
      ZipColumns(p.rows);
    }

    method Add(t: u64, value: u64, clock: u64, replica: u64)
      requires Valid()
      modifies this
      ensures Valid()
      ensures View() == old(View()).(rows := old(View()).rows + [Row(t, value, clock, replica)])
    {
      Time := Time + [t];
      Data := Data + [value];
      Clock := Clock + [clock];
      Replica := Replica + [replica];
    }

    method Reset()
      modifies this
      ensures Valid() && View() == Samples([], [])
    {
      Time, Data, Clock, Replica, Buckets := [], [], [], [], [];
    }

    method Merge(F: Floats, delta: Samples)
      requires Valid()
      modifies this
      ensures Valid()
      ensures View() == Merged(F, old(View()), delta)
    {
      ghost var rows := View().rows;
      var points: map<u64, Row> := map[];
      for i := 0 to |Time|
        invariant unchanged(this) && |rows| == |Time|
        invariant points == Load(rows[..i])
      {
        points := points[Time[i] := Row(Time[i], Data[i], Clock[i], Replica[i])];
        assert rows[..i + 1][..i] == rows[..i];
      }
      assert rows[..|Time|] == rows;
      for i := 0 to |delta.rows|
        invariant unchanged(this)
        invariant points == Apply(Load(rows), delta.rows[..i])
      {
        var next := delta.rows[i];
        if next.time !in points || Newer(next, points[next.time]) {
          points := points[next.time := next];
        }
        assert delta.rows[..i + 1][..i] == delta.rows[..i];
      }
      assert delta.rows[..|delta.rows|] == delta.rows;
      ApplyKeyed(rows, delta.rows);
      Rebuild(points);
      Buckets := MergeSampleBuckets(F, Buckets, delta.buckets);
    }

    /** Rewrites the columns from the points in time order. */
    method Rebuild(points: map<u64, Row>)
      requires Keyed(points, RowTime)
      modifies this
      ensures Valid() && View() == Samples(InOrder(points), old(Buckets))
    {
      hide InOrder, SortedTimes, Zip, Keyed;
      var times := SortedTimes(points);
      Time, Data, Clock, Replica := [], [], [], [];
      for i := 0 to |times|
        invariant Valid() && Buckets == old(Buckets)
        invariant View().rows == InOrder(points)[..i]
      {
        InOrderAt(points, RowTime, i);
        var p := points[times[i]];
        Add(times[i], p.value, p.clock, p.replica);
      }
    }

    method Compact(F: Floats, cutoff: u64, span: u64)
      requires Valid()
      modifies this
      ensures Valid()
      ensures View() == Compacted(F, old(View()), cutoff, span)
    {
      if |Time| == 0 {
        assert View().rows == [];
        return;
      }
      hide Old, Young, GroupPoints, BucketMap, InOrder;
      ghost var start := View();
      var buckets := MapBuckets(Buckets);
      ghost var base := buckets;
      var keep := 0;
      NothingYet(F, base, start.rows, cutoff, span);
      for i := 0 to |Time|
        invariant Valid() && |Time| == |start.rows| && Buckets == start.buckets
        invariant keep <= i
        invariant View().rows[..keep] == Young(start.rows[..i], cutoff)
        invariant View().rows[i..] == start.rows[i..]
        invariant buckets == GroupPoints(F, base, Old(start.rows[..i], cutoff), span)
      {
        OldYoungSnoc(start.rows, i, cutoff);
        assert View().rows[i..][0] == start.rows[i];
        if Time[i] >= cutoff {
          KeepRow(keep, i);
          keep := keep + 1;
        } else {
          var bt := BucketOf(Time[i], span);
          var b := if bt in buckets then buckets[bt] else EmptyBucket(bt);
          buckets := buckets[bt := AddPoint(F, b, Data[i])];
          GroupSnoc(F, base, Old(start.rows[..i], cutoff), start.rows[i], span);
          assert View().rows[i..][1..] == start.rows[i..][1..];
        }
      }
      assert start.rows[..|Time|] == start.rows;
      Truncate(keep);
      Buckets := InOrder(buckets);
    }

    /** Moves the i-th row down to position `keep`. */
    method KeepRow(keep: nat, i: nat)
      requires Valid() && keep <= i < |Time|
      modifies `Time, `Data, `Clock, `Replica
      ensures Valid() && |Time| == |old(Time)|
      ensures View().rows[..keep + 1] == old(View()).rows[..keep] + [old(View()).rows[i]]
      ensures View().rows[i + 1..] == old(View()).rows[i..][1..]
    {
      Time := Time[keep := Time[i]];
      Data := Data[keep := Data[i]];
      Clock := Clock[keep := Clock[i]];
      Replica := Replica[keep := Replica[i]];
    }

    method Truncate(keep: nat)
      requires Valid() && keep <= |Time|
      modifies `Time, `Data, `Clock, `Replica
      ensures Valid() && View() == old(View()).(rows := old(View()).rows[..keep])
    {
      Time := Time[..keep];
      Data := Data[..keep];
      Clock := Clock[..keep];
      Replica := Replica[..keep];
    }
  }

  method MapBuckets(bs: seq<SampleBucket>) returns (buckets: map<u64, SampleBucket>)
    ensures buckets == BucketMap(bs)
  {
    buckets := map[];
    for i := 0 to |bs|
      invariant buckets == BucketMap(bs[..i])
    {
      buckets := buckets[bs[i].time := bs[i]];
      assert bs[..i + 1][..i] == bs[..i];
    }
    assert bs[..|bs|] == bs;
  }

  lemma NothingYet(F: Floats, m: map<u64, SampleBucket>, rows: seq<Row>, cutoff: u64, span: u64)
    ensures Young(rows[..0], cutoff) == []
    ensures GroupPoints(F, m, Old(rows[..0], cutoff), span) == m
  {
  }

  lemma GroupSnoc(F: Floats, m: map<u64, SampleBucket>, rows: seq<Row>, r: Row, span: u64)
    ensures var g := GroupPoints(F, m, rows, span);
            var k := BucketOf(r.time, span);
            GroupPoints(F, m, rows + [r], span) == g[k := AddPoint(F, if k in g then g[k] else EmptyBucket(k), r.value)]
  {
    assert (rows + [r])[..|rows|] == rows;
  }

  method MergeSampleBuckets(F: Floats, a: seq<SampleBucket>, b: seq<SampleBucket>) returns (out: seq<SampleBucket>)
    ensures out == MergeBuckets(F, a, b)
  {
    var buckets := MapBuckets(a);
    for i := 0 to |b|
      invariant buckets == ApplyBuckets(F, BucketMap(a), b[..i])
    {
      var x := b[i];
      if x.time in buckets {
        buckets := buckets[x.time := Combine(F, buckets[x.time], x)];
      } else {
        buckets := buckets[x.time := x];
      }
      assert b[..i + 1][..i] == b[..i];
    }
    assert b[..|b|] == b;
    out := InOrder(buckets);
  }

  // ----- Normal states -----

  lemma {:induction false} ApplyKeyed(rows: seq<Row>, delta: seq<Row>)
    ensures Keyed(Apply(Load(rows), delta), RowTime)
  {
    ByTimeKeyed(rows, RowTime);
    ApplyKeeps(Load(rows), delta);
  }

  lemma {:induction false} ApplyKeeps(points: map<u64, Row>, delta: seq<Row>)
    requires Keyed(points, RowTime)
    ensures Keyed(Apply(points, delta), RowTime)
  {
    if delta != [] {
      ApplyKeeps(points, delta[..|delta| - 1]);
    }
  }

  lemma {:induction false} ApplyBucketsKeyed(F: Floats, m: map<u64, SampleBucket>, bs: seq<SampleBucket>)
    requires Keyed(m, BucketTime)
    ensures Keyed(ApplyBuckets(F, m, bs), BucketTime)
  {
    if bs != [] {
      ApplyBucketsKeyed(F, m, bs[..|bs| - 1]);
    }
  }

  lemma {:induction false} GroupKeyed(F: Floats, m: map<u64, SampleBucket>, rows: seq<Row>, span: u64)
    requires Keyed(m, BucketTime)
    ensures Keyed(GroupPoints(F, m, rows, span), BucketTime)
  {
    if rows != [] {
      GroupKeyed(F, m, rows[..|rows| - 1], span);
    }
  }

  /** Distinct times in order, for rows and for buckets: what merging and compacting leave behind. */
  predicate Normal(d: Samples) {
    IncreasingBy(d.rows, RowTime) && IncreasingBy(d.buckets, BucketTime)
  }

  lemma MergeNormal(F: Floats, d: Samples, delta: Samples)
    ensures Normal(Merged(F, d, delta))
  {
    ApplyKeyed(d.rows, delta.rows);
    InOrderIncreasing(Apply(Load(d.rows), delta.rows), RowTime);
    ByTimeKeyed(d.buckets, BucketTime);
    ApplyBucketsKeyed(F, BucketMap(d.buckets), delta.buckets);
    InOrderIncreasing(ApplyBuckets(F, BucketMap(d.buckets), delta.buckets), BucketTime);
  }

  lemma CompactNormal(F: Floats, d: Samples, cutoff: u64, span: u64)
    requires Normal(d)
    ensures Normal(Compacted(F, d, cutoff, span))
  {
    if d.rows != [] {
      var m := GroupPoints(F, BucketMap(d.buckets), Old(d.rows, cutoff), span);
      ByTimeKeyed(d.buckets, BucketTime);
      GroupKeyed(F, BucketMap(d.buckets), Old(d.rows, cutoff), span);
      InOrderIncreasing(m, BucketTime);
      YoungIncreasing(d.rows, cutoff);
    }
  }

  lemma YoungIncreasing(rows: seq<Row>, cutoff: u64)
    requires IncreasingBy(rows, RowTime)
    ensures IncreasingBy(Young(rows, cutoff), RowTime)
  {
    hide Old, Young;
    InTimeOrder(rows);
    OldThenYoung(rows, cutoff);
    var o, y := Old(rows, cutoff), Young(rows, cutoff);
    forall i, j | 0 <= i < j < |y|
      ensures RowTime(y[i]) < RowTime(y[j])
    {
      assert rows[|o| + i] == y[i] && rows[|o| + j] == y[j];
      assert RowTime(rows[|o| + i]) < RowTime(rows[|o| + j]);
    }
  }

  lemma InTimeOrder(rows: seq<Row>)
    requires IncreasingBy(rows, RowTime)
    ensures Nondecreasing(rows)
  {
    forall i, j | 0 <= i < j < |rows|
      ensures rows[i].time <= rows[j].time
    {
      assert RowTime(rows[i]) < RowTime(rows[j]);
    }
  }

  // ----- The merge is a join -----

  /** The newer of two points; the first when neither is. */
  function NewerOf(a: Row, b: Row): Row { if Newer(b, a) then b else a }

  function Join(a: map<u64, Row>, b: map<u64, Row>): map<u64, Row> {
    map t | t in a.Keys + b.Keys ::
      if t !in b then a[t] else if t !in a then b[t] else NewerOf(a[t], b[t])
  }

  /** Every write at a time loses to, or is, the point kept there, and the point kept is one of them. */
  lemma {:induction false} ApplyKeepsNewest(points: map<u64, Row>, rows: seq<Row>, t: u64)
    ensures t in Apply(points, rows) <==> t in points || exists r :: r in rows && r.time == t
    ensures t in Apply(points, rows) ==>
              var kept := Apply(points, rows)[t];
              && ((t in points && kept == points[t]) || (kept in rows && kept.time == t))
              && (t in points ==> points[t].clock < kept.clock
                                  || (points[t].clock == kept.clock && points[t].replica <= kept.replica))
              && (forall r :: r in rows && r.time == t ==>
                                r.clock < kept.clock || (r.clock == kept.clock && r.replica <= kept.replica))
  {
    if rows != [] {
      var n := |rows| - 1;
      ApplyKeepsNewest(points, rows[..n], t);
      assert rows == rows[..n] + [rows[n]];
    }
  }

  /** Applying writes to a state is joining it with what they make of an empty one. */
  lemma {:induction false} ApplyIsJoin(points: map<u64, Row>, rows: seq<Row>)
    ensures Apply(points, rows) == Join(points, Apply(map[], rows))
  {
    if rows == [] {
      assert Join(points, map[]) == points;
    } else {
      var n := |rows| - 1;
      ApplyIsJoin(points, rows[..n]);
      var one := Apply(map[], rows[..n]);
      var l, r := Put(Join(points, one), rows[n]), Join(points, Put(one, rows[n]));
      assert l.Keys == r.Keys;
      forall t | t in l
        ensures l[t] == r[t]
      {
      }
    }
  }

  lemma {:induction false} ApplyConcat(points: map<u64, Row>, a: seq<Row>, b: seq<Row>)
    ensures Apply(points, a + b) == Apply(Apply(points, a), b)
  {
    if b == [] {
      assert a + b == a;
    } else {
      assert (a + b)[..|a| + |b| - 1] == a + b[..|b| - 1];
      ApplyConcat(points, a, b[..|b| - 1]);
    }
  }

  lemma JoinAssociative(a: map<u64, Row>, b: map<u64, Row>, c: map<u64, Row>)
    ensures Join(Join(a, b), c) == Join(a, Join(b, c))
  {
    var l, r := Join(Join(a, b), c), Join(a, Join(b, c));
    assert l.Keys == r.Keys;
    forall t | t in l
      ensures l[t] == r[t]
    {
    }
  }

  lemma JoinIdempotent(a: map<u64, Row>)
    ensures Join(a, a) == a
  {
  }

  /** The join commutes exactly when a (clock, replica) tag determines the point written at a time. */
  lemma JoinCommutes(a: map<u64, Row>, b: map<u64, Row>)
    requires Keyed(a, RowTime) && Keyed(b, RowTime)
    ensures Join(a, b) == Join(b, a) <==>
            forall t :: t in a && t in b && a[t].clock == b[t].clock && a[t].replica == b[t].replica ==> a[t] == b[t]
  {
    var l, r := Join(a, b), Join(b, a);
    assert l.Keys == r.Keys;
    assert forall t :: t in a && t in b ==> (NewerOf(a[t], b[t]) == NewerOf(b[t], a[t]) <==>
      (a[t].clock == b[t].clock && a[t].replica == b[t].replica ==> a[t] == b[t]));
    assert l == r <==> forall t :: t in l ==> l[t] == r[t];
    assert forall t :: t in l && !(t in a && t in b) ==> l[t] == r[t];
    assert forall t :: t in a && t in b ==> l[t] == NewerOf(a[t], b[t]) && r[t] == NewerOf(b[t], a[t]);
  }

  /** Merging normal states joins their points. */
  lemma MergeIsJoin(F: Floats, d: Samples, delta: Samples)
    requires Normal(delta)
    ensures Load(Merged(F, d, delta).rows) == Join(Load(d.rows), Load(delta.rows))
  {
    ApplyKeyed(d.rows, delta.rows);
    ByTimeOfInOrder(Apply(Load(d.rows), delta.rows), RowTime);
    ApplyIsJoin(Load(d.rows), delta.rows);
    ApplyIncreasing(delta.rows);
  }

  lemma {:induction false} ApplyIncreasing(rows: seq<Row>)
    requires IncreasingBy(rows, RowTime)
    ensures Apply(map[], rows) == Load(rows)
  {
    if rows != [] {
      var n := |rows| - 1;
      ApplyIncreasing(rows[..n]);
      ByTimeKeyed(rows[..n], RowTime);
      forall t | t in Load(rows[..n])
        ensures t < rows[n].time
      {
        var r := Load(rows[..n])[t];
        var i :| 0 <= i < n && rows[..n][i] == r;
        assert RowTime(rows[i]) < RowTime(rows[n]);
      }
    }
  }

  /** Merging writes in two batches, or one at a time, ends where merging them at once does. */
  lemma MergeBatches(F: Floats, d: Samples, a: seq<Row>, b: seq<Row>)
    ensures Merged(F, Merged(F, d, Samples(a, [])), Samples(b, [])) == Merged(F, d, Samples(a + b, []))
  {
    ApplyKeyed(d.rows, a);
    ByTimeOfInOrder(Apply(Load(d.rows), a), RowTime);
    ApplyConcat(Load(d.rows), a, b);
    ByTimeKeyed(d.buckets, BucketTime);
    ByTimeOfInOrder(BucketMap(d.buckets), BucketTime);
  }

  // ----- Compacting in steps -----

  /** Compacting up to one cutoff and then to a later one is compacting up to the later one, for any
      float addition: the points are added to their buckets in the same order. */
  lemma CompactTwice(F: Floats, d: Samples, c1: u64, c2: u64, span: u64)
    requires Normal(d) && c1 <= c2
    ensures Compacted(F, Compacted(F, d, c1, span), c2, span) == Compacted(F, d, c2, span)
  {
    if d.rows != [] {
      var m := BucketMap(d.buckets);
      var m1 := GroupPoints(F, m, Old(d.rows, c1), span);
      ByTimeKeyed(d.buckets, BucketTime);
      GroupKeyed(F, m, Old(d.rows, c1), span);
      ByTimeOfInOrder(m1, BucketTime);
      InTimeOrder(d.rows);
      CutTwice(d.rows, c1, c2);
      GroupTwice(m, d.rows, c1, c2, span, EmptyBucket, (b: SampleBucket, v: u64) => AddPoint(F, b, v));
    }
  }

  lemma CompactIdempotent(F: Floats, d: Samples, cutoff: u64, span: u64)
    requires Normal(d)
    ensures Compacted(F, Compacted(F, d, cutoff, span), cutoff, span) == Compacted(F, d, cutoff, span)
  {
    CompactTwice(F, d, cutoff, cutoff, span);
  }

  /** Buckets come before raw points, and bucket times are multiples of the span. */
  ghost predicate Layered(d: Samples, cutoff: u64, span: u64) {
    && Normal(d)
    && (forall r :: r in d.rows ==> r.time >= cutoff)
    && (forall b :: b in d.buckets ==> b.time < cutoff && BucketOf(b.time, span) == b.time)
  }

  lemma {:induction false} GroupTimes(F: Floats, m: map<u64, SampleBucket>, rows: seq<Row>, span: u64, cutoff: u64)
    requires forall t :: t in m ==> t < cutoff && BucketOf(t, span) == t
    requires forall r :: r in rows ==> r.time < cutoff
    ensures forall t :: t in GroupPoints(F, m, rows, span) ==> t < cutoff && BucketOf(t, span) == t
  {
    if rows != [] {
      hide GroupPoints, BucketOf;
      var n := |rows| - 1;
      assert rows == rows[..n] + [rows[n]];
      GroupTimes(F, m, rows[..n], span, cutoff);
      GroupSnoc(F, m, rows[..n], rows[n], span);
      BucketIdempotent(rows[n].time, span);
    } else {
      assert GroupPoints(F, m, rows, span) == m;
    }
  }

  lemma BucketIdempotent(t: u64, span: u64)
    ensures BucketOf(BucketOf(t, span), span) == BucketOf(t, span)
  {
    var b := BucketOf(t, span);
    if span > 0 {
      BucketBounds(b, span);
    }
  }

  /** Compacting a layered state at a later cutoff keeps it layered: over any run of compactions with
      nondecreasing cutoffs and one span every bucket time stays before every raw time. */
  lemma CompactLayered(F: Floats, d: Samples, before: u64, cutoff: u64, span: u64)
    requires Layered(d, before, span) && before <= cutoff
    ensures Layered(Compacted(F, d, cutoff, span), cutoff, span)
  {
    CompactNormal(F, d, cutoff, span);
    OldYoungElements(d.rows, cutoff);
    var m := BucketMap(d.buckets);
    ByTimeKeyed(d.buckets, BucketTime);
    GroupTimes(F, m, Old(d.rows, cutoff), span, cutoff);
    var g := GroupPoints(F, m, Old(d.rows, cutoff), span);
    GroupKeyed(F, m, Old(d.rows, cutoff), span);
    InOrderIncreasing(g, BucketTime);
  }
}
