/** Sketch series: tagged observations, the larger bit pattern kept per tag, and encoded buckets. */
module SketchState {
  import opened Words
  import opened FloatModel
  import opened Sorted
  import S = Sketches
  import C = SketchCodec
  import B = SketchBytes
  import opened SketchValues
  import opened Rows

  datatype SketchBucket = SketchBucket(time: u64, data: bytes)

  datatype Series = Series(rows: seq<Row>, buckets: seq<SketchBucket>)

  function BucketTime(b: SketchBucket): u64 { b.time }

  /** A write of one replica at one clock to one time. */
  datatype Tag = Tag(time: u64, clock: u64, replica: u64)

  function TagOf(r: Row): Tag { Tag(r.time, r.clock, r.replica) }

  /** Of two patterns written under one tag the larger stays. */
  function PutOp(ops: map<Tag, u64>, r: Row): map<Tag, u64> {
    if TagOf(r) !in ops || r.value > ops[TagOf(r)] then ops[TagOf(r) := r.value] else ops
  }

  function Ops(ops: map<Tag, u64>, rows: seq<Row>): map<Tag, u64> {
    if rows == [] then ops else PutOp(Ops(ops, rows[..|rows| - 1]), rows[|rows| - 1])
  }

  predicate DistinctTags(rows: seq<Row>) {
    forall i, j :: 0 <= i < j < |rows| ==> TagOf(rows[i]) != TagOf(rows[j])
  }

  // ----- Buckets -----

  ghost function At(m: map<u64, S.Summary>, t: u64): S.Summary { if t in m then m[t] else S.NEW }

  /** Merges encoded buckets into the sketches at their times, in order. */
  ghost function MergeItems(F: Floats, m: map<u64, S.Summary>, items: seq<SketchBucket>): map<u64, S.Summary> {
    if items == [] then m else
    var before := MergeItems(F, m, items[..|items| - 1]);
    var x := items[|items| - 1];
    before[x.time := B.MergeBytes(F, At(before, x.time), x.data)]
  }

  /** Every sketch can be encoded: its counts stay below 2^64 and its keys are int64. */
  ghost predicate Encodable(F: Floats, m: map<u64, S.Summary>) {
    forall t :: t in m ==> C.Storable(S.Approximate(F, m[t]))
  }

  ghost function ToBuckets(F: Floats, m: map<u64, S.Summary>): (bs: seq<SketchBucket>)
    requires Encodable(F, m)
    ensures |bs| == |m|
  {
    var q := SortedTimes(m);
    seq(|q|, i requires 0 <= i < |q| =>
      assert q[i] in q; SketchBucket(q[i], C.ApproxBytes(S.Approximate(F, m[q[i]]))))
  }

  ghost function MergedMap(F: Floats, a: seq<SketchBucket>, b: seq<SketchBucket>): map<u64, S.Summary> {
    MergeItems(F, MergeItems(F, map[], a), b)
  }

  /** What a merge may yield, up to the order of observations with the same time. */
  ghost predicate MergedInto(F: Floats, d: Series, delta: Series, out: Series) {
    && Encodable(F, MergedMap(F, d.buckets, delta.buckets))
    && Nondecreasing(out.rows) && DistinctTags(out.rows)
    && Ops(map[], out.rows) == Ops(Ops(map[], d.rows), delta.rows)
    && out.buckets == ToBuckets(F, MergedMap(F, d.buckets, delta.buckets))
  }

  // ----- Compaction -----

  /** Each stored bucket decoded into an empty sketch; a later bucket replaces an earlier one. */
  ghost function DecodeItems(F: Floats, items: seq<SketchBucket>): map<u64, S.Summary> {
    if items == [] then map[] else
    var x := items[|items| - 1];
    DecodeItems(F, items[..|items| - 1])[x.time := B.MergeBytes(F, S.NEW, x.data)]
  }

  ghost function GroupRows(F: Floats, m: map<u64, S.Summary>, rows: seq<Row>, span: u64): map<u64, S.Summary> {
    if rows == [] then m else
    var before := GroupRows(F, m, rows[..|rows| - 1], span);
    var r := rows[|rows| - 1];
    var k := BucketOf(r.time, span);
    before[k := S.AddApprox(F, At(before, k), r.value)]
  }

  ghost function CompactedMap(F: Floats, d: Series, cutoff: u64, span: u64): map<u64, S.Summary> {
    GroupRows(F, DecodeItems(F, d.buckets), Old(d.rows, cutoff), span)
  }

  ghost function Compacted(F: Floats, d: Series, cutoff: u64, span: u64): Series
    requires Encodable(F, CompactedMap(F, d, cutoff, span))
  {
    if d.rows == [] then d else
    Series(Young(d.rows, cutoff), ToBuckets(F, CompactedMap(F, d, cutoff, span)))
  }

  // ----- In place -----

  /** The tags and patterns of rows, by time. */
  ghost predicate Collected(ops: map<u64, map<Tag, u64>>, all: map<Tag, u64>) {
    && (forall t :: t in ops ==> forall g :: g in ops[t] ==> g.time == t)
    && (forall g :: g in all <==> g.time in ops && g in ops[g.time])
    && (forall g :: g in all ==> ops[g.time][g] == all[g])
  }

  lemma CollectStep(ops: map<u64, map<Tag, u64>>, all: map<Tag, u64>, r: Row)
    requires Collected(ops, all)
    ensures Collected(ops[r.time := PutOp(if r.time in ops then ops[r.time] else map[], r)], PutOp(all, r))
  {
    var here := if r.time in ops then ops[r.time] else map[];
    var ops', all' := ops[r.time := PutOp(here, r)], PutOp(all, r);
    forall g
      ensures g in all' <==> g.time in ops' && g in ops'[g.time]
      ensures g in all' ==> ops'[g.time][g] == all'[g]
    {
      if g.time == r.time {
        assert g in all <==> g in here;
      }
    }
  }

  lemma NothingCollected()
    ensures Collected(map[], map[])
  {
  }

  /** Adds rows to the patterns kept per time and tag. */
  method Collect(ops: map<u64, map<Tag, u64>>, ghost all: map<Tag, u64>, rows: seq<Row>)
    returns (out: map<u64, map<Tag, u64>>, ghost total: map<Tag, u64>)
    requires Collected(ops, all)
    ensures total == Ops(all, rows) && Collected(out, total)
  {
    hide Collected, PutOp;
    out, total := ops, all;
    for i := 0 to |rows|
      invariant total == Ops(all, rows[..i]) && Collected(out, total)
    {
      var r := rows[i];
      CollectStep(out, total, r);
      out := out[r.time := PutOp(if r.time in out then out[r.time] else map[], r)];
      total := PutOp(total, r);
      assert rows[..i + 1][..i] == rows[..i];
    }
    assert rows[..|rows|] == rows;
  }

  lemma InhabitedTags(s: set<Tag>)
    ensures s == {} || exists g :: g in s
  {
    if forall g :: g !in s {
      assert s == {};
    }
  }

  /** The rows hold each tag of `all` once, with its pattern, and nothing else. */
  ghost predicate Lists(rows: seq<Row>, all: map<Tag, u64>) {
    && DistinctTags(rows)
    && (forall r :: r in rows ==> TagOf(r) in all && all[TagOf(r)] == r.value)
    && (forall g :: g in all ==> Row(g.time, all[g], g.clock, g.replica) in rows)
  }

  lemma {:induction false} ListsOps(rows: seq<Row>, all: map<Tag, u64>)
    requires Lists(rows, all)
    ensures Ops(map[], rows) == all && DistinctTags(rows)
  {
    OpsOfDistinct(rows);
    var ops := Ops(map[], rows);
    forall g
      ensures g in ops <==> g in all
      ensures g in all ==> ops[g] == all[g]
    {
      if g in all {
        assert TagOf(Row(g.time, all[g], g.clock, g.replica)) == g;
      }
    }
    assert ops == all;
  }

  lemma {:induction false} OpsOfDistinct(rows: seq<Row>)
    requires DistinctTags(rows)
    ensures forall r :: r in rows ==> TagOf(r) in Ops(map[], rows) && Ops(map[], rows)[TagOf(r)] == r.value
    ensures forall g :: g in Ops(map[], rows) ==> exists r :: r in rows && TagOf(r) == g
  {
    if rows != [] {
      var n := |rows| - 1;
      OpsOfDistinct(rows[..n]);
      assert rows == rows[..n] + [rows[n]];
      forall r | r in rows[..n]
        ensures TagOf(r) != TagOf(rows[n])
      {
        var i :| 0 <= i < n && rows[i] == r;
      }
    }
  }

  class SketchData {
    var Time: seq<u64>
    var Data: seq<u64>
    var Clock: seq<u64>
    var Replica: seq<u64>
    var Buckets: seq<SketchBucket>

    predicate Valid()
      reads this
    {
      |Time| == |Data| == |Clock| == |Replica|
    }

    ghost function View(): Series
      reads this
      requires Valid()
    {
      Series(Zip(Time, Data, Clock, Replica), Buckets)
    }

    constructor ()
      ensures Valid() && View() == Series([], [])
    {
      Time, Data, Clock, Replica, Buckets := [], [], [], [], [];
    }

    constructor Of(p: Series)
      ensures Valid() && View() == p
    {
      Time, Data, Clock, Replica, Buckets := Times(p.rows), Values(p.rows), Clocks(p.rows), Replicas(p.rows), p.buckets;
      new;
      ZipColumns(p.rows);
    }

    method Add(t: u64, value: u64, clock: u64, replica: u64)
      requires Valid()
      modifies `Time, `Data, `Clock, `Replica
      ensures Valid()
      ensures View() == old(View()).(rows := old(View()).rows + [Row(t, value, clock, replica)])
    {
      Time := Time + [t];
      Data := Data + [value];
      Clock := Clock + [clock];
      Replica := Replica + [replica];
    }

    method Reset()
      modifies this
      ensures Valid() && View() == Series([], [])
    {
      Time, Data, Clock, Replica, Buckets := [], [], [], [], [];
    }

    method Merge(F: Floats, delta: Series)
      requires Valid()
      requires Encodable(F, MergedMap(F, Buckets, delta.buckets))
      modifies this
      ensures Valid()
      ensures MergedInto(F, old(View()), delta, View())
    {
      hide Ops, Collected, Lists, MergedMap, ToBuckets, Encodable;
      ghost var all;
      var ops: map<u64, map<Tag, u64>> := map[];
      NothingCollected();
      ops, all := Collect(ops, map[], Zip(Time, Data, Clock, Replica));
      ops, all := Collect(ops, all, delta.rows);
      Rewrite(ops, all);
      ListsOps(View().rows, all);
      Buckets := MergeSketchBuckets(F, Buckets, delta.buckets);
    }

    /** Rewrites the columns from the tagged patterns, time by time. */
    method Rewrite(ops: map<u64, map<Tag, u64>>, ghost all: map<Tag, u64>)
      requires Collected(ops, all)
      modifies `Time, `Data, `Clock, `Replica
      ensures Valid()
      ensures Nondecreasing(View().rows) && Lists(View().rows, all)
    {
      var times := SortedTimes(ops);
      hide PutOp, Lists, Zip, Collected, SortedTimes, UpTo, Nondecreasing;
      Time, Data, Clock, Replica := [], [], [], [];
      ghost var done: map<Tag, u64> := map[];
      NothingListed(View().rows);
      UpToStart(ops, all, times);
      for i := 0 to |times|
        invariant Valid()
        invariant Nondecreasing(View().rows) && Lists(View().rows, done)
        invariant UpTo(all, done, times, i)
      {
        UpToStep(ops, all, done, times, i);
        AddAll(times[i], ops[times[i]], done);
        done := done + ops[times[i]];
      }
      UpToEnd(all, done, times);
    }

    /** Appends all observations of one time, in no particular order. */
    method AddAll(t: u64, ops: map<Tag, u64>, ghost done: map<Tag, u64>)
      requires Valid() && Nondecreasing(View().rows) && Lists(View().rows, done)
      requires forall g :: g in done ==> g.time < t
      requires forall g :: g in ops ==> g.time == t
      modifies `Time, `Data, `Clock, `Replica
      ensures Valid() && Nondecreasing(View().rows) && Lists(View().rows, done + ops)
    {
      AddStart(View().rows, done, ops, t);
      hide Zip, Lists, Nondecreasing, Adding;
      var left := ops.Keys;
      while left != {}
        invariant Valid() && left <= ops.Keys
        invariant Adding(View().rows, done, ops, left, t)
        decreases |left|
      {
        InhabitedTags(left);
        var op :| op in left;
        AddStep(View().rows, done, ops, left, op, t);
        Add(t, ops[op], op.clock, op.replica);
        left := left - {op};
      }
      AddEnd(View().rows, done, ops, t);
    }

    method Compact(F: Floats, cutoff: u64, span: u64)
      requires Valid()
      requires Encodable(F, CompactedMap(F, View(), cutoff, span))
      modifies this
      ensures Valid()
      ensures View() == Compacted(F, old(View()), cutoff, span)
    {
      hide Old, Young, GroupRows, DecodeItems, ToBuckets, Encodable, S.AddApprox, Views, BucketOf;
      if |Time| == 0 {
        assert View().rows == [];
        return;
      }
      ghost var start := View();
      var buckets := DecodeBuckets(F, Buckets);
      ghost var base := DecodeItems(F, Buckets);
      ghost var m := base;
      var keep := 0;
      NothingYet(F, base, start.rows, cutoff, span);
      for i := 0 to |Time|
        invariant Valid() && |Time| == |start.rows| && Buckets == start.buckets
        invariant keep <= i
        invariant View().rows[..keep] == Young(start.rows[..i], cutoff)
        invariant View().rows[i..] == start.rows[i..]
        invariant m == GroupRows(F, base, Old(start.rows[..i], cutoff), span)
        invariant fresh(Objects(buckets))
        invariant Views(buckets, m)
      {
        OldYoungSnoc(start.rows, i, cutoff);
        assert View().rows[i..][0] == start.rows[i];
        if Time[i] >= cutoff {
          KeepRow(keep, i);
          keep := keep + 1;
        } else {
          var bt := BucketOf(Time[i], span);
          buckets := AddOld(F, buckets, m, bt, Data[i]);
          m := m[bt := S.AddApprox(F, At(m, bt), Data[i])];
          GroupSnoc(F, base, Old(start.rows[..i], cutoff), start.rows[i], span);
          assert View().rows[i..][1..] == start.rows[i..][1..];
        }
      }
      assert start.rows[..|Time|] == start.rows;
      Truncate(keep);
      Buckets := EncodeBuckets(F, buckets, m);
    }

    /** Moves the i-th row down to position `keep`. */
    method KeepRow(keep: nat, i: nat)
      requires Valid() && keep <= i < |Time|
      modifies `Time, `Data, `Clock, `Replica
      ensures Valid() && |Time| == |old(Time)|
      ensures View().rows[..keep + 1] == old(View()).rows[..keep] + [old(View()).rows[i]]
      ensures View().rows[i + 1..] == old(View()).rows[i..][1..]
    {
      Time := Time[keep := Time[i]];
      Data := Data[keep := Data[i]];
      Clock := Clock[keep := Clock[i]];
      Replica := Replica[keep := Replica[i]];
    }

    method Truncate(keep: nat)
      requires Valid() && keep <= |Time|
      modifies `Time, `Data, `Clock, `Replica
      ensures Valid() && View() == old(View()).(rows := old(View()).rows[..keep])
    {
      Time := Time[..keep];
      Data := Data[..keep];
      Clock := Clock[..keep];
      Replica := Replica[..keep];
    }
  }

  /** The rows list what was there and the observations that are not left. */
  ghost predicate Adding(rows: seq<Row>, done: map<Tag, u64>, ops: map<Tag, u64>, left: set<Tag>, t: u64) {
    && Nondecreasing(rows) && Lists(rows, done + (ops - left))
    && (forall r :: r in rows ==> r.time <= t)
    && (forall g :: g in done ==> g.time < t) && (forall g :: g in ops ==> g.time == t)
  }

  lemma AddStart(rows: seq<Row>, done: map<Tag, u64>, ops: map<Tag, u64>, t: u64)
    requires Nondecreasing(rows) && Lists(rows, done)
    requires (forall g :: g in done ==> g.time < t) && (forall g :: g in ops ==> g.time == t)
    ensures Adding(rows, done, ops, ops.Keys, t)
  {
    assert done + (ops - ops.Keys) == done;
    forall r | r in rows ensures r.time <= t { assert TagOf(r) in done; }
    hide Lists, Nondecreasing;
  }

  lemma AddStep(rows: seq<Row>, done: map<Tag, u64>, ops: map<Tag, u64>, left: set<Tag>, op: Tag, t: u64)
    requires Adding(rows, done, ops, left, t) && op in left && left <= ops.Keys
    ensures Adding(rows + [Row(t, ops[op], op.clock, op.replica)], done, ops, left - {op}, t)
  {
    hide Lists, Nondecreasing;
    NextNow(done, ops, left, op);
    Appended(rows, done + (ops - left), Row(t, ops[op], op.clock, op.replica));
  }

  lemma AddEnd(rows: seq<Row>, done: map<Tag, u64>, ops: map<Tag, u64>, t: u64)
    requires Adding(rows, done, ops, {}, t)
    ensures Nondecreasing(rows) && Lists(rows, done + ops)
  {
    hide Lists, Nondecreasing;
    assert ops - {} == ops;
  }

  lemma NothingListed(rows: seq<Row>)
    requires |rows| == 0
    ensures Nondecreasing(rows) && Lists(rows, map[])
  {
  }

  /** `done` holds the tags of `all` with times before the i-th. */
  ghost predicate UpTo(all: map<Tag, u64>, done: map<Tag, u64>, times: seq<u64>, i: nat) {
    && i <= |times|
    && (forall g :: g in done <==> g in all && (i < |times| ==> g.time < times[i]))
    && (forall g :: g in done ==> done[g] == all[g])
  }

  lemma UpToStart(ops: map<u64, map<Tag, u64>>, all: map<Tag, u64>, times: seq<u64>)
    requires Collected(ops, all) && Increasing(times)
    requires forall t :: t in times <==> t in ops
    ensures UpTo(all, map[], times, 0)
  {
    forall g | g in all
      ensures |times| > 0 && times[0] <= g.time
    {
      assert g.time in times;
      var j :| 0 <= j < |times| && times[j] == g.time;
    }
  }

  lemma UpToStep(ops: map<u64, map<Tag, u64>>, all: map<Tag, u64>, done: map<Tag, u64>, times: seq<u64>, i: nat)
    requires Collected(ops, all) && i < |times| && Increasing(times) && UpTo(all, done, times, i)
    requires forall t :: t in times <==> t in ops
    ensures times[i] in ops && UpTo(all, done + ops[times[i]], times, i + 1)
    ensures (forall g :: g in done ==> g.time < times[i]) && forall g :: g in ops[times[i]] ==> g.time == times[i]
  {
    assert times[i] in times;
    var here := ops[times[i]];
    forall g | g in all
      ensures (i + 1 < |times| ==> g.time < times[i + 1]) <==> g.time < times[i] || g in here
      ensures g in here ==> here[g] == all[g]
    {
      assert g.time in times;
      var j :| 0 <= j < |times| && times[j] == g.time;
    }
  }

  lemma UpToEnd(all: map<Tag, u64>, done: map<Tag, u64>, times: seq<u64>)
    requires UpTo(all, done, times, |times|)
    ensures done == all
  {
  }

  lemma NextNow(done: map<Tag, u64>, ops: map<Tag, u64>, left: set<Tag>, op: Tag)
    requires op in left && left <= ops.Keys && op !in done
    ensures op !in done + (ops - left)
    ensures (done + (ops - left))[op := ops[op]] == done + (ops - (left - {op}))
  {
  }

  lemma Appended(rows: seq<Row>, all: map<Tag, u64>, r: Row)
    requires Nondecreasing(rows) && Lists(rows, all) && TagOf(r) !in all
    requires forall x :: x in rows ==> x.time <= r.time
    ensures Nondecreasing(rows + [r]) && Lists(rows + [r], all[TagOf(r) := r.value])
    ensures forall x :: x in rows + [r] ==> x.time <= r.time
  {
    assert forall x :: x in rows + [r] <==> x in rows || x == r;
  }

  // ----- Buckets as objects -----

  ghost function Objects(buckets: map<u64, SketchValue>): set<SketchValue> {
    set t | t in buckets :: buckets[t]
  }

  /** The sketch objects hold the summaries of `m`, and no two times share one. */
  ghost predicate Views(buckets: map<u64, SketchValue>, m: map<u64, S.Summary>)
    reads Objects(buckets)
  {
    && buckets.Keys == m.Keys
    && (forall t :: t in buckets ==> buckets[t].View() == m[t])
    && (forall s, t :: s in buckets && t in buckets && s != t ==> buckets[s] != buckets[t])
  }

  /** The buckets with a sketch for time `t`, a new one if there was none. */
  method Present(buckets: map<u64, SketchValue>, ghost m: map<u64, S.Summary>, t: u64)
    returns (out: map<u64, SketchValue>)
    requires Views(buckets, m)
    ensures t in out && Views(out, m[t := At(m, t)])
    ensures fresh(Objects(out) - Objects(buckets))
  {
    out := buckets;
    if t !in buckets {
      var v := new SketchValue();
      out := out[t := v];
    }
  }

  /** Adds an old observation to the sketch of its bucket. */
  method AddOld(F: Floats, buckets: map<u64, SketchValue>, ghost m: map<u64, S.Summary>, bt: u64, value: u64)
    returns (out: map<u64, SketchValue>)
    requires Views(buckets, m)
    modifies Objects(buckets)
    ensures Views(out, m[bt := S.AddApprox(F, At(m, bt), value)])
    ensures fresh(Objects(out) - Objects(buckets))
  {
    hide S.AddApprox;
    out := Present(buckets, m, bt);
    out[bt].AddApprox(F, value);
  }

  /** Merges one encoded bucket into the sketch at its time; an error leaves the sketch as it was. */
  method MergeOne(F: Floats, buckets: map<u64, SketchValue>, ghost m: map<u64, S.Summary>, x: SketchBucket)
    returns (out: map<u64, SketchValue>)
    requires Views(buckets, m)
    modifies Objects(buckets)
    ensures Views(out, m[x.time := B.MergeBytes(F, At(m, x.time), x.data)])
    ensures fresh(Objects(out) - Objects(buckets))
  {
    hide B.MergeBytes;
    out := Present(buckets, m, x.time);
    var _ := out[x.time].MergeBytes(F, x.data);
  }

  method MergeInto(F: Floats, buckets: map<u64, SketchValue>, ghost m: map<u64, S.Summary>, items: seq<SketchBucket>)
    returns (out: map<u64, SketchValue>)
    requires Views(buckets, m)
    modifies Objects(buckets)
    ensures Views(out, MergeItems(F, m, items))
    ensures fresh(Objects(out) - Objects(buckets))
  {
    assert MergeItems(F, m, items[..0]) == m;
    hide B.MergeBytes, MergeItems, Views, At;
    out := buckets;
    for i := 0 to |items|
      invariant Views(out, MergeItems(F, m, items[..i]))
      invariant fresh(Objects(out) - Objects(buckets))
    {
      MergeItemsSnoc(F, m, items[..i], items[i]);
      assert items[..i + 1] == items[..i] + [items[i]];
      out := MergeOne(F, out, MergeItems(F, m, items[..i]), items[i]);
    }
    assert items[..|items|] == items;
  }

  lemma MergeItemsSnoc(F: Floats, m: map<u64, S.Summary>, items: seq<SketchBucket>, x: SketchBucket)
    ensures var before := MergeItems(F, m, items);
            MergeItems(F, m, items + [x]) == before[x.time := B.MergeBytes(F, At(before, x.time), x.data)]
  {
    assert (items + [x])[..|items|] == items;
  }

  method EncodeBuckets(F: Floats, buckets: map<u64, SketchValue>, ghost m: map<u64, S.Summary>)
    returns (out: seq<SketchBucket>)
    requires Views(buckets, m) && Encodable(F, m)
    modifies Objects(buckets)
    ensures out == ToBuckets(F, m)
  {
    hide S.Approximate, C.ApproxBytes, C.Storable, SortedTimes, ToBuckets, SketchValue.View, ToEncode;
    assert ToEncode(buckets, m, SortedTimes(buckets), 0) by { StartToEncode(buckets, m); }
    var times := SortedTimes(buckets);
    TimesOfViews(buckets, m);
    out := [];
    for i := 0 to |times|
      invariant ToEncode(buckets, m, times, i)
      invariant out == ToBuckets(F, m)[..i]
    {
      var t := times[i];
      ToBucketsIndex(F, m, i);
      var data := EncodeNext(F, buckets, m, times, i);
      out := out + [SketchBucket(t, data)];
    }
  }

  lemma StartToEncode(buckets: map<u64, SketchValue>, m: map<u64, S.Summary>)
    requires Views(buckets, m)
    ensures ToEncode(buckets, m, SortedTimes(buckets), 0)
  {
    hide SketchValue.View, SortedTimes;
    var times := SortedTimes(buckets);
    assert forall j :: 0 <= j < |times| ==> times[j] in times;
  }

  method EncodeNext(F: Floats, buckets: map<u64, SketchValue>, ghost m: map<u64, S.Summary>, times: seq<u64>, i: nat)
    returns (data: bytes)
    requires ToEncode(buckets, m, times, i) && times == SortedTimes(buckets) && i < |times|
    requires times[i] in m && C.Storable(S.Approximate(F, m[times[i]]))
    requires forall s, t :: s in buckets && t in buckets && s != t ==> buckets[s] != buckets[t]
    modifies buckets[times[i]]
    ensures data == C.ApproxBytes(S.Approximate(F, m[times[i]]))
    ensures ToEncode(buckets, m, times, i + 1)
  {
    hide S.Approximate, C.ApproxBytes, C.Storable, SketchValue.View;
    DistinctTimes(buckets, m, times, i);
    data := buckets[times[i]].EncodeApprox(F);
  }

  /** The sketches from the i-th time on have not been touched. */
  ghost predicate ToEncode(buckets: map<u64, SketchValue>, m: map<u64, S.Summary>, times: seq<u64>, i: nat)
    reads Objects(buckets)
  {
    forall j :: i <= j < |times| ==> times[j] in m && times[j] in buckets && buckets[times[j]].View() == m[times[j]]
  }

  lemma DistinctTimes(buckets: map<u64, SketchValue>, m: map<u64, S.Summary>, times: seq<u64>, i: nat)
    requires ToEncode(buckets, m, times, i) && i < |times| && Increasing(times)
    requires forall s, t :: s in buckets && t in buckets && s != t ==> buckets[s] != buckets[t]
    ensures forall j :: i < j < |times| ==> times[j] in m && times[j] in buckets && buckets[times[j]] != buckets[times[i]]
  {
  }

  lemma ToBucketsIndex(F: Floats, m: map<u64, S.Summary>, i: nat)
    requires Encodable(F, m) && i < |m|
    ensures var t := SortedTimes(m)[i];
            t in m && ToBuckets(F, m)[i] == SketchBucket(t, C.ApproxBytes(S.Approximate(F, m[t])))
  {
    assert SortedTimes(m)[i] in SortedTimes(m);
  }

  lemma TimesOfViews(buckets: map<u64, SketchValue>, m: map<u64, S.Summary>)
    requires buckets.Keys == m.Keys
    ensures SortedTimes(buckets) == SortedTimes(m)
  {
    SortedTimesUnique(m, SortedTimes(buckets));
  }

  method MergeSketchBuckets(F: Floats, a: seq<SketchBucket>, b: seq<SketchBucket>) returns (out: seq<SketchBucket>)
    requires Encodable(F, MergedMap(F, a, b))
    ensures out == ToBuckets(F, MergedMap(F, a, b))
  {
    hide MergeItems, ToBuckets, Encodable;
    var buckets: map<u64, SketchValue> := map[];
    buckets := MergeInto(F, buckets, map[], a);
    buckets := MergeInto(F, buckets, MergeItems(F, map[], a), b);
    out := EncodeBuckets(F, buckets, MergedMap(F, a, b));
  }

  /** Decodes one stored bucket into a sketch of its own. */
  method DecodeOne(F: Floats, buckets: map<u64, SketchValue>, ghost m: map<u64, S.Summary>, x: SketchBucket)
    returns (out: map<u64, SketchValue>)
    requires Views(buckets, m)
    ensures Views(out, m[x.time := B.MergeBytes(F, S.NEW, x.data)])
    ensures fresh(Objects(out) - Objects(buckets))
  {
    hide B.MergeBytes;
    var v := new SketchValue();
    var _ := v.MergeBytes(F, x.data);
    out := buckets[x.time := v];
  }

  method DecodeBuckets(F: Floats, items: seq<SketchBucket>) returns (out: map<u64, SketchValue>)
    ensures Views(out, DecodeItems(F, items))
    ensures fresh(Objects(out))
  {
    hide B.MergeBytes;
    out := map[];
    for i := 0 to |items|
      invariant Views(out, DecodeItems(F, items[..i]))
      invariant fresh(Objects(out))
    {
      assert items[..i + 1][..i] == items[..i];
      out := DecodeOne(F, out, DecodeItems(F, items[..i]), items[i]);
    }
    assert items[..|items|] == items;
  }

  lemma GroupSnoc(F: Floats, m: map<u64, S.Summary>, rows: seq<Row>, r: Row, span: u64)
    ensures var g := GroupRows(F, m, rows, span);
            var k := BucketOf(r.time, span);
            GroupRows(F, m, rows + [r], span) == g[k := S.AddApprox(F, At(g, k), r.value)]
  {
    assert (rows + [r])[..|rows|] == rows;
  }

  lemma NothingYet(F: Floats, m: map<u64, S.Summary>, rows: seq<Row>, cutoff: u64, span: u64)
    ensures Young(rows[..0], cutoff) == []
    ensures GroupRows(F, m, Old(rows[..0], cutoff), span) == m
  {
  }
}
