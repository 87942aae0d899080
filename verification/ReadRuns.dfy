/** Over runs, reads answer from what was written: sample buckets hold the aggregates of values, counters sum
    what is stored, and sketches answer for observations. */
module ReadRuns {
  import opened Words
  import opened Varint
  import opened FloatModel
  import opened Reader
  import opened Rows
  import opened Pendings
  import opened Blocks
  import opened Segments
  import opened Marshalling
  import opened Appending
  import opened AppendLaws
  import opened FastPaths
  import opened Interleavings
  import opened Database
  import opened LatestWrites
  import opened Answers
  import opened Provenance
  import opened SampleAnswers
  import P = SampleState
  import N = CounterState
  import K = SketchState
  import R = SampleReaders
  import Y = SampleMemory
  import G = Aggregates
  import X = CounterReaders
  import CounterAnswers
  import SketchAnswers
  import SketchReaders
  import SketchRuns
  import Q = SketchQueries
  import PunctualRuns

  // ----- Compaction -----

  ghost predicate MapCame(F: Floats, m: map<u64, P.SampleBucket>, w: Origins) {
    m.Keys == w.Keys && forall t :: t in m ==> m[t].time == t && Came(F, m[t], Values(w[t]))
  }

  lemma PutCame(F: Floats, m: map<u64, P.SampleBucket>, w: Origins, k: u64, r: Row)
    requires MapCame(F, m, w)
    ensures var b := if k in m then m[k] else P.EmptyBucket(k);
            MapCame(F, m[k := P.AddPoint(F, b, r.value)], w[k := From(w, k) + [r]])
  {
    hide Came, P.AddPoint;
    var b := if k in m then m[k] else P.EmptyBucket(k);
    assert Values([]) == [];
    BucketAdds(F, b, k, Values(From(w, k)), r.value);
    ValuesSnoc(From(w, k), r);
    SameTime(F, b, r.value);
  }

  lemma SameTime(F: Floats, b: P.SampleBucket, v: u64)
    ensures P.AddPoint(F, b, v).time == b.time
  {
  }

  /** Grouping points into buckets is taking them into what the buckets hold. */
  lemma {:induction false} TakenCame(F: Floats, m: map<u64, P.SampleBucket>, w: Origins, rows: seq<Row>, span: u64)
    requires MapCame(F, m, w)
    ensures MapCame(F, P.GroupPoints(F, m, rows, span), Taken(w, rows, span))
  {
    hide MapCame, BucketOf, P.AddPoint;
    if rows != [] {
      var front, r := rows[..|rows| - 1], rows[|rows| - 1];
      assert rows == front + [r];
      TakenCame(F, m, w, front, span);
      P.GroupSnoc(F, m, front, r, span);
      TakenSnoc(w, front, r, span);
      PutCame(F, P.GroupPoints(F, m, front, span), Taken(w, front, span), BucketOf(r.time, span), r);
    }
  }

  /** The stored buckets, one for each time that has an origin. */
  ghost predicate StoredCame(F: Floats, bs: seq<P.SampleBucket>, w: Origins) {
    IncreasingBy(bs, P.BucketTime) && MapCame(F, P.BucketMap(bs), w)
  }

  lemma StoredAllCame(F: Floats, bs: seq<P.SampleBucket>, w: Origins)
    requires StoredCame(F, bs, w)
    ensures AllCame(F, bs, w)
  {
    hide Came, ByTime;
    InOrderOfByTime(bs, P.BucketTime);
    ByTimeKeyed(bs, P.BucketTime);
    InOrderIncreasing(P.BucketMap(bs), P.BucketTime);
  }

  lemma CompactCame(F: Floats, d: P.Samples, w: Origins, cutoff: u64, span: u64)
    requires StoredCame(F, d.buckets, w)
    ensures StoredCame(F, P.Compacted(F, d, cutoff, span).buckets, Taken(w, Old(d.rows, cutoff), span))
  {
    if d.rows != [] {
      var o, m := Old(d.rows, cutoff), P.BucketMap(d.buckets);
      var g := P.GroupPoints(F, m, o, span);
      assert P.Compacted(F, d, cutoff, span) == P.Samples(Young(d.rows, cutoff), InOrder(g));
      hide P.GroupPoints, Old, Young, P.BucketMap, InOrder, Taken, Came;
      TakenCame(F, m, w, o, span);
      InOrderIncreasing(g, P.BucketTime);
      MapAgain(g);
    }
  }

  lemma MapAgain(g: map<u64, P.SampleBucket>)
    requires Keyed(g, P.BucketTime)
    ensures P.BucketMap(InOrder(g)) == g
  {
    hide InOrder, SortedTimes;
    InOrderIncreasing(g, P.BucketTime);
    ByTimeKeyed(InOrder(g), P.BucketTime);
    ByTimeOfInOrder(g, P.BucketTime);
  }

  lemma GrowsBuckets(F: Floats, p: State, d: State, q: State)
    requires Grows(F, p, d, q) && d.samples.buckets == [] && IncreasingBy(p.samples.buckets, P.BucketTime)
    ensures q.samples.buckets == p.samples.buckets
  {
    hide N.MergedInto, K.MergedInto, Before, Appendable, IncreasingBy;
    if MergedInto(F, p, d, q) {
      InOrderOfByTime(p.samples.buckets, P.BucketTime);
    } else {
      assert p.samples.buckets + [] == p.samples.buckets;
    }
  }

  // ----- Runs -----

  ghost predicate Tracked(F: Floats, db: Db, blocks: seq<Block>, w: Origins) {
    && LatestWrites.Good(db, blocks)
    && StoredCame(F, AbsorbAll(EMPTY, blocks).samples.buckets, w) && FoldedFrom(w, db.written)
  }

  lemma StartTracked(F: Floats, replica: u64)
    ensures Tracked(F, Start(replica), [], map[])
  {
    StartCurrent(replica);
    hide LatestWrites.Good;
    assert AbsorbAll(EMPTY, []) == EMPTY;
  }

  lemma SameDecoded(s: bytes, blocks: seq<Block>, after: seq<Block>)
    requires Backed(s, blocks) && Backed(s, after)
    ensures AbsorbAll(EMPTY, after) == AbsorbAll(EMPTY, blocks)
  {
    hide Backed, AbsorbAll, Decoded;
    BackedDecodes(s, blocks);
    BackedDecodes(s, after);
  }

  lemma GoodParts(db: Db, blocks: seq<Block>)
    requires LatestWrites.Good(db, blocks)
    ensures Sound(db, blocks) && Backed(db.store, blocks)
    ensures forall r :: r in AbsorbAll(EMPTY, blocks).samples.rows ==> r in db.written
    ensures forall d :: d in db.flight ==> d.samples.buckets == []
    ensures IncreasingBy(AbsorbAll(EMPTY, blocks).samples.buckets, P.BucketTime)
  {
    BackedAppendable(db.store, blocks);
    hide Backed, AbsorbAll, AllFinite, N.Distinct, Beaten, Apart;
    forall d | d in db.flight ensures d.samples.buckets == [] { assert d in db.flight + [db.buffer]; }
  }

  lemma MoreFolded(w: Origins, all: set<Row>, more: set<Row>)
    requires FoldedFrom(w, all) && all <= more
    ensures FoldedFrom(w, more)
  {
  }

  lemma NextWritten(F: Floats, a: Db, b: Db)
    requires Next(F, a, b)
    ensures a.written <= b.written
  {
    hide AppendsTo, Fits, Shipped, Decoded, Compactable, Compacted, MarshalsTo;
  }

  lemma NothingCompacted(w: Write, clock: u64, replica: u64)
    ensures Put(EMPTY, w, clock, replica).samples.buckets == []
  {
  }

  /** A step stores the same buckets, or those of a compaction. */
  lemma NextBuckets(F: Floats, a: Db, b: Db, blocks: seq<Block>, after: seq<Block>) returns (cutoff: u64, span: u64)
    requires LatestWrites.Good(a, blocks) && Next(F, a, b) && Backed(b.store, after)
    ensures var p, q := AbsorbAll(EMPTY, blocks).samples, AbsorbAll(EMPTY, after).samples;
            q.buckets == p.buckets || q == P.Compacted(F, p, cutoff, span)
  {
    hide Backed, Conserved, AbsorbAll, Buffers, WritesThrough, Swaps, Arrives, Merges, Compacts, Current, Appendable, Grows;
    var p := AbsorbAll(EMPTY, blocks);
    GoodParts(a, blocks);
    cutoff, span := 0, 0;
    if w :| Buffers(a, b, w) {
      BuffersStore(a, b, w);
      SameDecoded(b.store, blocks, after);
    } else if w :| WritesThrough(F, a, b, w) {
      ThroughBuckets(F, a, b, w, blocks, after);
    } else if Swaps(a, b) {
      SwapsStore(a, b);
      SameDecoded(b.store, blocks, after);
    } else if d, replica, now :| Arrives(a, b, d, replica, now) {
      ArrivesStore(a, b, d, replica, now);
      SameDecoded(b.store, blocks, after);
    } else if i :| Merges(F, a, b, i) {
      MergesBuckets(F, a, b, i, blocks, after);
    } else {
      cutoff, span :| Compacts(F, a, b, cutoff, span);
      var other := CompactsBacked(F, a, b, cutoff, span, blocks);
      SameDecoded(b.store, other, after);
    }
  }

  lemma ThroughBuckets(F: Floats, a: Db, b: Db, w: Write, blocks: seq<Block>, after: seq<Block>)
    requires LatestWrites.Good(a, blocks) && WritesThrough(F, a, b, w) && Backed(b.store, after)
    ensures AbsorbAll(EMPTY, after).samples.buckets == AbsorbAll(EMPTY, blocks).samples.buckets
  {
    hide Backed, AbsorbAll, LatestWrites.Good, Grows, Fits, AppendsTo;
    GoodParts(a, blocks);
    var other := ThroughBacked(F, a, b, w, blocks);
    SameDecoded(b.store, other, after);
    NothingCompacted(w, Clock(a) + 1, a.replica);
    GrowsBuckets(F, AbsorbAll(EMPTY, blocks), Put(EMPTY, w, Clock(a) + 1, a.replica), AbsorbAll(EMPTY, other));
  }

  lemma MergesBuckets(F: Floats, a: Db, b: Db, i: nat, blocks: seq<Block>, after: seq<Block>)
    requires LatestWrites.Good(a, blocks) && Merges(F, a, b, i) && Backed(b.store, after)
    ensures AbsorbAll(EMPTY, after).samples.buckets == AbsorbAll(EMPTY, blocks).samples.buckets
  {
    hide Backed, AbsorbAll, LatestWrites.Good, Grows, Fits, AppendsTo;
    GoodParts(a, blocks);
    var other := MergesBacked(F, a, b, i, blocks);
    SameDecoded(b.store, other, after);
    assert a.flight[i] in a.flight;
    GrowsBuckets(F, AbsorbAll(EMPTY, blocks), a.flight[i], AbsorbAll(EMPTY, other));
  }

  lemma NextTracked(F: Floats, a: Db, b: Db, blocks: seq<Block>, w: Origins) returns (after: seq<Block>, now: Origins)
    requires Tracked(F, a, blocks, w) && Next(F, a, b)
    ensures Tracked(F, b, after, now)
  {
    hide LatestWrites.Good, Next, AbsorbAll, StoredCame, FoldedFrom, Taken, Old, P.Compacted, Backed;
    after := NextCurrent(F, a, b, blocks);
    GoodParts(a, blocks);
    GoodParts(b, after);
    NextWritten(F, a, b);
    MoreFolded(w, a.written, b.written);
    var cutoff, span := NextBuckets(F, a, b, blocks, after);
    var p, q := AbsorbAll(EMPTY, blocks).samples, AbsorbAll(EMPTY, after).samples;
    now := w;
    if q.buckets != p.buckets {
      now := Taken(w, Old(p.rows, cutoff), span);
      CompactCame(F, p, w, cutoff, span);
      OldAre(p.rows, cutoff);
      TakenFrom(w, Old(p.rows, cutoff), span, b.written);
    }
  }

  lemma {:induction false} OldAre(rows: seq<Row>, cutoff: u64)
    ensures forall r :: r in Old(rows, cutoff) ==> r in rows
  {
    if rows != [] {
      var front, r := rows[..|rows| - 1], rows[|rows| - 1];
      assert rows == front + [r];
      OldAre(front, cutoff);
    }
  }

  lemma {:induction false} RunTracked(F: Floats, run: seq<Db>, n: nat) returns (blocks: seq<Block>, w: Origins)
    requires Database.Runs(F, run) && n < |run|
    ensures Tracked(F, run[n], blocks, w)
  {
    hide Next, Tracked;
    if n == 0 {
      StartTracked(F, run[0].replica);
      blocks, w := [], map[];
    } else {
      var before, was := RunTracked(F, run, n - 1);
      assert Next(F, run[n - 1], run[n - 1 + 1]);
      blocks, w := NextTracked(F, run[n - 1], run[n], before, was);
    }
  }

  /** Over any run every stored bucket holds the aggregates of values that were written, none of them before
      the bucket. */
  lemma RunSamples(F: Floats, run: seq<Db>, n: nat) returns (blocks: seq<Block>, w: Origins)
    requires Database.Runs(F, run) && n < |run|
    ensures Decoded(run[n].store) == Ok(AbsorbAll(EMPTY, blocks))
    ensures AllCame(F, AbsorbAll(EMPTY, blocks).samples.buckets, w) && FoldedFrom(w, run[n].written)
    ensures forall r :: r in AbsorbAll(EMPTY, blocks).samples.rows ==> r in run[n].written
  {
    hide LatestWrites.Good, AbsorbAll, StoredCame, FoldedFrom, AllCame, Backed, Decoded;
    blocks, w := RunTracked(F, run, n);
    GoodParts(run[n], blocks);
    StoredAllCame(F, AbsorbAll(EMPTY, blocks).samples.buckets, w);
    BackedDecodes(run[n].store, blocks);
  }

  /** At every step of a punctual run, every aggregate that streaming the stored bytes reports is that of
      values that were written, those that compactions folded into buckets included. */
  lemma RunSampleReads(F: Floats, run: seq<Db>, n: nat, c: u64, from: u64, to: u64, span: u64, agg: G.Agg, out: seq<(u64, u64)>,
                       error: Option<Error>) returns (p: State, w: Origins, es: seq<R.Sample>)
    requires PunctualRuns.PunctualRun(F, run, c) && n < |run| && forall x :: F.add(0, x) == x
    requires R.Ranges(F, run[n].store, from, to, span, agg, out, error)
    ensures Decoded(run[n].store) == Ok(p) && FoldedFrom(w, run[n].written) && forall r :: r in p.samples.rows ==> r in run[n].written
    ensures WindowOf(Y.Feeds(), p.samples.buckets, p.samples.rows, from, to, es)
    ensures error.None? && Answered(F, es, Into(span), FoldedInto(w), agg, out)
  {
    hide LatestWrites.Good, AbsorbAll, StoredCame, FoldedFrom, AllCame, Backed, Decoded, Database.Runs, PunctualRuns.PunctualRun, Y.Flows, R.Ranges, WindowOf,
         Answered;
    PunctualRuns.PunctualIsRun(F, run, c);
    var blocks;
    blocks, w := RunSamples(F, run, n);
    p := AbsorbAll(EMPTY, blocks);
    var flows := RunFlowing(F, run, n, c);
    es := SampleRangeAnswers(F, run[n].store, flows, w, from, to, span, agg, out, error);
  }

  lemma RunFlowing(F: Floats, run: seq<Db>, n: nat, c: u64) returns (blocks: seq<Block>)
    requires PunctualRuns.PunctualRun(F, run, c) && n < |run| && forall x :: F.add(0, x) == x
    ensures Y.Flows(run[n].store, blocks) && Decoded(run[n].store) == Ok(AbsorbAll(EMPTY, blocks))
  {
    blocks := PunctualRuns.RunFlows(F, run, n, c);
    hide AbsorbAll, Backed, Decoded, PunctualRuns.PunctualRun;
    FlowsBacked(run[n].store, blocks);
    BackedDecodes(run[n].store, blocks);
  }

  lemma FlowsBacked(s: bytes, blocks: seq<Block>)
    requires Y.Flows(s, blocks) || X.Flows(s, blocks)
    ensures Backed(s, blocks)
  {
  }

  /** Without a span, streaming shows every value, and a stored bucket as the mean of its values. */
  lemma RunSampleValues(F: Floats, run: seq<Db>, n: nat, c: u64, from: u64, to: u64, out: seq<(u64, u64)>, error: Option<Error>)
    returns (p: State, w: Origins, es: seq<R.Sample>)
    requires PunctualRuns.PunctualRun(F, run, c) && n < |run| && forall x :: F.add(0, x) == x
    requires R.Lists(F, run[n].store, from, to, out, error)
    ensures Decoded(run[n].store) == Ok(p) && FoldedFrom(w, run[n].written) && forall r :: r in p.samples.rows ==> r in run[n].written
    ensures WindowOf(Y.Feeds(), p.samples.buckets, p.samples.rows, from, to, es)
    ensures error.None? && |out| == |es| && forall i :: 0 <= i < |es| ==> ShownAs(F, w, es[i], out[i])
  {
    hide LatestWrites.Good, AbsorbAll, StoredCame, FoldedFrom, AllCame, Backed, Decoded, Database.Runs, PunctualRuns.PunctualRun, Y.Flows,
         R.Lists, WindowOf, ShownAs;
    PunctualRuns.PunctualIsRun(F, run, c);
    var blocks;
    blocks, w := RunSamples(F, run, n);
    p := AbsorbAll(EMPTY, blocks);
    var flows := RunFlowing(F, run, n, c);
    es := SampleValuesAnswers(F, run[n].store, flows, w, from, to, out, error);
  }

  /** At every step of a punctual run, streaming counters sums the stored adds and buckets of each time. */
  lemma RunCounterReads(F: Floats, run: seq<Db>, n: nat, c: u64, from: u64, to: u64, out: seq<(u64, u64)>, error: Option<Error>)
    returns (p: State)
    requires PunctualRuns.PunctualRun(F, run, c) && n < |run| && forall x :: F.add(0, x) == x
    requires X.Lists(F, run[n].store, from, to, out, error)
    ensures Decoded(run[n].store) == Ok(p) && error.None? && CounterAnswers.Summed(F, p.counters, from, to, out)
    ensures from == 0 && to == W - 1 ==> CounterAnswers.Behind(p.counters, out) % W == N.Counted(p.counters)
  {
    var blocks := PunctualRuns.RunFlows(F, run, n, c);
    hide AbsorbAll, Backed, Decoded, PunctualRuns.PunctualRun, X.Lists, CounterAnswers.Summed, N.Counted;
    FlowsBacked(run[n].store, blocks);
    BackedDecodes(run[n].store, blocks);
    p := AbsorbAll(EMPTY, blocks);
    CounterAnswers.CounterValuesAnswers(F, run[n].store, blocks, from, to, out, error);
    if from == 0 && to == W - 1 {
      CounterAnswers.AllCounted(F, p.counters, out);
    }
  }

  /** At every step of any run, a sketch read answers for observations that were accepted: for every output
      bucket the raw ones of the window and those that were folded into its stored buckets. All accepted
      observations are loose or in one of these lists, each once. */
  lemma RunSketchReads(F: Floats, run: seq<Db>, n: nat, from: u64, to: u64, span: u64, out: seq<(u64, Q.Sketch)>, error: Option<Error>)
    returns (p: State, o: Origins)
    requires Database.Runs(F, run) && n < |run| && F.Ranged() && forall x :: F.add(0, x) == x
    requires SketchReaders.Yields(F, run[n].store, from, to, span, out, error)
    ensures Decoded(run[n].store) == Ok(p)
    ensures SketchRuns.TagsOnce(run[n].observed)
    ensures SketchRuns.Parts(run[n].observed, SketchRuns.Loose(p, run[n].flight + [run[n].buffer]), o)
    ensures error.None? && SketchAnswers.Answered(F, p.sketches, o, from, to, span, out)
  {
    hide AbsorbAll, Backed, Decoded, Database.Runs, SketchReaders.Yields, SketchAnswers.Answered, SketchRuns.TagsOnce, SketchRuns.Parts,
         SketchRuns.Loose, SketchRuns.Folded, Normal, SketchRuns.Holds;
    var blocks;
    blocks, o := SketchRuns.RunObservations(F, run, n);
    p := AbsorbAll(EMPTY, blocks);
    var held := RunBlocks(F, run, n);
    SketchAnswers.RangeAnswers(F, run[n].store, held, o, from, to, span, out, error);
  }

  lemma RunBlocks(F: Floats, run: seq<Db>, n: nat) returns (blocks: seq<Block>)
    requires Database.Runs(F, run) && n < |run|
    ensures Backed(run[n].store, blocks) && Decoded(run[n].store) == Ok(AbsorbAll(EMPTY, blocks))
  {
    hide LatestWrites.Good, AbsorbAll, Backed, Decoded, Database.Runs;
    blocks := RunCurrent(F, run, n);
    GoodParts(run[n], blocks);
    BackedDecodes(run[n].store, blocks);
  }
}
