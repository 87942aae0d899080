/** Runs in which nothing arrives behind the last compaction. The stored bytes then stream in time order at
    every step, so all readers agree, and a compaction changes no aligned read of the stored bytes. */
module PunctualRuns {
  import opened Words
  import opened Varint
  import opened Reader
  import opened FloatModel
  import opened Rows
  import opened Pendings
  import opened Blocks
  import opened Segments
  import opened Marshalling
  import opened Appending
  import opened AppendLaws
  import opened FastPaths
  import opened Runs
  import opened Streams
  import opened Aggregates
  import opened AlignedFolds
  import opened AlignedReads
  import opened Database
  import opened LayeredStates
  import P = SampleState
  import N = CounterState
  import K = SketchState
  import H = Histograms
  import G = SketchReaders
  import R = SampleReaders
  import Y = SampleMemory
  import X = CounterReaders
  import AC = AlignedCounters
  import AS = AlignedSketches
  import Z = SketchPaths
  import Q = SketchQueries
  import LatestWrites

  ghost predicate WritesOnTime(F: Floats, a: Db, b: Db, w: Write) {
    WritesThrough(F, a, b, w) && OnTime(Database.Put(EMPTY, w, Clock(a) + 1, a.replica), a.cutoff)
  }

  ghost predicate MergesOnTime(F: Floats, a: Db, b: Db, i: nat) {
    Merges(F, a, b, i) && OnTime(a.flight[i], a.cutoff)
  }

  ghost predicate CompactsLater(F: Floats, a: Db, b: Db, cutoff: u64, c: u64) {
    a.cutoff <= cutoff && Compacts(F, a, b, cutoff, c)
  }

  /** A step that stores nothing older than the last cutoff, and compacts no earlier than it, with one span. */
  ghost predicate Punctual(F: Floats, a: Db, b: Db, c: u64) {
    || (exists w :: Buffers(a, b, w))
    || (exists w :: WritesOnTime(F, a, b, w))
    || Swaps(a, b)
    || (exists d, replica, now :: Arrives(a, b, d, replica, now))
    || (exists i :: MergesOnTime(F, a, b, i))
    || (exists cutoff :: CompactsLater(F, a, b, cutoff, c))
  }

  ghost predicate PunctualRun(F: Floats, run: seq<Db>, c: u64) {
    && run != [] && run[0] == Start(run[0].replica)
    && forall i :: 0 <= i < |run| - 1 ==> Punctual(F, run[i], run[i + 1], c)
  }

  lemma PunctualIsNext(F: Floats, a: Db, b: Db, c: u64)
    requires Punctual(F, a, b, c)
    ensures Next(F, a, b)
  {
    hide Buffers, WritesThrough, Swaps, Arrives, Merges, Compacts, OnTime, Database.Put;
  }

  /** Punctual runs are runs. */
  lemma PunctualIsRun(F: Floats, run: seq<Db>, c: u64)
    requires PunctualRun(F, run, c)
    ensures Database.Runs(F, run)
  {
    hide Punctual, Next;
    forall i | 0 <= i < |run| - 1
      ensures Next(F, run[i], run[i + 1])
    {
      PunctualIsNext(F, run[i], run[i + 1], c);
    }
  }

  ghost predicate Ready(db: Db, blocks: seq<Block>, c: u64) {
    Sound(db, blocks) && Layered(AbsorbAll(EMPTY, blocks), db.cutoff, c)
  }

  lemma StartReady(replica: u64, c: u64)
    ensures Ready(Start(replica), [], c)
  {
    StartSound(replica);
    EmptyLayered(c);
    assert AbsorbAll(EMPTY, []) == EMPTY;
  }

  lemma BackedInOrder(s: bytes, blocks: seq<Block>)
    requires Backed(s, blocks)
    ensures Appendable(AbsorbAll(EMPTY, blocks))
  {
  }

  lemma ThroughReady(F: Floats, a: Db, b: Db, w: Write, blocks: seq<Block>, c: u64) returns (after: seq<Block>)
    requires Ready(a, blocks, c) && WritesOnTime(F, a, b, w) && forall x :: F.add(0, x) == x
    ensures Ready(b, after, c)
  {
    hide Backed, Conserved, AbsorbAll, Layered, OnTime, Appendable, AppendsTo, Grows, Fits, Database.Put;
    var p := AbsorbAll(EMPTY, blocks);
    after := ThroughBacked(F, a, b, w, blocks);
    var q := AbsorbAll(EMPTY, after);
    ThroughKeeps(F, a, b, w, p, q);
    BackedInOrder(b.store, after);
    GrowsLayered(F, p, Database.Put(EMPTY, w, Clock(a) + 1, a.replica), q, a.cutoff, c);
  }

  lemma MergesReady(F: Floats, a: Db, b: Db, i: nat, blocks: seq<Block>, c: u64) returns (after: seq<Block>)
    requires Ready(a, blocks, c) && MergesOnTime(F, a, b, i) && forall x :: F.add(0, x) == x
    ensures Ready(b, after, c)
  {
    hide Backed, Conserved, AbsorbAll, Layered, OnTime, Appendable, AppendsTo, Grows, Fits;
    var p := AbsorbAll(EMPTY, blocks);
    after := MergesBacked(F, a, b, i, blocks);
    var q := AbsorbAll(EMPTY, after);
    MergesKeeps(F, a, b, i, p, q);
    BackedInOrder(b.store, after);
    GrowsLayered(F, p, a.flight[i], q, a.cutoff, c);
  }

  lemma CompactsReady(F: Floats, a: Db, b: Db, cutoff: u64, blocks: seq<Block>, c: u64) returns (after: seq<Block>)
    requires Ready(a, blocks, c) && CompactsLater(F, a, b, cutoff, c) && forall x :: F.add(0, x) == x
    ensures Ready(b, after, c)
  {
    hide Backed, Conserved, AbsorbAll, Layered, Appendable, Compacts, Compactable, Compacted;
    var p := AbsorbAll(EMPTY, blocks);
    LatestWrites.CompactsCutoff(F, a, b, cutoff, c);
    after := CompactsBacked(F, a, b, cutoff, c, blocks);
    CompactsKeeps(F, a, b, cutoff, c, p);
    CompactLayered(F, p, a.cutoff, cutoff, c);
  }

  lemma ArrivesReady(a: Db, b: Db, d: State, replica: u64, now: u64, blocks: seq<Block>, c: u64)
    requires Ready(a, blocks, c) && Arrives(a, b, d, replica, now)
    ensures Ready(b, blocks, c)
  {
    hide Backed, Conserved, AbsorbAll, Layered, Arrives;
    ArrivesKeeps(a, b, d, replica, now, AbsorbAll(EMPTY, blocks));
    ArrivesStore(a, b, d, replica, now);
  }

  /** Buffering and swapping do not touch the store. */
  lemma StoreStays(a: Db, b: Db, w: Write, blocks: seq<Block>, c: u64)
    requires Ready(a, blocks, c) && (Buffers(a, b, w) || Swaps(a, b))
    ensures Ready(b, blocks, c)
  {
    var p := AbsorbAll(EMPTY, blocks);
    assert b.store == a.store && b.cutoff == a.cutoff;
    hide Backed, Conserved, AbsorbAll, Layered, Buffers, Swaps;
    if Buffers(a, b, w) {
      BuffersKeeps(a, b, w, p);
    } else {
      SwapsKeeps(a, b, p);
    }
  }

  /** Every punctual step keeps the layers apart. */
  lemma PunctualKeeps(F: Floats, a: Db, b: Db, blocks: seq<Block>, c: u64) returns (after: seq<Block>)
    requires Ready(a, blocks, c) && Punctual(F, a, b, c) && forall x :: F.add(0, x) == x
    ensures Ready(b, after, c)
  {
    hide Ready, Buffers, WritesOnTime, Swaps, Arrives, MergesOnTime, CompactsLater;
    if w :| Buffers(a, b, w) {
      after := blocks;
      StoreStays(a, b, w, blocks, c);
    } else if w :| WritesOnTime(F, a, b, w) {
      after := ThroughReady(F, a, b, w, blocks, c);
    } else if Swaps(a, b) {
      after := blocks;
      StoreStays(a, b, Counter(0, 0), blocks, c);
    } else if d, replica, now :| Arrives(a, b, d, replica, now) {
      after := blocks;
      ArrivesReady(a, b, d, replica, now, blocks, c);
    } else if i: nat :| MergesOnTime(F, a, b, i) {
      after := MergesReady(F, a, b, i, blocks, c);
    } else {
      var cutoff: u64 :| CompactsLater(F, a, b, cutoff, c);
      after := CompactsReady(F, a, b, cutoff, blocks, c);
    }
  }

  lemma {:induction false} RunReady(F: Floats, run: seq<Db>, n: nat, c: u64) returns (blocks: seq<Block>)
    requires PunctualRun(F, run, c) && n < |run| && forall x :: F.add(0, x) == x
    ensures Ready(run[n], blocks, c)
  {
    hide Punctual, Ready;
    if n == 0 {
      StartReady(run[0].replica, c);
      blocks := [];
    } else {
      var before := RunReady(F, run, n - 1, c);
      assert Punctual(F, run[n - 1], run[n - 1 + 1], c);
      blocks := PunctualKeeps(F, run[n - 1], run[n], before, c);
    }
  }

  /** At every step of a punctual run the stored samples and counters come out in time order, so that
      streaming, the cursors and the plain selection of every window agree; every bucket lies before the
      last cutoff and every raw entry behind it. */
  lemma RunFlows(F: Floats, run: seq<Db>, n: nat, c: u64) returns (blocks: seq<Block>)
    requires PunctualRun(F, run, c) && n < |run| && forall x :: F.add(0, x) == x
    ensures Y.Flows(run[n].store, blocks) && X.Flows(run[n].store, blocks)
    ensures Layered(AbsorbAll(EMPTY, blocks), run[n].cutoff, c)
  {
    hide PunctualRun, Conserved, AbsorbAll, AC.Layered, P.Layered, AS.Layered, AS.HoldsSome, Backed;
    blocks := RunReady(F, run, n, c);
    SamplesFlow(run[n].store, blocks, run[n].cutoff, c);
    CountersFlow(run[n].store, blocks, run[n].cutoff, c);
  }

  lemma BucketsProper(p: K.Series)
    requires AS.HoldsSome(p)
    ensures Z.AllProper(p.buckets)
  {
    forall b | b in p.buckets
      ensures Z.Proper(b.data)
    {
      var v :| CanonOf(b.data, v) && v.count > 0;
      assert Z.ProperOf(b.data, v) by { CanonFits(b.data, v); }
    }
  }

  lemma CanonFits(data: bytes, v: K.S.Summary)
    requires CanonOf(data, v)
    ensures v.count < W
  {
  }

  /** At every step of a punctual run a sketch read yields, on whichever path it takes, what merging
      everything by bucket would: the same error and, in order, sketches with the same times, counts, sums,
      extremes and quantiles. */
  lemma RunSketchPaths(F: Floats, run: seq<Db>, n: nat, c: u64, from: u64, to: u64, span: u64, out: seq<(u64, Q.Sketch)>,
                       error: Option<Error>, mixed: seq<(u64, Q.Sketch)>, e: Option<Error>)
    requires PunctualRun(F, run, c) && n < |run| && forall x :: F.add(0, x) == x
    requires G.Yields(F, run[n].store, from, to, span, out, error) && G.MixedYields(F, run[n].store, from, to, span, mixed, e)
    ensures error == e && (out == mixed || Z.SamePairs(F, out, mixed))
  {
    hide PunctualRun, Conserved, AbsorbAll, AC.Layered, P.Layered, AS.Layered, AS.HoldsSome, Backed, G.Yields, G.MixedYields,
         Z.SamePairs, Z.AllProper;
    var blocks := RunReady(F, run, n, c);
    BucketsProper(AbsorbAll(EMPTY, blocks).sketches);
    Z.RangeIsMixed(F, run[n].store, blocks, from, to, span, out, error, mixed, e);
  }

  /** The counts that a compaction adds up stay below 2^64. */
  ghost predicate Unwrapped(p: State, cutoff: u64) {
    H.Total(N.SumBuckets(map[], p.counters.buckets)) + N.RowTotal(Old(p.counters.rows, cutoff)) < W
  }

  /** What streaming the stored bytes yields, for samples, counters and approximated sketches. */
  ghost predicate SameReads(F: Floats, s: bytes, t: bytes, from: u64, to: u64, span: u64, counters: bool) {
    && Streamed(R.ByBucket(F, span), s, R.OpenSamples, R.TimeOf, from, to)
    == Streamed(R.ByBucket(F, span), t, R.OpenSamples, R.TimeOf, from, to)
    && (counters ==>
          var x, y := Streamed(X.ByBucket(F, span), s, X.OpenCounters, X.TimeOf, from, to),
                      Streamed(X.ByBucket(F, span), t, X.OpenCounters, X.TimeOf, from, to);
          x.error == y.error && R.Valued(F, x.out, Sum) == R.Valued(F, y.out, Sum))
    && G.ReadBoth(s, from, to).error == G.ReadBoth(t, from, to).error
    && AS.SameView(F, G.Mix(F, span, G.ReadBoth(s, from, to).entries), G.Mix(F, span, G.ReadBoth(t, from, to).entries))
  }

  lemma SamplesUnseen(F: Floats, s: bytes, t: bytes, blocks: seq<Block>, after: seq<Block>, before: u64, cutoff: u64, c: u64,
                      from: u64, to: u64, span: u64)
    requires Y.Flows(s, blocks) && Y.Flows(t, after) && Regroups(F) && Aligned(from, to, span, c)
    requires var d := AbsorbAll(EMPTY, blocks).samples;
             && P.Layered(d, before, c) && before <= cutoff && (forall b :: b in d.buckets ==> b.count > 0)
             && AbsorbAll(EMPTY, after).samples == P.Compacted(F, d, cutoff, c)
    ensures Streamed(R.ByBucket(F, span), t, R.OpenSamples, R.TimeOf, from, to)
         == Streamed(R.ByBucket(F, span), s, R.OpenSamples, R.TimeOf, from, to)
  {
    hide Streamed, AbsorbAll, Y.Flows, P.Layered, P.Compacted, Y.InMemory, Grouped, R.ByBucket, Regroups, Aligned, Report,
         AscendingKeys;
    var d := AbsorbAll(EMPTY, blocks).samples;
    SamplesCompactUnseen(F, d, before, cutoff, c, from, to, span);
    Y.SampleRangesAgree(F, s, blocks, from, to, span);
    Y.SampleRangesAgree(F, t, after, from, to, span);
  }

  lemma CountersUnseen(F: Floats, s: bytes, t: bytes, blocks: seq<Block>, after: seq<Block>, before: u64, cutoff: u64, c: u64,
                       from: u64, to: u64, span: u64)
    requires X.Flows(s, blocks) && X.Flows(t, after) && AC.Converts(F) && Aligned(from, to, span, c)
    requires var p := AbsorbAll(EMPTY, blocks);
             && AC.Layered(p.counters, before, c) && before <= cutoff && Unwrapped(p, cutoff)
             && AbsorbAll(EMPTY, after).counters == N.Compacted(p.counters, cutoff, c)
    ensures var x, y := Streamed(X.ByBucket(F, span), t, X.OpenCounters, X.TimeOf, from, to),
                        Streamed(X.ByBucket(F, span), s, X.OpenCounters, X.TimeOf, from, to);
            x.error == y.error && R.Valued(F, x.out, Sum) == R.Valued(F, y.out, Sum)
  {
    hide Streamed, AbsorbAll, X.Flows, AC.Layered, N.Compacted, X.InMemory, Grouped, X.ByBucket, AC.Converts, Aligned, Report,
         AscendingKeys, R.Valued, H.Total, N.RowTotal, N.SumBuckets, Old;
    var d := AbsorbAll(EMPTY, blocks).counters;
    AC.CountersCompactUnseen(F, d, before, cutoff, c, from, to, span);
    X.CounterRangesAgree(F, s, blocks, from, to, span);
    X.CounterRangesAgree(F, t, after, from, to, span);
  }

  lemma SketchesUnseen(F: Floats, s: bytes, t: bytes, blocks: seq<Block>, after: seq<Block>, before: u64, cutoff: u64, c: u64,
                       from: u64, to: u64, span: u64)
    requires Backed(s, blocks) && Backed(t, after) && Regroups(F) && Aligned(from, to, span, c)
    requires var d := AbsorbAll(EMPTY, blocks).sketches;
             && AS.Layered(d, before, c) && AS.HoldsSome(d) && before <= cutoff
             && K.Encodable(F, K.CompactedMap(F, d, cutoff, c))
             && AbsorbAll(EMPTY, after).sketches == K.Compacted(F, d, cutoff, c)
    ensures G.ReadBoth(t, from, to).error == G.ReadBoth(s, from, to).error
    ensures AS.SameView(F, G.Mix(F, span, G.ReadBoth(t, from, to).entries), G.Mix(F, span, G.ReadBoth(s, from, to).entries))
  {
    hide AbsorbAll, Backed, AS.Layered, AS.HoldsSome, K.Compacted, K.CompactedMap, K.Encodable, G.Mix, AS.SameView, Aligned,
         AS.EntriesOf, Between, G.ReadBoth;
    var d := AbsorbAll(EMPTY, blocks).sketches;
    SketchesLayered(F, d, before, cutoff, c);
    SketchesFlow(s, blocks, before, c, from, to);
    SketchesFlow(t, after, cutoff, c, from, to);
    AS.SketchesCompactUnseen(F, d, before, cutoff, c, from, to, span);
  }

  /** Rounding set aside, storing the compaction of a layered state changes no aligned read. */
  lemma StoreUnseen(F: Floats, s: bytes, t: bytes, blocks: seq<Block>, after: seq<Block>, before: u64, cutoff: u64, c: u64,
                    from: u64, to: u64, span: u64)
    requires Backed(s, blocks) && Backed(t, after) && Regroups(F) && AC.Converts(F) && Aligned(from, to, span, c)
    requires var p := AbsorbAll(EMPTY, blocks);
             && Layered(p, before, c) && before <= cutoff && Compactable(F, p, cutoff, c)
             && AbsorbAll(EMPTY, after) == Compacted(F, p, cutoff, c)
    ensures SameReads(F, t, s, from, to, span, Unwrapped(AbsorbAll(EMPTY, blocks), cutoff))
  {
    hide AbsorbAll, Backed, P.Layered, AC.Layered, AS.Layered, AS.HoldsSome, P.Compacted, N.Compacted, K.Compacted, K.CompactedMap,
         K.Encodable, Aligned, AC.Converts, Streamed, G.Mix, G.ReadBoth, AS.SameView, R.Valued, Unwrapped;
    var p := AbsorbAll(EMPTY, blocks);
    CompactLayered(F, p, before, cutoff, c);
    SamplesFlow(s, blocks, before, c);
    SamplesFlow(t, after, cutoff, c);
    SamplesUnseen(F, s, t, blocks, after, before, cutoff, c, from, to, span);
    CountersFlow(s, blocks, before, c);
    CountersFlow(t, after, cutoff, c);
    if Unwrapped(p, cutoff) {
      CountersUnseen(F, s, t, blocks, after, before, cutoff, c, from, to, span);
    }
    SketchesUnseen(F, s, t, blocks, after, before, cutoff, c, from, to, span);
  }

  /** In a punctual run, rounding set aside, a compaction changes no read of the stored bytes whose window
      and span fall on its boundaries: no aggregate of samples, no approximated sketch, and, as long as the
      counts do not wrap around, no sum of counters. */
  lemma CompactionUnseen(F: Floats, run: seq<Db>, n: nat, c: u64, cutoff: u64, from: u64, to: u64, span: u64)
    returns (blocks: seq<Block>)
    requires PunctualRun(F, run, c) && n + 1 < |run|
    requires run[n].cutoff <= cutoff && Compacts(F, run[n], run[n + 1], cutoff, c)
    requires Regroups(F) && AC.Converts(F) && Aligned(from, to, span, c)
    ensures Decoded(run[n].store) == Ok(AbsorbAll(EMPTY, blocks))
    ensures SameReads(F, run[n + 1].store, run[n].store, from, to, span, Unwrapped(AbsorbAll(EMPTY, blocks), cutoff))
  {
    hide PunctualRun, Conserved, Compacts, Layered, Aligned, AC.Converts, Decoded, AbsorbAll, SameReads, Unwrapped, Backed,
         Compacted, Compactable;
    blocks := RunReady(F, run, n, c);
    var after := CompactsBacked(F, run[n], run[n + 1], cutoff, c, blocks);
    BackedDecodes(run[n].store, blocks);
    StoreUnseen(F, run[n].store, run[n + 1].store, blocks, after, run[n].cutoff, cutoff, c, from, to, span);
  }
}
