/** Samples over a run: every time that was not compacted away holds its newest write. */
module LatestWrites {
  import opened Words
  import opened Varint
  import opened FloatModel
  import opened Rows
  import opened Pendings
  import opened Blocks
  import opened Segments
  import opened Marshalling
  import opened Appending
  import opened AppendLaws
  import opened FastPaths
  import opened Database
  import P = SampleState
  import N = CounterState
  import K = SketchState

  /** One of the rows is at this time and not older. */
  ghost predicate Beaten(h: Row, rows: seq<Row>) {
    exists v :: v in rows && v.time == h.time && !P.Newer(h, v)
  }

  ghost predicate Covers(rows: seq<Row>, others: seq<Row>) {
    (forall r :: r in rows ==> r in others) && forall r :: r in others ==> Beaten(r, rows)
  }

  function SampleRows(ds: seq<State>): seq<Row> {
    if ds == [] then [] else SampleRows(ds[..|ds| - 1]) + ds[|ds| - 1].samples.rows
  }

  /** The raw samples of the store, of the deltas in flight and of the buffer. */
  function AllSamples(p: State, ds: seq<State>): seq<Row> { p.samples.rows + SampleRows(ds) }

  /** Nothing is held that was not written, and no write that was not compacted away is lost to an older. */
  ghost predicate Current(db: Db, p: State) {
    var held := AllSamples(p, db.flight + [db.buffer]);
    && (forall r :: r in held ==> r in db.written)
    && (forall h :: h in db.written && h.time >= db.cutoff ==> Beaten(h, held))
  }

  lemma BeatenThrough(h: Row, v: Row, rows: seq<Row>)
    requires v.time == h.time && !P.Newer(h, v) && Beaten(v, rows)
    ensures Beaten(h, rows)
  {
    var x :| x in rows && x.time == v.time && !P.Newer(v, x);
    assert !P.Newer(h, x);
  }

  /** Replacing rows by rows that cover them keeps a state current. */
  lemma CoverKeeps(written: set<Row>, cutoff: u64, held: seq<Row>, after: seq<Row>)
    requires (forall r :: r in held ==> r in written) && forall h :: h in written && h.time >= cutoff ==> Beaten(h, held)
    requires (forall r :: r in after ==> r in held) && forall r :: r in held && r.time >= cutoff ==> Beaten(r, after)
    ensures (forall r :: r in after ==> r in written) && forall h :: h in written && h.time >= cutoff ==> Beaten(h, after)
  {
    hide P.Newer;
    forall h | h in written && h.time >= cutoff
      ensures Beaten(h, after)
    {
      var v :| v in held && v.time == h.time && !P.Newer(h, v);
      BeatenThrough(h, v, after);
    }
  }

  lemma {:induction false} SampleRowsConcat(a: seq<State>, b: seq<State>)
    ensures SampleRows(a + b) == SampleRows(a) + SampleRows(b)
  {
    if b == [] {
      assert a + b == a;
    } else {
      assert (a + b)[..|a| + |b| - 1] == a + b[..|b| - 1];
      SampleRowsConcat(a, b[..|b| - 1]);
    }
  }

  lemma SampleRowsOne(d: State)
    ensures SampleRows([d]) == d.samples.rows
  {
    assert [d][..0] == [];
  }

  lemma HeldRows(p: State, front: seq<State>, d: State, back: seq<State>)
    ensures forall r :: r in AllSamples(p, front + [d] + back) <==>
                        r in p.samples.rows || r in SampleRows(front) || r in d.samples.rows || r in SampleRows(back)
    ensures forall r :: r in AllSamples(p, front + back) <==>
                        r in p.samples.rows || r in SampleRows(front) || r in SampleRows(back)
  {
    SampleRowsConcat(front + [d], back);
    SampleRowsConcat(front, [d]);
    SampleRowsConcat(front, back);
    SampleRowsOne(d);
  }

  // ----- The merge keeps the newest -----

  lemma Reflexive(rows: seq<Row>)
    ensures forall r :: r in rows ==> Beaten(r, rows)
  {
    forall r | r in rows ensures Beaten(r, rows) { assert !P.Newer(r, r); }
  }

  lemma MergeCovers(F: Floats, p: P.Samples, d: P.Samples)
    requires IncreasingBy(p.rows, P.RowTime)
    ensures Covers(P.Merged(F, p, d).rows, p.rows + d.rows)
  {
    var m := P.Apply(P.Load(p.rows), d.rows);
    var out := InOrder(m);
    P.ApplyKeyed(p.rows, d.rows);
    InOrderIncreasing(m, P.RowTime);
    ByTimeKeyed(p.rows, P.RowTime);
    forall r | r in out
      ensures r in p.rows + d.rows
    {
      P.ApplyKeepsNewest(P.Load(p.rows), d.rows, r.time);
    }
    forall r | r in d.rows
      ensures Beaten(r, out)
    {
      P.ApplyKeepsNewest(P.Load(p.rows), d.rows, r.time);
      HeldAt(m, r.time);
      assert !P.Newer(r, m[r.time]);
    }
    hide P.Apply, InOrder, ByTime;
    forall r | r in p.rows
      ensures Beaten(r, out)
    {
      StoredBeaten(p.rows, d.rows, r);
    }
  }

  lemma HeldAt(m: map<u64, Row>, t: u64)
    requires t in m && Keyed(m, P.RowTime)
    ensures m[t] in InOrder(m) && m[t].time == t
  {
    assert t in SortedTimes(m);
    var i :| 0 <= i < |m| && SortedTimes(m)[i] == t;
    InOrderAt(m, P.RowTime, i);
    assert P.RowTime(m[t]) == t;
  }

  /** Of stored rows with the same time the last one counts; a series in order has one per time. */
  lemma StoredBeaten(rows: seq<Row>, delta: seq<Row>, r: Row)
    requires r in rows && IncreasingBy(rows, P.RowTime)
    ensures Beaten(r, InOrder(P.Apply(P.Load(rows), delta)))
  {
    var i :| 0 <= i < |rows| && rows[i] == r;
    ByTimeAt(rows, P.RowTime, i);
    P.ApplyKeepsNewest(P.Load(rows), delta, r.time);
    P.ApplyKeyed(rows, delta);
    HeldAt(P.Apply(P.Load(rows), delta), r.time);
  }

  lemma GrowsCovers(F: Floats, p: State, d: State, q: State)
    requires Grows(F, p, d, q) && Appendable(p)
    ensures Covers(q.samples.rows, p.samples.rows + d.samples.rows)
  {
    hide P.Merged, Before, Beaten, N.MergedInto, K.MergedInto, Nondecreasing, IncreasingBy;
    if MergedInto(F, p, d, q) {
      MergeCovers(F, p.samples, d.samples);
    } else {
      Reflexive(p.samples.rows + d.samples.rows);
    }
  }

  // ----- Each step -----

  lemma AddedRow(db: Db, w: Write, ds: seq<State>, d: State, back: seq<State>, p: State)
    requires Clock(db) + 1 < W
    requires forall r :: r in AllSamples(p, ds + [d] + back) ==> r in db.written
    requires forall h :: h in db.written && h.time >= db.cutoff ==> Beaten(h, AllSamples(p, ds + [d] + back))
    ensures var held := AllSamples(p, ds + [Put(d, w, Clock(db) + 1, db.replica)] + back);
            && (forall r :: r in held ==> r in Ticked(db, w).written)
            && (forall h :: h in Ticked(db, w).written && h.time >= db.cutoff ==> Beaten(h, held))
  {
    hide AllSamples, Beaten;
    var e := Put(d, w, Clock(db) + 1, db.replica);
    HeldRows(p, ds, d, back);
    HeldRows(p, ds, e, back);
    PutRows(d, w, Clock(db) + 1, db.replica);
    var before, held := AllSamples(p, ds + [d] + back), AllSamples(p, ds + [e] + back);
    assert forall r :: r in before ==> r in held;
    Reflexive(held);
    forall h | h in db.written && h.time >= db.cutoff
      ensures Beaten(h, held)
    {
      BeatenMore(h, before, held);
    }
  }

  lemma PutRows(d: State, w: Write, clock: u64, replica: u64)
    ensures forall r :: r in Put(d, w, clock, replica).samples.rows <==>
                        r in d.samples.rows || (w.Sample? && r == Row(w.t, w.v, clock, replica))
  {
  }

  lemma BeatenMore(h: Row, rows: seq<Row>, more: seq<Row>)
    requires Beaten(h, rows) && forall r :: r in rows ==> r in more
    ensures Beaten(h, more)
  {
  }

  lemma BuffersCurrent(a: Db, b: Db, w: Write, p: State)
    requires Current(a, p) && Buffers(a, b, w)
    ensures Current(b, p)
  {
    hide AllSamples, Beaten, Put;
    assert a.flight + [a.buffer] + [] == a.flight + [a.buffer];
    AddedRow(a, w, a.flight, a.buffer, [], p);
    assert b.flight + [b.buffer] + [] == b.flight + [b.buffer];
  }

  lemma ArrivesCurrent(a: Db, b: Db, d: State, replica: u64, now: u64, p: State)
    requires Current(a, p) && Arrives(a, b, d, replica, now)
    ensures Current(b, p)
  {
    hide AllSamples, Beaten, Shipped;
    HeldRows(p, a.flight, d, [a.buffer]);
    var before, held := AllSamples(p, a.flight + [a.buffer]), AllSamples(p, b.flight + [b.buffer]);
    Reflexive(held);
    forall h | h in b.written && h.time >= b.cutoff
      ensures Beaten(h, held)
    {
      if h in a.written {
        BeatenMore(h, before, held);
      }
    }
  }

  lemma SwapsCurrent(a: Db, b: Db, p: State)
    requires Current(a, p) && Swaps(a, b)
    ensures Current(b, p)
  {
    hide Beaten;
    if Size(a.buffer) == 0 {
      NothingHeld(a.buffer);
      assert b == a;
    } else {
      SampleRowsConcat(a.flight + [a.buffer], [EMPTY]);
      SampleRowsOne(EMPTY);
      assert SampleRows(a.flight + [a.buffer]) + [] == SampleRows(a.flight + [a.buffer]);
    }
  }

  /** The store takes over one of the parts. */
  lemma StoreCurrent(F: Floats, written: set<Row>, cutoff: u64, p: State, front: seq<State>, d: State, back: seq<State>, q: State)
    requires Grows(F, p, d, q) && Appendable(p)
    requires forall r :: r in AllSamples(p, front + [d] + back) ==> r in written
    requires forall h :: h in written && h.time >= cutoff ==> Beaten(h, AllSamples(p, front + [d] + back))
    ensures forall r :: r in AllSamples(q, front + back) ==> r in written
    ensures forall h :: h in written && h.time >= cutoff ==> Beaten(h, AllSamples(q, front + back))
  {
    hide AllSamples, Grows, Appendable, P.Newer;
    GrowsCovers(F, p, d, q);
    HeldRows(p, front, d, back);
    HeldRows(q, front, d, back);
    var before, after := AllSamples(p, front + [d] + back), AllSamples(q, front + back);
    forall r | r in before
      ensures Beaten(r, after)
    {
      if r in p.samples.rows + d.samples.rows {
        var v :| v in q.samples.rows && v.time == r.time && !P.Newer(r, v);
        assert v in after;
      } else {
        Reflexive(after);
      }
    }
    CoverKeeps(written, cutoff, before, after);
  }

  lemma MergesCurrent(F: Floats, a: Db, b: Db, i: nat, p: State, q: State)
    requires Current(a, p) && Merges(F, a, b, i) && Grows(F, p, a.flight[i], q) && Appendable(p)
    ensures Current(b, q)
  {
    hide AllSamples, Beaten, Grows, Appendable, AppendsTo, Fits;
    var front, back := a.flight[..i], a.flight[i + 1..] + [a.buffer];
    assert a.flight + [a.buffer] == front + [a.flight[i]] + back;
    StoreCurrent(F, a.written, a.cutoff, p, front, a.flight[i], back, q);
    assert b.flight + [b.buffer] == front + back;
  }

  lemma ThroughCurrent(F: Floats, a: Db, b: Db, w: Write, p: State, q: State)
    requires Current(a, p) && WritesThrough(F, a, b, w) && Grows(F, p, Put(EMPTY, w, Clock(a) + 1, a.replica), q) && Appendable(p)
    ensures Current(b, q)
  {
    hide AllSamples, Beaten, Grows, Appendable, AppendsTo, Fits, Put;
    var all, d := a.flight + [a.buffer], Put(EMPTY, w, Clock(a) + 1, a.replica);
    HeldRows(p, all, EMPTY, []);
    assert all + [] == all && all + [EMPTY] + [] == all + [EMPTY];
    SameHeld(p, all);
    AddedRow(a, w, all, EMPTY, [], p);
    StoreCurrent(F, b.written, b.cutoff, p, all, d, [], q);
    assert b.flight + [b.buffer] == all + [];
  }

  lemma SameHeld(p: State, ds: seq<State>)
    ensures AllSamples(p, ds + [EMPTY]) == AllSamples(p, ds)
  {
    SampleRowsConcat(ds, [EMPTY]);
    SampleRowsOne(EMPTY);
  }

  lemma CompactsCurrent(F: Floats, a: Db, b: Db, cutoff: u64, span: u64, p: State)
    requires Current(a, p) && Compactable(F, p, cutoff, span)
    requires b == a.(store := b.store, cutoff := if cutoff > a.cutoff then cutoff else a.cutoff)
    ensures Current(b, Compacted(F, p, cutoff, span))
  {
    hide Beaten, K.Compacted, N.Compacted;
    var q := Compacted(F, p, cutoff, span);
    CompactedSamples(F, p.samples, cutoff, span);
    var ds := a.flight + [a.buffer];
    var before, after := AllSamples(p, ds), AllSamples(q, ds);
    forall r | r in before && r.time >= b.cutoff
      ensures Beaten(r, after)
    {
      assert r in after;
      Reflexive(after);
    }
    CoverKeeps(a.written, b.cutoff, before, after);
  }

  lemma CompactedSamples(F: Floats, d: P.Samples, cutoff: u64, span: u64)
    ensures forall r :: r in P.Compacted(F, d, cutoff, span).rows ==> r in d.rows
    ensures forall r :: r in d.rows && r.time >= cutoff ==> r in P.Compacted(F, d, cutoff, span).rows
  {
    hide Old, Young, P.GroupPoints;
    OldYoungElements(d.rows, cutoff);
  }

  // ----- Runs -----

  ghost predicate Good(db: Db, blocks: seq<Block>) {
    Sound(db, blocks) && Current(db, AbsorbAll(EMPTY, blocks))
  }

  lemma BackedAppendable(s: bytes, blocks: seq<Block>)
    requires Backed(s, blocks)
    ensures Appendable(AbsorbAll(EMPTY, blocks))
  {
  }

  lemma NextCurrent(F: Floats, a: Db, b: Db, blocks: seq<Block>) returns (after: seq<Block>)
    requires Good(a, blocks) && Next(F, a, b)
    ensures Good(b, after)
  {
    hide Backed, Conserved, AbsorbAll, Buffers, WritesThrough, Swaps, Arrives, Merges, Compacts, Current, Appendable;
    var p := AbsorbAll(EMPTY, blocks);
    BackedAppendable(a.store, blocks);
    if w :| Buffers(a, b, w) {
      after := blocks;
      BuffersKeeps(a, b, w, p);
      BuffersStore(a, b, w);
      BuffersCurrent(a, b, w, p);
    } else if w :| WritesThrough(F, a, b, w) {
      after := ThroughBacked(F, a, b, w, blocks);
      ThroughKeeps(F, a, b, w, p, AbsorbAll(EMPTY, after));
      ThroughCurrent(F, a, b, w, p, AbsorbAll(EMPTY, after));
    } else if Swaps(a, b) {
      after := blocks;
      SwapsKeeps(a, b, p);
      SwapsStore(a, b);
      SwapsCurrent(a, b, p);
    } else if d, replica, now :| Arrives(a, b, d, replica, now) {
      after := blocks;
      ArrivesKeeps(a, b, d, replica, now, p);
      ArrivesStore(a, b, d, replica, now);
      ArrivesCurrent(a, b, d, replica, now, p);
    } else if i :| Merges(F, a, b, i) {
      after := MergesBacked(F, a, b, i, blocks);
      MergesKeeps(F, a, b, i, p, AbsorbAll(EMPTY, after));
      MergesCurrent(F, a, b, i, p, AbsorbAll(EMPTY, after));
    } else {
      var cutoff: u64, span: u64 :| Compacts(F, a, b, cutoff, span);
      after := CompactsBacked(F, a, b, cutoff, span, blocks);
      CompactsKeeps(F, a, b, cutoff, span, p);
      assert b == a.(store := b.store, cutoff := if cutoff > a.cutoff then cutoff else a.cutoff) by { CompactsCutoff(F, a, b, cutoff, span); }
      CompactsCurrent(F, a, b, cutoff, span, p);
    }
  }

  lemma CompactsCutoff(F: Floats, a: Db, b: Db, cutoff: u64, span: u64)
    requires Compacts(F, a, b, cutoff, span)
    ensures b == a.(store := b.store, cutoff := if cutoff > a.cutoff then cutoff else a.cutoff)
  {
  }

  lemma StartCurrent(replica: u64)
    ensures Good(Start(replica), [])
  {
    StartSound(replica);
    SampleRowsOne(EMPTY);
    assert Start(replica).flight + [EMPTY] == [EMPTY];
    assert AbsorbAll(EMPTY, []) == EMPTY;
    assert AllSamples(EMPTY, [EMPTY]) == [];
  }

  lemma {:induction false} RunCurrent(F: Floats, run: seq<Db>, n: nat) returns (blocks: seq<Block>)
    requires Runs(F, run) && n < |run|
    ensures Good(run[n], blocks)
  {
    hide Next, Good;
    if n == 0 {
      StartCurrent(run[0].replica);
      blocks := [];
    } else {
      var before := RunCurrent(F, run, n - 1);
      assert Next(F, run[n - 1], run[n - 1 + 1]);
      blocks := NextCurrent(F, run[n - 1], run[n], before);
    }
  }

  // ----- Loading -----

  /** `load`: the store, merged with a copy of the buffer if there is one. */
  ghost predicate Loads(F: Floats, db: Db, out: bytes) {
    if Size(db.buffer) == 0 then out == db.store
    else Decoded(db.store).Ok? && exists m :: MergesTo(F, Decoded(db.store).value, db.buffer, m, out)
  }

  /** The state has exactly one sample at the time, it was written, and no write to the time is newer. */
  ghost predicate Latest(rows: seq<Row>, written: set<Row>, t: u64) {
    exists i :: 0 <= i < |rows| && IsLatest(rows, written, t, i)
  }

  ghost predicate IsLatest(rows: seq<Row>, written: set<Row>, t: u64, i: nat)
    requires i < |rows|
  {
    && rows[i].time == t && rows[i] in written
    && (forall h :: h in written && h.time == t ==>
          h.clock < rows[i].clock || (h.clock == rows[i].clock && h.replica <= rows[i].replica))
    && (forall j :: 0 <= j < |rows| && rows[j].time == t ==> j == i)
  }

  lemma CoveredLatest(rows: seq<Row>, written: set<Row>, cutoff: u64, h: Row)
    requires IncreasingBy(rows, P.RowTime) && h in written && h.time >= cutoff
    requires forall r :: r in rows ==> r in written
    requires forall h :: h in written && h.time >= cutoff ==> Beaten(h, rows)
    ensures Latest(rows, written, h.time)
  {
    hide P.Newer, IncreasingBy;
    var v :| v in rows && v.time == h.time && !P.Newer(h, v);
    var i: nat :| 0 <= i < |rows| && rows[i] == v;
    forall j | 0 <= j < |rows| && rows[j].time == h.time
      ensures j == i
    {
      SameIndex(rows, i, j);
    }
    forall g | g in written && g.time == h.time
      ensures g.clock < v.clock || (g.clock == v.clock && g.replica <= v.replica)
    {
      OneAtATime(rows, i, g);
      NotNewer(g, v);
    }
    assert IsLatest(rows, written, h.time, i);
  }

  lemma NotNewer(a: Row, b: Row)
    requires !P.Newer(a, b)
    ensures a.clock < b.clock || (a.clock == b.clock && a.replica <= b.replica)
  {
  }

  /** A write that some row beats is beaten by the one row at its time. */
  lemma OneAtATime(rows: seq<Row>, i: nat, g: Row)
    requires IncreasingBy(rows, P.RowTime) && i < |rows| && rows[i].time == g.time && Beaten(g, rows)
    ensures !P.Newer(g, rows[i])
  {
    hide P.Newer, IncreasingBy;
    var u :| u in rows && u.time == g.time && !P.Newer(g, u);
    var j: nat :| 0 <= j < |rows| && rows[j] == u;
    SameIndex(rows, i, j);
  }

  lemma SameIndex(rows: seq<Row>, i: nat, j: nat)
    requires IncreasingBy(rows, P.RowTime) && i < |rows| && j < |rows| && rows[i].time == rows[j].time
    ensures i == j
  {
    assert i < j ==> P.RowTime(rows[i]) < P.RowTime(rows[j]);
    assert j < i ==> P.RowTime(rows[j]) < P.RowTime(rows[i]);
  }

  /** What a load returns holds all samples that are held. */
  lemma LoadedState(F: Floats, db: Db, blocks: seq<Block>, out: bytes) returns (q: State)
    requires Good(db, blocks) && db.flight == [] && Loads(F, db, out)
    ensures Decoded(out) == Ok(q) && IncreasingBy(q.samples.rows, P.RowTime)
    ensures forall r :: r in q.samples.rows ==> r in db.written
    ensures forall h :: h in db.written && h.time >= db.cutoff ==> Beaten(h, q.samples.rows)
  {
    hide AbsorbAll, Decoded, Beaten, Apart, N.Counted, Fits, Marshalled, AllFinite, MergedInto, Written, AllGood, AllReadable, BucketsFirst;
    var p := AbsorbAll(EMPTY, blocks);
    BackedDecodes(db.store, blocks);
    BackedAppendable(db.store, blocks);
    SampleRowsOne(db.buffer);
    assert db.flight + [db.buffer] == [db.buffer];
    if Size(db.buffer) == 0 {
      NothingHeld(db.buffer);
      q := p;
      assert AllSamples(p, [EMPTY]) == p.samples.rows;
    } else {
      var m :| MergesTo(F, p, db.buffer, m, out);
      BackedFinite(db.store, blocks);
      assert db.buffer in db.flight + [db.buffer];
      MergeFinite(F, p, db.buffer, m);
      MarshalRoundTrip(m);
      q := m;
      LoadedRows(F, db, p, m);
    }
  }

  lemma LoadedRows(F: Floats, db: Db, p: State, m: State)
    requires MergedInto(F, p, db.buffer, m) && Appendable(p) && Current(db, p) && db.flight == []
    ensures forall r :: r in m.samples.rows ==> r in db.written
    ensures forall h :: h in db.written && h.time >= db.cutoff ==> Beaten(h, m.samples.rows)
  {
    hide Beaten, MergedInto, Appendable;
    assert db.flight + [db.buffer] == [] + [db.buffer] + [];
    StoreCurrent(F, db.written, db.cutoff, p, [], db.buffer, [], m);
    assert AllSamples(m, [] + []) == m.samples.rows;
  }

  /** Over any run with no delta in flight, of this replica or of the others that share the store, a load
      shows at every sample time that was not compacted away exactly one value: the one written with the
      greatest clock, and of equal clocks with the greatest replica. */
  lemma LoadShowsLatest(F: Floats, run: seq<Db>, n: nat, out: bytes) returns (q: State)
    requires Runs(F, run) && n < |run| && run[n].flight == [] && Loads(F, run[n], out)
    ensures Decoded(out) == Ok(q)
    ensures forall h :: h in run[n].written && h.time >= run[n].cutoff ==> Latest(q.samples.rows, run[n].written, h.time)
  {
    hide Good, Loads, Latest, Beaten, IncreasingBy, Decoded, Next;
    var blocks := RunCurrent(F, run, n);
    q := LoadedState(F, run[n], blocks, out);
    forall h | h in run[n].written && h.time >= run[n].cutoff
      ensures Latest(q.samples.rows, run[n].written, h.time)
    {
      CoveredLatest(q.samples.rows, run[n].written, run[n].cutoff, h);
    }
  }
}
