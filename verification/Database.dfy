/** Runs of the database on one series: writes, buffer swaps, merges of flushed deltas, compactions, and the
    deltas of other replicas that share the store. */
module Database {
  import opened Words
  import opened Varint
  import opened FloatModel
  import opened Rows
  import opened Pendings
  import opened Blocks
  import opened Segments
  import opened Marshalling
  import opened Appending
  import opened AppendLaws
  import opened FastPaths
  import P = SampleState
  import N = CounterState
  import K = SketchState
  import Float64

  /** The last tick each replica has used. */
  type Clocks = map<u64, u64>

  function ClockOf(clocks: Clocks, replica: u64): u64 { if replica in clocks then clocks[replica] else 0 }

  /** The row was written at a tick that its replica has used. */
  predicate Known(r: Row, clocks: Clocks) { r.clock <= ClockOf(clocks, r.replica) }

  ghost predicate Ahead(now: Clocks, before: Clocks) {
    forall replica :: ClockOf(before, replica) <= ClockOf(now, replica)
  }

  /** The stored bytes, the deltas that are not merged yet, this replica's buffer, and the clocks; and for
      the record the sum of all counter adds, all observations, all sample writes, and the latest cutoff. */
  datatype Db = Db(store: bytes, flight: seq<State>, buffer: State, clocks: Clocks, replica: u64,
                   added: nat, observed: multiset<Row>, written: set<Row>, cutoff: u64)

  function Clock(db: Db): u64 { ClockOf(db.clocks, db.replica) }

  /** One write of one kind. */
  datatype Write = Sample(t: u64, v: u64) | Counter(t: u64, v: u64) | Sketch(t: u64, v: u64)

  function Put(d: State, w: Write, clock: u64, replica: u64): State {
    match w
    case Sample(t, v) => WithSample(d, Row(t, v, clock, replica))
    case Counter(t, v) => WithCounter(d, Row(t, v, clock, replica))
    case Sketch(t, v) => WithSketch(d, Row(t, v, clock, replica))
  }

  /** Takes the next tick of the clock and records the write. */
  function Ticked(db: Db, w: Write): Db
    requires Clock(db) + 1 < W
  {
    var clock := Clock(db) + 1;
    db.(clocks := db.clocks[db.replica := clock],
        added := db.added + (if w.Counter? then w.v else 0),
        observed := db.observed + (if w.Sketch? then multiset{Row(w.t, w.v, clock, db.replica)} else multiset{}),
        written := db.written + (if w.Sample? then {Row(w.t, w.v, clock, db.replica)} else {}))
  }

  /** Infinities and not-a-number are refused before they reach a sketch. */
  predicate Accepted(w: Write) { w.Sketch? ==> Finite(w.v) }

  /** A sketch takes exactly the numbers, of either sign: patterns whose exponent bits are not all ones. */
  lemma AcceptedNumbers(t: u64, x: u64)
    ensures Accepted(Sketch(t, x)) <==> x % 0x8000_0000_0000_0000 < 0x7FF0_0000_0000_0000
    ensures Accepted(Sketch(t, x)) <==> x / Float64.STEP % 0x800 < 0x7FF
    ensures x < 0x8000_0000_0000_0000 ==> (Accepted(Sketch(t, x)) <==> Accepted(Sketch(t, x + 0x8000_0000_0000_0000)))
    ensures Float64.Value(x) != 0.0 ==> Accepted(Sketch(t, x))
  {
    FiniteBits(x);
    if x < 0x8000_0000_0000_0000 {
      NegationAlike(x);
    }
  }

  // ----- Steps -----

  ghost predicate Buffers(a: Db, b: Db, w: Write) {
    && Clock(a) + 1 < W && Accepted(w)
    && b == Ticked(a, w).(buffer := Put(a.buffer, w, Clock(a) + 1, a.replica))
  }

  /** Without a buffer a write is merged at once. */
  ghost predicate WritesThrough(F: Floats, a: Db, b: Db, w: Write) {
    && Clock(a) + 1 < W && Accepted(w)
    && b == Ticked(a, w).(store := b.store)
    && Fits(Put(EMPTY, w, Clock(a) + 1, a.replica))
    && AppendsTo(F, a.store, Put(EMPTY, w, Clock(a) + 1, a.replica), Ok(b.store))
  }

  /** What writes of one replica between two ticks make: raw entries, each with a tick of its own. */
  ghost predicate Shipped(d: State, replica: u64, before: u64, now: u64) {
    && d.samples.buckets == [] && d.counters.buckets == [] && d.sketches.buckets == []
    && N.Distinct(d.counters.rows) && K.DistinctTags(d.sketches.rows) && AllFinite(d.sketches.rows)
    && forall r :: r in d.samples.rows || r in d.counters.rows || r in d.sketches.rows ==>
                     r.replica == replica && before < r.clock <= now
  }

  /** Another replica that shares the store starts to flush its buffer. */
  ghost predicate Arrives(a: Db, b: Db, d: State, replica: u64, now: u64) {
    && replica != a.replica && ClockOf(a.clocks, replica) <= now && Shipped(d, replica, ClockOf(a.clocks, replica), now)
    && b == a.(flight := a.flight + [d], clocks := a.clocks[replica := now],
               added := a.added + N.RowTotal(d.counters.rows),
               observed := a.observed + multiset(d.sketches.rows),
               written := a.written + set r | r in d.samples.rows)
  }

  ghost predicate Swaps(a: Db, b: Db) {
    b == a.(buffer := EMPTY, flight := if Size(a.buffer) == 0 then a.flight else a.flight + [a.buffer])
  }

  /** A delta in flight is merged; which one is left open. */
  ghost predicate Merges(F: Floats, a: Db, b: Db, i: nat) {
    && i < |a.flight| && Fits(a.flight[i])
    && b == a.(store := b.store, flight := a.flight[..i] + a.flight[i + 1..])
    && AppendsTo(F, a.store, a.flight[i], Ok(b.store))
  }

  ghost predicate Compacts(F: Floats, a: Db, b: Db, cutoff: u64, span: u64) {
    && Decoded(a.store).Ok? && Compactable(F, Decoded(a.store).value, cutoff, span)
    && var q := Compacted(F, Decoded(a.store).value, cutoff, span);
       && Fits(q) && MarshalsTo(F, q, b.store)
       && b == a.(store := b.store, cutoff := if cutoff > a.cutoff then cutoff else a.cutoff)
  }

  ghost predicate Next(F: Floats, a: Db, b: Db) {
    || (exists w :: Buffers(a, b, w))
    || (exists w :: WritesThrough(F, a, b, w))
    || Swaps(a, b)
    || (exists d, replica, now :: Arrives(a, b, d, replica, now))
    || (exists i :: Merges(F, a, b, i))
    || (exists cutoff, span :: Compacts(F, a, b, cutoff, span))
  }

  function Start(replica: u64): Db { Db([], [], EMPTY, map[], replica, 0, multiset{}, {}, 0) }

  ghost predicate Runs(F: Floats, run: seq<Db>) {
    && run != [] && run[0] == Start(run[0].replica)
    && forall i :: 0 <= i < |run| - 1 ==> Next(F, run[i], run[i + 1])
  }

  // ----- What every state of a run keeps -----

  /** A delta that was made by writes: raw entries only, none from the future, sketches finite. */
  ghost predicate Delta(d: State, clocks: Clocks) {
    && d.samples.buckets == [] && d.counters.buckets == [] && d.sketches.buckets == []
    && N.Distinct(d.counters.rows) && AllFinite(d.sketches.rows)
    && (forall r :: r in d.counters.rows ==> Known(r, clocks))
  }

  ghost function InFlight(ds: seq<State>): nat {
    if ds == [] then 0 else InFlight(ds[..|ds| - 1]) + N.RowTotal(ds[|ds| - 1].counters.rows)
  }

  /** No add is in two places. */
  ghost predicate Apart(p: State, ds: seq<State>) {
    && N.Distinct(p.counters.rows)
    && (forall d :: d in ds ==> N.Ops(p.counters.rows) !! N.Ops(d.counters.rows))
    && (forall i, j :: 0 <= i < j < |ds| ==> N.Ops(ds[i].counters.rows) !! N.Ops(ds[j].counters.rows))
  }

  /** Everything that has been counted is in one place: stored raw or in a bucket, in flight, or buffered. */
  ghost predicate Conserved(db: Db, p: State) {
    && Apart(p, db.flight + [db.buffer])
    && (forall r :: r in p.counters.rows ==> Known(r, db.clocks))
    && (forall d :: d in db.flight + [db.buffer] ==> Delta(d, db.clocks))
    && (N.Counted(p.counters) + InFlight(db.flight) + N.RowTotal(db.buffer.counters.rows)) % W == db.added % W
  }

  ghost predicate Sound(db: Db, blocks: seq<Block>) {
    Backed(db.store, blocks) && Conserved(db, AbsorbAll(EMPTY, blocks))
  }

  // ----- Counting -----

  lemma {:induction false} InFlightConcat(a: seq<State>, b: seq<State>)
    ensures InFlight(a + b) == InFlight(a) + InFlight(b)
  {
    if b == [] {
      assert a + b == a;
    } else {
      assert (a + b)[..|a| + |b| - 1] == a + b[..|b| - 1];
      InFlightConcat(a, b[..|b| - 1]);
    }
  }

  lemma InFlightOne(d: State)
    ensures InFlight([d]) == N.RowTotal(d.counters.rows)
  {
    assert [d][..0] == [];
  }

  lemma InFlightWithout(ds: seq<State>, i: nat)
    requires i < |ds|
    ensures InFlight(ds) == InFlight(ds[..i] + ds[i + 1..]) + N.RowTotal(ds[i].counters.rows)
  {
    hide InFlight, N.RowTotal;
    assert ds == ds[..i] + ([ds[i]] + ds[i + 1..]);
    InFlightConcat(ds[..i], [ds[i]] + ds[i + 1..]);
    InFlightConcat([ds[i]], ds[i + 1..]);
    InFlightConcat(ds[..i], ds[i + 1..]);
    InFlightOne(ds[i]);
  }

  lemma {:induction false} BucketTotalConcat(a: seq<N.CounterBucket>, b: seq<N.CounterBucket>)
    ensures N.BucketTotal(a + b) == N.BucketTotal(a) + N.BucketTotal(b)
  {
    if b == [] {
      assert a + b == a;
    } else {
      assert (a + b)[..|a| + |b| - 1] == a + b[..|b| - 1];
      BucketTotalConcat(a, b[..|b| - 1]);
    }
  }

  /** Whether a delta is merged or only appended, what it counts is added. */
  lemma GrowsCounts(F: Floats, p: State, d: State, q: State)
    requires Grows(F, p, d, q) && N.Distinct(p.counters.rows) && N.Distinct(d.counters.rows)
    requires N.Ops(p.counters.rows) !! N.Ops(d.counters.rows)
    ensures N.Counted(q.counters) == (N.Counted(p.counters) + N.Counted(d.counters)) % W
    ensures N.Distinct(q.counters.rows) && N.Ops(q.counters.rows) == N.Ops(p.counters.rows) + N.Ops(d.counters.rows)
  {
    hide N.Counted, N.Distinct, N.Ops, Before, Appendable, P.Merged, K.MergedInto, N.MergedInto;
    if MergedInto(F, p, d, q) {
      MergedCounts(p.counters, d.counters, q.counters);
    } else {
      ConcatCounts(p.counters, d.counters);
    }
  }

  lemma MergedCounts(p: N.Counters, d: N.Counters, q: N.Counters)
    requires N.MergedInto(p, d, q) && N.Distinct(p.rows) && N.Distinct(d.rows) && N.Ops(p.rows) !! N.Ops(d.rows)
    ensures N.Counted(q) == (N.Counted(p) + N.Counted(d)) % W
    ensures N.Distinct(q.rows) && N.Ops(q.rows) == N.Ops(p.rows) + N.Ops(d.rows)
  {
    hide N.Counted, N.Distinct, N.Ops, N.MergeBuckets, Nondecreasing;
    N.MergeConserves(p, d, q);
  }

  lemma ConcatCounts(p: N.Counters, d: N.Counters)
    requires N.Distinct(p.rows) && N.Distinct(d.rows) && N.Ops(p.rows) !! N.Ops(d.rows)
    ensures var q := N.Counters(p.rows + d.rows, p.buckets + d.buckets);
            && N.Counted(q) == (N.Counted(p) + N.Counted(d)) % W
            && N.Distinct(q.rows) && N.Ops(q.rows) == N.Ops(p.rows) + N.Ops(d.rows)
  {
    hide N.Distinct, N.RowTotal, N.BucketTotal;
    N.RowTotalConcat(p.rows, d.rows);
    BucketTotalConcat(p.buckets, d.buckets);
    N.DistinctConcat(p.rows, d.rows);
    assert N.Ops(p.rows + d.rows) == N.Ops(p.rows) + N.Ops(d.rows);
  }

  lemma DeltaCounts(d: State, clocks: Clocks)
    requires Delta(d, clocks)
    ensures N.Counted(d.counters) == N.RowTotal(d.counters.rows) % W
    ensures Fits(d)
  {
    assert N.BucketTotal(d.counters.buckets) == 0;
  }

  // ----- Each step -----

  lemma LaterDelta(d: State, before: Clocks, now: Clocks)
    requires Delta(d, before) && Ahead(now, before)
    ensures Delta(d, now)
  {
  }

  lemma TickAhead(clocks: Clocks, replica: u64, now: u64)
    requires ClockOf(clocks, replica) <= now
    ensures Ahead(clocks[replica := now], clocks)
  {
  }

  /** What one part gains that no part knew keeps the parts apart. */
  lemma ApartGains(p: State, front: seq<State>, d: State, back: seq<State>, e: State, clocks: Clocks)
    requires Apart(p, front + [d] + back) && forall r :: r in p.counters.rows ==> Known(r, clocks)
    requires forall x :: x in front + [d] + back ==> Delta(x, clocks)
    requires forall r :: r in e.counters.rows ==> r in d.counters.rows || !Known(r, clocks)
    ensures Apart(p, front + [e] + back)
  {
    hide N.Distinct, AllFinite, Known;
    var was, more := front + [d] + back, front + [e] + back;
    assert was[|front|] == d;
    forall i | 0 <= i < |more|
      ensures N.Ops(p.counters.rows) !! N.Ops(more[i].counters.rows)
    {
      assert was[i] in was && (i != |front| ==> more[i] == was[i]);
    }
    forall i, j | 0 <= i < j < |more|
      ensures N.Ops(more[i].counters.rows) !! N.Ops(more[j].counters.rows)
    {
      assert was[i] in was && was[j] in was && N.Ops(was[i].counters.rows) !! N.Ops(was[j].counters.rows);
      assert (i != |front| ==> more[i] == was[i]) && (j != |front| ==> more[j] == was[j]);
    }
  }

  lemma PutDelta(d: State, w: Write, clocks: Clocks, replica: u64)
    requires Delta(d, clocks) && ClockOf(clocks, replica) + 1 < W && Accepted(w)
    ensures var clock := ClockOf(clocks, replica) + 1;
            var e := Put(d, w, clock, replica);
            && Delta(e, clocks[replica := clock])
            && N.RowTotal(e.counters.rows) == N.RowTotal(d.counters.rows) + (if w.Counter? then w.v else 0)
            && forall r :: r in e.counters.rows ==> r in d.counters.rows || !Known(r, clocks)
  {
    hide Finite, N.RowTotal;
    var clock := ClockOf(clocks, replica) + 1;
    TickAhead(clocks, replica, clock);
    if w.Counter? {
      var r := Row(w.t, w.v, clock, replica);
      OneMore(d.counters.rows, r);
      assert r !in d.counters.rows;
    }
  }

  lemma OneMore(rows: seq<Row>, r: Row)
    ensures N.RowTotal(rows + [r]) == N.RowTotal(rows) + r.value
  {
    assert (rows + [r])[..|rows|] == rows;
  }

  lemma BuffersKeeps(a: Db, b: Db, w: Write, p: State)
    requires Conserved(a, p) && Buffers(a, b, w)
    ensures Conserved(b, p)
  {
    hide Apart, N.RowTotal, Put, Delta, N.Counted, Known, Ahead;
    var all := a.flight + [a.buffer];
    assert a.buffer in all;
    PutDelta(a.buffer, w, a.clocks, a.replica);
    TickAhead(a.clocks, a.replica, Clock(a) + 1);
    KnownLater(p.counters.rows, a.clocks, b.clocks);
    assert all + [] == all && b.flight + [b.buffer] + [] == b.flight + [b.buffer];
    ApartGains(p, a.flight, a.buffer, [], b.buffer, a.clocks);
    forall e | e in b.flight + [b.buffer]
      ensures Delta(e, b.clocks)
    {
      if e in a.flight {
        assert e in all;
        LaterDelta(e, a.clocks, b.clocks);
      }
    }
    CountTick(N.Counted(p.counters) + InFlight(a.flight) + N.RowTotal(a.buffer.counters.rows), a.added, if w.Counter? then w.v else 0);
  }

  lemma KnownLater(rows: seq<Row>, before: Clocks, now: Clocks)
    requires (forall r :: r in rows ==> Known(r, before)) && Ahead(now, before)
    ensures forall r :: r in rows ==> Known(r, now)
  {
  }

  /** The delta of another replica: its adds are new. */
  lemma ShippedDelta(d: State, replica: u64, clocks: Clocks, now: u64)
    requires ClockOf(clocks, replica) <= now && Shipped(d, replica, ClockOf(clocks, replica), now)
    ensures Delta(d, clocks[replica := now]) && forall r :: r in d.counters.rows ==> !Known(r, clocks)
  {
    hide N.Distinct, K.DistinctTags, AllFinite;
  }

  lemma ArrivesKeeps(a: Db, b: Db, d: State, replica: u64, now: u64, p: State)
    requires Conserved(a, p) && Arrives(a, b, d, replica, now)
    ensures Conserved(b, p)
  {
    hide Apart, N.RowTotal, Delta, N.Counted, Known, Ahead, Shipped;
    var all := a.flight + [a.buffer];
    ShippedDelta(d, replica, a.clocks, now);
    TickAhead(a.clocks, replica, now);
    KnownLater(p.counters.rows, a.clocks, b.clocks);
    EmptyDelta(a.clocks);
    ApartMore(p, a.flight, [a.buffer]);
    forall e | e in a.flight + [EMPTY] + [a.buffer] ensures Delta(e, a.clocks) { if e != EMPTY { assert e in all; } }
    ApartGains(p, a.flight, EMPTY, [a.buffer], d, a.clocks);
    forall e | e in b.flight + [b.buffer]
      ensures Delta(e, b.clocks)
    {
      if e != d {
        assert e in all;
        LaterDelta(e, a.clocks, b.clocks);
      }
    }
    InFlightConcat(a.flight, [d]);
    InFlightOne(d);
    CountTick(N.Counted(p.counters) + InFlight(a.flight) + N.RowTotal(a.buffer.counters.rows), a.added, N.RowTotal(d.counters.rows));
  }

  lemma CountTick(a: int, b: int, v: int)
    requires a % W == b % W
    ensures (a + v) % W == (b + v) % W
  {
  }

  lemma SwapsKeeps(a: Db, b: Db, p: State)
    requires Conserved(a, p) && Swaps(a, b)
    ensures Conserved(b, p)
  {
    hide Delta, N.Counted;
    if Size(a.buffer) == 0 {
      NothingHeld(a.buffer);
      assert b == a;
    } else {
      var all := a.flight + [a.buffer];
      EmptyDelta(b.clocks);
      assert all + [] == all && all + [EMPTY] + [] == all + [EMPTY];
      ApartMore(p, all, []);
      InFlightConcat(a.flight, [a.buffer]);
      InFlightOne(a.buffer);
      assert b.flight == all;
      assert N.RowTotal(EMPTY.counters.rows) == 0;
    }
  }

  lemma EmptyDelta(clocks: Clocks)
    ensures Delta(EMPTY, clocks) && N.Ops(EMPTY.counters.rows) == {}
  {
  }

  lemma ApartMore(p: State, front: seq<State>, back: seq<State>)
    requires Apart(p, front + back)
    ensures Apart(p, front + [EMPTY] + back)
  {
    hide N.Distinct;
    EmptyDelta(map[]);
    var was, more := front + back, front + [EMPTY] + back;
    forall i, j | 0 <= i < j < |more|
      ensures N.Ops(more[i].counters.rows) !! N.Ops(more[j].counters.rows)
    {
      if i != |front| && j != |front| {
        assert more[i] == was[if i < |front| then i else i - 1] && more[j] == was[if j < |front| then j else j - 1];
      }
    }
    forall e | e in more
      ensures N.Ops(p.counters.rows) !! N.Ops(e.counters.rows)
    {
      if e != EMPTY { assert e in was; }
    }
  }

  /** The store takes over what the delta held. */
  lemma ApartMerged(p: State, ds: seq<State>, i: nat, q: State)
    requires Apart(p, ds) && i < |ds| && N.Distinct(q.counters.rows)
    requires N.Ops(q.counters.rows) == N.Ops(p.counters.rows) + N.Ops(ds[i].counters.rows)
    ensures Apart(q, ds[..i] + ds[i + 1..])
  {
    hide N.Distinct, N.Ops;
    var rest := ds[..i] + ds[i + 1..];
    forall j | 0 <= j < |rest|
      ensures N.Ops(q.counters.rows) !! N.Ops(rest[j].counters.rows)
    {
      var k := if j < i then j else j + 1;
      assert rest[j] == ds[k] && ds[k] in ds;
      if k < i {
        assert N.Ops(ds[k].counters.rows) !! N.Ops(ds[i].counters.rows);
      } else {
        assert N.Ops(ds[i].counters.rows) !! N.Ops(ds[k].counters.rows);
      }
    }
    forall j, k | 0 <= j < k < |rest|
      ensures N.Ops(rest[j].counters.rows) !! N.Ops(rest[k].counters.rows)
    {
      assert rest[j] == ds[if j < i then j else j + 1] && rest[k] == ds[if k < i then k else k + 1];
    }
  }

  /** The store takes over one of the parts. */
  lemma StoreGrows(F: Floats, p: State, ds: seq<State>, i: nat, q: State, clocks: Clocks)
    requires Apart(p, ds) && i < |ds| && Delta(ds[i], clocks) && Grows(F, p, ds[i], q)
    requires forall r :: r in p.counters.rows ==> Known(r, clocks)
    ensures Apart(q, ds[..i] + ds[i + 1..])
    ensures forall r :: r in q.counters.rows ==> Known(r, clocks)
    ensures N.Counted(q.counters) == (N.Counted(p.counters) + N.RowTotal(ds[i].counters.rows) % W) % W
  {
    hide Delta, Apart, N.RowTotal, N.Distinct, Grows, N.Ops, N.Counted, Known;
    var d := ds[i];
    ApartAt(p, ds, i);
    DeltaAdds(d, clocks);
    DeltaCounts(d, clocks);
    GrowsCounts(F, p, d, q);
    ApartMerged(p, ds, i, q);
    forall r | r in q.counters.rows
      ensures Known(r, clocks)
    {
      InOps(q.counters.rows, p.counters.rows, d.counters.rows, r);
    }
  }

  lemma MergesKeeps(F: Floats, a: Db, b: Db, i: nat, p: State, q: State)
    requires Conserved(a, p) && Merges(F, a, b, i) && Grows(F, p, a.flight[i], q)
    ensures Conserved(b, q)
  {
    hide Delta, Apart, N.RowTotal, Grows, N.Counted, AppendsTo, Fits, InFlight, Known;
    var d, all := a.flight[i], a.flight + [a.buffer];
    assert all[i] == d && d in all;
    StoreGrows(F, p, all, i, q, a.clocks);
    assert all[..i] + all[i + 1..] == b.flight + [b.buffer];
    forall e | e in b.flight + [b.buffer] ensures Delta(e, b.clocks) { assert e in all; }
    InFlightWithout(a.flight, i);
    MergeCounts(N.Counted(p.counters), N.RowTotal(d.counters.rows), InFlight(b.flight) + N.RowTotal(a.buffer.counters.rows));
  }

  lemma DeltaAdds(d: State, clocks: Clocks)
    requires Delta(d, clocks)
    ensures N.Distinct(d.counters.rows) && forall r :: r in d.counters.rows ==> Known(r, clocks)
  {
  }

  lemma InOps(q: seq<Row>, a: seq<Row>, b: seq<Row>, r: Row)
    requires N.Ops(q) == N.Ops(a) + N.Ops(b) && r in q
    ensures r in a || r in b
  {
    assert r in N.Ops(q);
  }

  lemma ApartAt(p: State, ds: seq<State>, i: nat)
    requires Apart(p, ds) && i < |ds|
    ensures N.Distinct(p.counters.rows) && N.Ops(p.counters.rows) !! N.Ops(ds[i].counters.rows)
  {
    assert ds[i] in ds;
  }

  lemma MergeCounts(a: int, b: int, c: int)
    ensures ((a + b % W) % W + c) % W == (a + b + c) % W
  {
  }

  lemma CompactsKeeps(F: Floats, a: Db, b: Db, cutoff: u64, span: u64, p: State)
    requires Conserved(a, p) && Compactable(F, p, cutoff, span) && b == a.(store := b.store, cutoff := b.cutoff)
    requires Appendable(p)
    ensures Conserved(b, Compacted(F, p, cutoff, span))
  {
    hide Delta, N.Counted, N.Compacted, P.Compacted, K.Compacted, Old, Young, N.Distinct, Nondecreasing, Known;
    var q := Compacted(F, p, cutoff, span);
    N.CompactConserves(p.counters, cutoff, span);
    YoungParts(p.counters.rows, cutoff);
    OldYoungElements(p.counters.rows, cutoff);
    assert q.counters.rows == Young(p.counters.rows, cutoff) by { CompactedRows(p.counters, cutoff, span); }
    assert N.Ops(q.counters.rows) <= N.Ops(p.counters.rows);
  }

  lemma CompactedRows(d: N.Counters, cutoff: u64, span: u64)
    ensures N.Compacted(d, cutoff, span).rows == Young(d.rows, cutoff)
  {
  }

  lemma CompactedAppendable(F: Floats, p: State, cutoff: u64, span: u64)
    requires Appendable(p) && Compactable(F, p, cutoff, span) && AllFinite(p.sketches.rows)
    ensures var q := Compacted(F, p, cutoff, span); Appendable(q) && AllFinite(q.sketches.rows)
  {
    hide K.ToBuckets, K.Encodable, P.Compacted, Nondecreasing, IncreasingBy, Young, Old, Finite;
    P.CompactNormal(F, p.samples, cutoff, span);
    YoungParts(p.counters.rows, cutoff);
    YoungParts(p.sketches.rows, cutoff);
    OldYoungElements(p.sketches.rows, cutoff);
    CounterBucketsOrdered(N.GroupSums(N.SumBuckets(map[], p.counters.buckets), Old(p.counters.rows, cutoff), span));
    if p.sketches.rows != [] {
      SketchBucketsOrdered(F, K.CompactedMap(F, p.sketches, cutoff, span));
    }
  }

  /** A write without a buffer is a write into an empty buffer that is merged at once. */
  lemma ThroughKeeps(F: Floats, a: Db, b: Db, w: Write, p: State, q: State)
    requires Conserved(a, p) && WritesThrough(F, a, b, w)
    requires Grows(F, p, Put(EMPTY, w, Clock(a) + 1, a.replica), q)
    ensures Conserved(b, q)
  {
    hide Apart, Delta, Grows, Put, N.RowTotal, N.Counted, AppendsTo, Fits, InFlight, Known, Ahead;
    var d := Put(EMPTY, w, Clock(a) + 1, a.replica);
    var all := a.flight + [a.buffer];
    TickAhead(a.clocks, a.replica, Clock(a) + 1);
    KnownLater(p.counters.rows, a.clocks, b.clocks);
    ThroughApart(p, all, w, a.clocks, a.replica);
    StoreGrows(F, p, all + [d], |all|, q, b.clocks);
    assert (all + [d])[..|all|] + (all + [d])[|all| + 1..] == all;
    forall e | e in all ensures Delta(e, b.clocks) { LaterDelta(e, a.clocks, b.clocks); }
    NothingCounted();
    EmptyDelta(a.clocks);
    PutDelta(EMPTY, w, a.clocks, a.replica);
    ThroughCounts(N.Counted(p.counters), N.RowTotal(d.counters.rows), InFlight(a.flight) + N.RowTotal(a.buffer.counters.rows), a.added);
  }

  lemma ThroughApart(p: State, all: seq<State>, w: Write, clocks: Clocks, replica: u64)
    requires Apart(p, all) && ClockOf(clocks, replica) + 1 < W && Accepted(w)
    requires forall r :: r in p.counters.rows ==> Known(r, clocks)
    requires forall d :: d in all ==> Delta(d, clocks)
    ensures var clock := ClockOf(clocks, replica) + 1;
            var d := Put(EMPTY, w, clock, replica); Apart(p, all + [d]) && Delta(d, clocks[replica := clock])
  {
    hide Apart, Delta, Put, N.RowTotal, Known;
    var d := Put(EMPTY, w, ClockOf(clocks, replica) + 1, replica);
    EmptyDelta(clocks);
    PutDelta(EMPTY, w, clocks, replica);
    assert all + [] == all && all + [EMPTY] + [] == all + [EMPTY] && all + [d] + [] == all + [d];
    ApartMore(p, all, []);
    forall e | e in all + [EMPTY] ensures Delta(e, clocks) { if e != EMPTY { assert e in all; } }
    ApartGains(p, all, EMPTY, [], d, clocks);
  }

  lemma NothingCounted()
    ensures N.RowTotal(EMPTY.counters.rows) == 0
  {
  }

  lemma ThroughCounts(p: int, v: int, rest: int, added: int)
    requires (p + rest) % W == added % W
    ensures ((p + v % W) % W + rest) % W == (added + v) % W
  {
    MergeCounts(p, v, rest);
    CountTick(p + rest, added, v);
  }

  // ----- Runs -----

  /** Every step leaves a series with the layout and loses or repeats nothing that was counted. */
  lemma NextKeeps(F: Floats, a: Db, b: Db, blocks: seq<Block>) returns (after: seq<Block>)
    requires Sound(a, blocks) && Next(F, a, b)
    ensures Sound(b, after)
  {
    hide Backed, Conserved, AbsorbAll, Buffers, WritesThrough, Swaps, Arrives, Merges, Compacts;
    var p := AbsorbAll(EMPTY, blocks);
    if w :| Buffers(a, b, w) {
      after := blocks;
      BuffersKeeps(a, b, w, p);
      assert b.store == a.store by { BuffersStore(a, b, w); }
    } else if w :| WritesThrough(F, a, b, w) {
      after := ThroughBacked(F, a, b, w, blocks);
      ThroughKeeps(F, a, b, w, p, AbsorbAll(EMPTY, after));
    } else if Swaps(a, b) {
      after := blocks;
      SwapsKeeps(a, b, p);
      assert b.store == a.store by { SwapsStore(a, b); }
    } else if d, replica, now :| Arrives(a, b, d, replica, now) {
      after := blocks;
      ArrivesKeeps(a, b, d, replica, now, p);
      assert b.store == a.store by { ArrivesStore(a, b, d, replica, now); }
    } else if i :| Merges(F, a, b, i) {
      after := MergesBacked(F, a, b, i, blocks);
      MergesKeeps(F, a, b, i, p, AbsorbAll(EMPTY, after));
    } else {
      var cutoff: u64, span: u64 :| Compacts(F, a, b, cutoff, span);
      after := CompactsBacked(F, a, b, cutoff, span, blocks);
      CompactsKeeps(F, a, b, cutoff, span, p);
    }
  }

  lemma BuffersStore(a: Db, b: Db, w: Write)
    requires Buffers(a, b, w)
    ensures b.store == a.store
  {
  }

  lemma SwapsStore(a: Db, b: Db)
    requires Swaps(a, b)
    ensures b.store == a.store
  {
  }

  lemma ArrivesStore(a: Db, b: Db, d: State, replica: u64, now: u64)
    requires Arrives(a, b, d, replica, now)
    ensures b.store == a.store && b.cutoff == a.cutoff
  {
  }

  lemma ThroughBacked(F: Floats, a: Db, b: Db, w: Write, blocks: seq<Block>) returns (after: seq<Block>)
    requires Sound(a, blocks) && WritesThrough(F, a, b, w)
    ensures Backed(b.store, after)
    ensures Grows(F, AbsorbAll(EMPTY, blocks), Put(EMPTY, w, Clock(a) + 1, a.replica), AbsorbAll(EMPTY, after))
  {
    hide Backed, AbsorbAll, AppendsTo, Grows, Fits;
    after := AppendKeeps(F, a.store, Put(EMPTY, w, Clock(a) + 1, a.replica), Ok(b.store), blocks);
  }

  lemma MergesBacked(F: Floats, a: Db, b: Db, i: nat, blocks: seq<Block>) returns (after: seq<Block>)
    requires Sound(a, blocks) && Merges(F, a, b, i)
    ensures Backed(b.store, after)
    ensures Grows(F, AbsorbAll(EMPTY, blocks), a.flight[i], AbsorbAll(EMPTY, after))
  {
    hide Backed, AbsorbAll, AppendsTo, Grows, Fits, Apart;
    assert a.flight[i] in a.flight + [a.buffer];
    after := AppendKeeps(F, a.store, a.flight[i], Ok(b.store), blocks);
  }

  lemma CompactsBacked(F: Floats, a: Db, b: Db, cutoff: u64, span: u64, blocks: seq<Block>) returns (after: seq<Block>)
    requires Sound(a, blocks) && Compacts(F, a, b, cutoff, span)
    ensures var p := AbsorbAll(EMPTY, blocks);
            && Appendable(p) && Compactable(F, p, cutoff, span)
            && b == a.(store := b.store, cutoff := b.cutoff)
            && Backed(b.store, after) && AbsorbAll(EMPTY, after) == Compacted(F, p, cutoff, span)
  {
    hide AbsorbAll, Appendable, Compactable, Compacted, Decoded, Fits, AllGood, AllReadable, Written, BucketsFirst, AllFinite;
    var p := AbsorbAll(EMPTY, blocks);
    BackedDecodes(a.store, blocks);
    BackedFinite(a.store, blocks);
    CompactedAppendable(F, p, cutoff, span);
    var q := Compacted(F, p, cutoff, span);
    MarshalledBacked(q);
    after :| Backed(Marshalled(q), after) && AbsorbAll(EMPTY, after) == q;
  }

  lemma StartSound(replica: u64)
    ensures Sound(Start(replica), [])
  {
    NoSegments();
    EmptyDelta(map[]);
    NothingBefore(EMPTY);
    NothingCounted();
    assert N.Counted(EMPTY.counters) == 0 by { EmptyCounts(); }
  }

  lemma EmptyCounts()
    ensures N.Counted(EMPTY.counters) == 0
  {
  }

  /** Over any run of writes, buffer swaps, merges and compactions: what is stored raw, what is summed in
      buckets, what is in flight and what is buffered add up to all adds, modulo 2^64; and the stored bytes
      decode, with true segment bounds and times in order. */
  lemma {:induction false} RunConserves(F: Floats, run: seq<Db>, n: nat) returns (blocks: seq<Block>)
    requires Runs(F, run) && n < |run|
    ensures Sound(run[n], blocks)
    ensures Decoded(run[n].store) == Ok(AbsorbAll(EMPTY, blocks))
    ensures (N.Counted(AbsorbAll(EMPTY, blocks).counters) + InFlight(run[n].flight)
             + N.RowTotal(run[n].buffer.counters.rows)) % W == run[n].added % W
  {
    hide Next, Sound;
    if n == 0 {
      StartSound(run[0].replica);
      blocks := [];
    } else {
      var before := RunConserves(F, run, n - 1);
      assert Next(F, run[n - 1], run[n - 1 + 1]);
      blocks := NextKeeps(F, run[n - 1], run[n], before);
    }
    SoundMeans(run[n], blocks);
  }

  lemma SoundMeans(db: Db, blocks: seq<Block>)
    requires Sound(db, blocks)
    ensures Decoded(db.store) == Ok(AbsorbAll(EMPTY, blocks))
    ensures (N.Counted(AbsorbAll(EMPTY, blocks).counters) + InFlight(db.flight)
             + N.RowTotal(db.buffer.counters.rows)) % W == db.added % W
  {
    hide Decoded, AbsorbAll, Backed, N.Counted, Apart, Delta;
    BackedDecodes(db.store, blocks);
  }
}
