/** Folding old rows into buckets of a span, as windows on boundaries of the span see it. */
module AlignedFolds {
  import opened Words
  import opened Sorted
  import opened Rows
  import opened Streams
  import opened Interleavings

  // ----- Boundaries -----

  predicate Multiple(n: nat, c: nat) { c > 0 && n % c == 0 }

  /** The window and the output span fall on boundaries of the compaction span. */
  predicate Aligned(from: u64, to: u64, span: u64, c: u64) {
    c > 0 && span > 0 && Multiple(from, c) && Multiple(to + 1, c) && Multiple(span, c)
  }

  /** A bucket starts at the last boundary that is not behind the time. */
  lemma BoundaryBelow(m: nat, t: u64, c: u64)
    requires c > 0 && Multiple(m, c)
    ensures m <= t <==> m <= BucketOf(t, c)
  {
    var p, q := m / c, t / c;
    BucketBounds(t, c);
    BucketBounds(m, c);
    if m <= t && q < p {
      MultipleGap(q, p, c);
    } else if p < q {
      MultipleGap(p, q, c);
    }
  }

  lemma WindowOfBucket(t: u64, from: u64, to: u64, c: u64)
    requires c > 0 && Multiple(from, c) && Multiple(to + 1, c)
    ensures from <= t <= to <==> from <= BucketOf(t, c) <= to
  {
    BoundaryBelow(from, t, c);
    BoundaryBelow(to + 1, t, c);
  }

  lemma ProductMultiple(p: nat, s: nat, c: nat)
    requires Multiple(s, c)
    ensures Multiple(p * s, c)
  {
    var k := s / c;
    assert s == k * c;
    assert p * s == (p * k) * c by { Associate(p, k, c); }
    MultipleModulo(p * k, c);
  }

  lemma Associate(p: nat, k: nat, c: nat)
    ensures p * (k * c) == (p * k) * c
  {
  }

  /** The coarser bucket of a time is that of its finer bucket. */
  lemma BucketOfBucket(t: u64, c: u64, span: u64)
    requires c > 0 && span > 0 && Multiple(span, c)
    ensures BucketOf(BucketOf(t, c), span) == BucketOf(t, span)
  {
    var a, q := BucketOf(t, c), t / span;
    BucketBounds(t, span);
    ProductMultiple(q, span, c);
    BoundaryBelow(q * span, t, c);
    DivUnique(a, span, q, a - q * span);
  }

  // ----- What a reader makes of buckets and rows -----

  /** How a bucket starts and takes a value, when it has room for one, when it is one that holds something,
      what buckets and rows are to a reader, and what the reader does with an entry. */
  datatype Family<!V, !E, !A> = Family(start: u64 -> V, add: (V, u64) -> V, room: (V, u64) -> bool, fits: (u64, V) -> bool,
                                       ofBucket: (u64, V) -> E, ofRow: Row -> E, time: E -> u64, zero: A, step: (A, E) -> A)

  ghost predicate Timed<V(!new), E, A>(f: Family<V, E, A>) {
    && (forall k, v :: f.fits(k, v) ==> f.time(f.ofBucket(k, v)) == k)
    && (forall r :: f.time(f.ofRow(r)) == r.time)
  }

  ghost predicate Fills<V(!new), E, A>(f: Family<V, E, A>) {
    forall k, v, x :: (v == f.start(k) || f.fits(k, v)) && f.room(v, x) ==> f.fits(k, f.add(v, x))
  }

  /** In one output bucket, a bucket and the next row do what the bucket does that took the row. */
  ghost predicate Absorbs<V(!new), E, A(!new)>(f: Family<V, E, A>, span: u64) {
    && (forall a, k, v, r: Row :: f.fits(k, v) && f.room(v, r.value) && BucketOf(k, span) == BucketOf(r.time, span) ==>
          f.step(f.step(a, f.ofBucket(k, v)), f.ofRow(r)) == f.step(a, f.ofBucket(k, f.add(v, r.value))))
    && (forall a, k, r: Row :: f.room(f.start(k), r.value) && BucketOf(k, span) == BucketOf(r.time, span) ==>
          f.step(a, f.ofRow(r)) == f.step(a, f.ofBucket(k, f.add(f.start(k), r.value))))
  }

  ghost predicate Absorbing<V(!new), E, A(!new)>(f: Family<V, E, A>, span: u64) { Timed(f) && Fills(f) && Absorbs(f, span) }

  function Seen<V, E, A>(f: Family<V, E, A>, es: seq<E>): A {
    if es == [] then f.zero else f.step(Seen(f, es[..|es| - 1]), es[|es| - 1])
  }

  function Buckets<V, E, A>(f: Family<V, E, A>, m: map<u64, V>): (es: seq<E>)
    ensures |es| == |m|
  {
    var q := SortedTimes(m);
    seq(|q|, i requires 0 <= i < |q| => assert q[i] in q; f.ofBucket(q[i], m[q[i]]))
  }

  /** What a window shows of some buckets and the rows behind them. */
  function Window<V, E, A>(f: Family<V, E, A>, m: map<u64, V>, rows: seq<Row>, from: u64, to: u64): seq<E> {
    Between(Buckets(f, m) + Map(rows, f.ofRow), f.time, from, to)
  }

  ghost predicate Filled<V, E, A>(f: Family<V, E, A>, m: map<u64, V>) { forall t :: t in m ==> f.fits(t, m[t]) }

  function At<V, E, A>(f: Family<V, E, A>, m: map<u64, V>, k: u64): V { if k in m then m[k] else f.start(k) }

  function Put<V, E, A>(f: Family<V, E, A>, m: map<u64, V>, k: u64, x: u64): map<u64, V> { m[k := f.add(At(f, m, k), x)] }

  function Take<V, E, A>(f: Family<V, E, A>, m: map<u64, V>, rows: seq<Row>, c: u64): map<u64, V> {
    Group(m, rows, c, f.start, f.add)
  }

  /** Every row finds room in its bucket. */
  ghost predicate Roomy<V, E, A>(f: Family<V, E, A>, m: map<u64, V>, rows: seq<Row>, c: u64) {
    rows == [] ||
    var front, r := rows[..|rows| - 1], rows[|rows| - 1];
    Roomy(f, m, front, c) && f.room(At(f, Take(f, m, front, c), BucketOf(r.time, c)), r.value)
  }

  // ----- Lists that grow at the end -----

  lemma LastTime<T>(m: map<u64, T>, k: u64)
    requires k in m && forall t :: t in m ==> t <= k
    ensures SortedTimes(m) == SortedTimes(m - {k}) + [k]
    ensures |m - {k}| + 1 == |m|
  {
    assert m.Keys == (m - {k}).Keys + {k};
    AscendingSnoc((m - {k}).Keys, k);
  }

  lemma LastBucket<V, E, A>(f: Family<V, E, A>, m: map<u64, V>, k: u64)
    requires k in m && forall t :: t in m ==> t <= k
    ensures Buckets(f, m) == Buckets(f, m - {k}) + [f.ofBucket(k, m[k])]
  {
    hide SortedTimes, Buckets;
    LastTime(m, k);
    LaterBucket(f, m - {k}, m, k);
  }

  lemma LaterBucket<V, E, A>(f: Family<V, E, A>, s: map<u64, V>, m: map<u64, V>, k: u64)
    requires SortedTimes(m) == SortedTimes(s) + [k] && k in m && forall t :: t in s ==> t in m && m[t] == s[t]
    ensures Buckets(f, m) == Buckets(f, s) + [f.ofBucket(k, m[k])]
  {
    hide SortedTimes, Buckets;
    var q := SortedTimes(s);
    forall i | 0 <= i < |s|
      ensures Buckets(f, m)[i] == Buckets(f, s)[i]
    {
      BucketShown(f, m, i);
      BucketShown(f, s, i);
      assert (q + [k])[i] == q[i];
    }
    assert (q + [k])[|s|] == k;
    BucketShown(f, m, |s|);
  }

  lemma BucketShown<V, E, A>(f: Family<V, E, A>, m: map<u64, V>, i: nat)
    requires i < |m|
    ensures var t := SortedTimes(m)[i]; t in m && Buckets(f, m)[i] == f.ofBucket(t, m[t])
  {
    assert SortedTimes(m)[i] in SortedTimes(m);
  }

  lemma SeenSnoc<V, E, A>(f: Family<V, E, A>, es: seq<E>, e: E)
    ensures Seen(f, es + [e]) == f.step(Seen(f, es), e)
  {
    assert (es + [e])[..|es|] == es;
  }

  lemma {:induction false} SeenExtends<V, E, A>(f: Family<V, E, A>, a: seq<E>, b: seq<E>, more: seq<E>)
    requires Seen(f, a) == Seen(f, b)
    ensures Seen(f, a + more) == Seen(f, b + more)
  {
    if more == [] {
      assert a + more == a && b + more == b;
    } else {
      hide Seen;
      var front, e := more[..|more| - 1], more[|more| - 1];
      assert a + more == (a + front) + [e] && b + more == (b + front) + [e];
      SeenExtends(f, a, b, front);
      SeenSnoc(f, a + front, e);
      SeenSnoc(f, b + front, e);
    }
  }

  lemma WindowRows<V, E, A>(f: Family<V, E, A>, m: map<u64, V>, a: seq<Row>, b: seq<Row>, from: u64, to: u64)
    ensures Window(f, m, a + b, from, to) == Window(f, m, a, from, to) + Between(Map(b, f.ofRow), f.time, from, to)
  {
    hide Between, Buckets;
    assert Map(a + b, f.ofRow) == Map(a, f.ofRow) + Map(b, f.ofRow);
    assert Buckets(f, m) + (Map(a, f.ofRow) + Map(b, f.ofRow)) == (Buckets(f, m) + Map(a, f.ofRow)) + Map(b, f.ofRow);
    BetweenConcat(Buckets(f, m) + Map(a, f.ofRow), Map(b, f.ofRow), f.time, from, to);
  }

  /** What is shown of one more row, or of buckets and a last one. */
  lemma WindowRow<V(!new), E, A>(f: Family<V, E, A>, m: map<u64, V>, rows: seq<Row>, r: Row, from: u64, to: u64)
    requires Timed(f)
    ensures var w := Window(f, m, rows, from, to);
            Window(f, m, rows + [r], from, to) == if from <= r.time <= to then w + [f.ofRow(r)] else w
  {
    hide Between, Window, Map;
    var w := Window(f, m, rows, from, to);
    WindowRows(f, m, rows, [r], from, to);
    OneRow(f, r);
    BetweenSnoc([], f.ofRow(r), f.time, from, to);
    BetweenNone<E>([], f.time, from, to);
    assert [] + [f.ofRow(r)] == [f.ofRow(r)] && w + [] == w;
  }

  lemma OneRow<V, E, A>(f: Family<V, E, A>, r: Row)
    ensures Map([r], f.ofRow) == [f.ofRow(r)]
  {
  }

  lemma NoRows<V, E, A>(f: Family<V, E, A>)
    ensures Map([], f.ofRow) == []
  {
  }

  lemma WindowBucket<V(!new), E, A>(f: Family<V, E, A>, m: map<u64, V>, k: u64, from: u64, to: u64)
    requires Timed(f) && k in m && (forall t :: t in m ==> t <= k) && f.fits(k, m[k])
    ensures var w := Window(f, m - {k}, [], from, to);
            Window(f, m, [], from, to) == if from <= k <= to then w + [f.ofBucket(k, m[k])] else w
  {
    hide Between, Buckets, Map;
    LastBucket(f, m, k);
    NoRows(f);
    var s := m - {k};
    BetweenSnoc(Buckets(f, s), f.ofBucket(k, m[k]), f.time, from, to);
    assert Buckets(f, m) + [] == Buckets(f, m) && Buckets(f, s) + [] == Buckets(f, s);
    assert Between(Buckets(f, s), f.time, from, to) + [] == Between(Buckets(f, s), f.time, from, to);
  }

  // ----- One row into its bucket -----

  lemma AfterPut<V(!new), E, A>(f: Family<V, E, A>, m: map<u64, V>, k: u64, x: u64)
    requires Fills(f) && Filled(f, m) && f.room(At(f, m, k), x)
    ensures var m' := Put(f, m, k, x);
            && k in m' && m'[k] == f.add(At(f, m, k), x) && Filled(f, m')
            && m' - {k} == m - {k} && (k !in m ==> m - {k} == m)
            && forall t :: t in m' ==> t in m || t == k
  {
    var v, m' := At(f, m, k), Put(f, m, k, x);
    assert v == f.start(k) || f.fits(k, v);
    assert m' - {k} == m - {k};
    if k !in m {
      assert m - {k} == m;
    }
  }

  lemma AbsorbInto<V(!new), E, A(!new)>(f: Family<V, E, A>, es: seq<E>, k: u64, v: V, r: Row, span: u64)
    requires Absorbs(f, span) && f.fits(k, v) && f.room(v, r.value) && BucketOf(k, span) == BucketOf(r.time, span)
    ensures Seen(f, es + [f.ofBucket(k, f.add(v, r.value))]) == Seen(f, es + [f.ofBucket(k, v)] + [f.ofRow(r)])
  {
    hide BucketOf, Seen;
    SeenSnoc(f, es, f.ofBucket(k, f.add(v, r.value)));
    SeenSnoc(f, es, f.ofBucket(k, v));
    SeenSnoc(f, es + [f.ofBucket(k, v)], f.ofRow(r));
  }

  lemma AbsorbNew<V(!new), E, A(!new)>(f: Family<V, E, A>, es: seq<E>, k: u64, r: Row, span: u64)
    requires Absorbs(f, span) && f.room(f.start(k), r.value) && BucketOf(k, span) == BucketOf(r.time, span)
    ensures Seen(f, es + [f.ofBucket(k, f.add(f.start(k), r.value))]) == Seen(f, es + [f.ofRow(r)])
  {
    hide BucketOf, Seen;
    SeenSnoc(f, es, f.ofBucket(k, f.add(f.start(k), r.value)));
    SeenSnoc(f, es, f.ofRow(r));
  }

  /** What is shown of a row and its bucket, apart and put together. */
  lemma WindowBoth<V(!new), E, A>(f: Family<V, E, A>, m: map<u64, V>, k: u64, r: Row, from: u64, to: u64)
    requires Timed(f) && Fills(f) && Filled(f, m) && f.room(At(f, m, k), r.value)
    requires (forall t :: t in m ==> t <= k) && (from <= r.time <= to <==> from <= k <= to)
    ensures var before, v := Window(f, m - {k}, [], from, to), f.add(At(f, m, k), r.value);
            && Window(f, Put(f, m, k, r.value), [], from, to) == (if from <= k <= to then before + [f.ofBucket(k, v)] else before)
            && Window(f, m, [r], from, to) ==
               if !(from <= k <= to) then before
               else if k in m then before + [f.ofBucket(k, m[k])] + [f.ofRow(r)] else before + [f.ofRow(r)]
  {
    hide Window, Put, Timed, Fills, Filled;
    var m' := Put(f, m, k, r.value);
    AfterPut(f, m, k, r.value);
    FitsAt(f, m', k);
    WindowBucket(f, m', k, from, to);
    assert [] + [r] == [r];
    WindowRow(f, m, [], r, from, to);
    if k in m {
      FitsAt(f, m, k);
      WindowBucket(f, m, k, from, to);
    }
  }

  /** Folding one row into its bucket, the last one, leaves every aligned read as it was. */
  lemma AbsorbRow<V(!new), E, A(!new)>(f: Family<V, E, A>, m: map<u64, V>, r: Row, c: u64, from: u64, to: u64, span: u64)
    requires Absorbing(f, span) && Aligned(from, to, span, c) && Filled(f, m)
    requires f.room(At(f, m, BucketOf(r.time, c)), r.value) && forall t :: t in m ==> t <= BucketOf(r.time, c)
    ensures Seen(f, Window(f, Put(f, m, BucketOf(r.time, c), r.value), [], from, to)) == Seen(f, Window(f, m, [r], from, to))
  {
    var k: u64 := BucketOf(r.time, c);
    WindowOfBucket(r.time, from, to, c);
    BucketOfBucket(r.time, c, span);
    hide BucketOf, Window, Seen, Put, Timed, Fills, Filled, Absorbs, Multiple;
    WindowBoth(f, m, k, r, from, to);
    var before := Window(f, m - {k}, [], from, to);
    if k in m {
      FitsAt(f, m, k);
      AbsorbInto(f, before, k, m[k], r, span);
    } else {
      AbsorbNew(f, before, k, r, span);
    }
  }

  lemma FitsAt<V, E, A>(f: Family<V, E, A>, m: map<u64, V>, k: u64)
    requires Filled(f, m) && k in m
    ensures f.fits(k, m[k])
  {
  }

  // ----- All old rows -----

  lemma TakeSnoc<V, E, A>(f: Family<V, E, A>, m: map<u64, V>, rows: seq<Row>, r: Row, c: u64)
    ensures Take(f, m, rows + [r], c) == Put(f, Take(f, m, rows, c), BucketOf(r.time, c), r.value)
  {
    assert (rows + [r])[..|rows|] == rows;
  }

  lemma {:induction false} GroupSame<V(!new)>(m: map<u64, V>, rows: seq<Row>, c: u64, start: u64 -> V,
                                             add: (V, u64) -> V, more: (V, u64) -> V)
    requires forall v, x :: add(v, x) == more(v, x)
    ensures Group(m, rows, c, start, add) == Group(m, rows, c, start, more)
  {
    if rows == [] {
      assert Group(m, rows, c, start, add) == m == Group(m, rows, c, start, more);
    } else {
      var front, r := rows[..|rows| - 1], rows[|rows| - 1];
      GroupSame(m, front, c, start, add, more);
      var before := Group(m, front, c, start, add);
      var k: u64 := BucketOf(r.time, c);
      var v := if k in before then before[k] else start(k);
      assert add(v, r.value) == more(v, r.value);
    }
  }

  lemma {:induction false} AlwaysRoomy<V(!new), E, A>(f: Family<V, E, A>, m: map<u64, V>, rows: seq<Row>, c: u64)
    requires forall v, x :: f.room(v, x)
    ensures Roomy(f, m, rows, c)
  {
    if rows != [] {
      AlwaysRoomy(f, m, rows[..|rows| - 1], c);
    }
  }

  /** Buckets stay filled, and each is an earlier one or that of a row. */
  lemma {:induction false} TakeShape<V(!new), E, A>(f: Family<V, E, A>, m: map<u64, V>, rows: seq<Row>, c: u64)
    requires Fills(f) && Filled(f, m) && Roomy(f, m, rows, c)
    ensures Filled(f, Take(f, m, rows, c))
    ensures forall t :: t in Take(f, m, rows, c) ==> t in m || exists r :: r in rows && BucketOf(r.time, c) == t
  {
    if rows != [] {
      hide Take, BucketOf, Fills, Put, Filled;
      var front, r := rows[..|rows| - 1], rows[|rows| - 1];
      assert rows == front + [r];
      TakeShape(f, m, front, c);
      TakeSnoc(f, m, front, r, c);
      AfterPut(f, Take(f, m, front, c), BucketOf(r.time, c), r.value);
    }
  }

  lemma EarlierBuckets<V>(m: map<u64, V>, front: seq<Row>, r: Row, c: u64, now: map<u64, V>)
    requires Nondecreasing(front + [r])
    requires forall t :: t in m ==> t <= BucketOf(r.time, c)
    requires forall t :: t in now ==> t in m || exists x :: x in front && BucketOf(x.time, c) == t
    ensures forall t :: t in now ==> t <= BucketOf(r.time, c)
  {
    hide BucketOf;
    forall t | t in now && t !in m
      ensures t <= BucketOf(r.time, c)
    {
      var x :| x in front && BucketOf(x.time, c) == t;
      var i :| 0 <= i < |front| && front[i] == x;
      assert (front + [r])[i] == x && (front + [r])[|front|] == r;
      BucketMonotone(x.time, r.time, c);
    }
  }

  lemma AbsorbNext<V(!new), E, A(!new)>(f: Family<V, E, A>, m: map<u64, V>, front: seq<Row>, now: map<u64, V>, r: Row, c: u64,
                                        from: u64, to: u64, span: u64)
    requires Absorbing(f, span) && Aligned(from, to, span, c) && Filled(f, now)
    requires f.room(At(f, now, BucketOf(r.time, c)), r.value) && forall t :: t in now ==> t <= BucketOf(r.time, c)
    requires Seen(f, Window(f, now, [], from, to)) == Seen(f, Window(f, m, front, from, to))
    ensures Seen(f, Window(f, Put(f, now, BucketOf(r.time, c), r.value), [], from, to))
         == Seen(f, Window(f, m, front + [r], from, to))
  {
    hide BucketOf, Put, Window, Seen, Filled, Aligned, Absorbs, Fills, Timed;
    AbsorbRow(f, now, r, c, from, to, span);
    assert [] + [r] == [r];
    WindowRow(f, now, [], r, from, to);
    WindowRow(f, m, front, r, from, to);
    SeenExtends(f, Window(f, now, [], from, to), Window(f, m, front, from, to), [f.ofRow(r)]);
  }

  /** Folding old rows into their buckets leaves every aligned read as it was. */
  lemma {:induction false} AbsorbRows<V(!new), E, A(!new)>(f: Family<V, E, A>, m: map<u64, V>, rows: seq<Row>, c: u64,
                                                           from: u64, to: u64, span: u64)
    requires Absorbing(f, span) && Aligned(from, to, span, c) && Filled(f, m) && Nondecreasing(rows) && Roomy(f, m, rows, c)
    requires forall t, r :: t in m && r in rows ==> t <= BucketOf(r.time, c)
    ensures Seen(f, Window(f, Take(f, m, rows, c), [], from, to)) == Seen(f, Window(f, m, rows, from, to))
  {
    if rows != [] {
      hide Take, BucketOf, Put, Window, Seen, Nondecreasing, Filled, Aligned, Absorbs, Fills, Timed;
      var front, r := rows[..|rows| - 1], rows[|rows| - 1];
      assert rows == front + [r];
      NondecreasingParts(front, [r]);
      AbsorbRows(f, m, front, c, from, to, span);
      var now := Take(f, m, front, c);
      TakeShape(f, m, front, c);
      TakeSnoc(f, m, front, r, c);
      EarlierBuckets(m, front, r, c, now);
      AbsorbNext(f, m, front, now, r, c, from, to, span);
    }
  }

  /** And so it does whatever rows follow. */
  lemma CompactUnseen<V(!new), E, A(!new)>(f: Family<V, E, A>, m: map<u64, V>, o: seq<Row>, y: seq<Row>, c: u64,
                                           from: u64, to: u64, span: u64)
    requires Absorbing(f, span) && Aligned(from, to, span, c) && Filled(f, m) && Nondecreasing(o) && Roomy(f, m, o, c)
    requires forall t, r :: t in m && r in o ==> t <= BucketOf(r.time, c)
    ensures Seen(f, Window(f, Take(f, m, o, c), y, from, to)) == Seen(f, Window(f, m, o + y, from, to))
  {
    hide Window, Seen, Take, Between, Map, Absorbing, Aligned, Filled, Nondecreasing, Roomy, BucketOf;
    AbsorbRows(f, m, o, c, from, to, span);
    var after := Take(f, m, o, c);
    WindowRows(f, m, o, y, from, to);
    assert [] + y == y;
    WindowRows(f, after, [], y, from, to);
    SeenExtends(f, Window(f, after, [], from, to), Window(f, m, o, from, to), Between(Map(y, f.ofRow), f.time, from, to));
  }
}
