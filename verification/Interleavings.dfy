/** Two time-ordered lists read with one cursor each, and the stored stream they come from. */
module Interleavings {
  import opened Words
  import opened Varint
  import opened Pendings
  import opened Blocks
  import opened Reader
  import opened Segments
  import opened AppendLaws
  import opened Streams

  /** Where a reader takes its entries from: buckets `X` and raw rows `Y` of one family of blocks. */
  datatype Source<!X, !Y, !E> = Source(
    family: nat, buckets: Block -> seq<X>, rows: Block -> seq<Y>, bucketTime: X -> u64, rowTime: Y -> u64,
    ofBucket: X -> E, ofRow: Y -> E, time: E -> u64, raw: E -> bool)

  function Map<X, E>(xs: seq<X>, f: X -> E): (es: seq<E>)
    ensures |es| == |xs|
  {
    seq(|xs|, i requires 0 <= i < |xs| => f(xs[i]))
  }

  /** The entries of one block. */
  function Entered<X, Y, E>(k: Source<X, Y, E>, b: Block): seq<E> {
    Map(k.buckets(b), k.ofBucket) + Map(k.rows(b), k.ofRow)
  }

  ghost predicate Labels<X(!new), Y(!new), E(!new)>(k: Source<X, Y, E>) {
    && (forall x :: k.time(k.ofBucket(x)) == k.bucketTime(x) && !k.raw(k.ofBucket(x)))
    && (forall y :: k.time(k.ofRow(y)) == k.rowTime(y) && k.raw(k.ofRow(y)))
  }

  /** A block of the family holds one kind of entries, at the times of the block; others hold none. */
  ghost predicate Holds<X, Y, E>(k: Source<X, Y, E>, b: Block) {
    && (k.buckets(b) != [] ==> Family(b) == k.family && !Raw(b) && k.rows(b) == [])
    && (k.rows(b) != [] ==> Family(b) == k.family && Raw(b))
    && (forall x :: x in k.buckets(b) ==> k.bucketTime(x) in EntryTimes(b))
    && (forall y :: y in k.rows(b) ==> k.rowTime(y) in EntryTimes(b))
  }

  /** Buckets and rows by time, a bucket before the rows of its time. */
  function Interleave<X, Y, E>(k: Source<X, Y, E>, xs: seq<X>, ys: seq<Y>): seq<E>
    decreases |xs| + |ys|
  {
    if xs == [] && ys == [] then []
    else if ys == [] || (xs != [] && k.bucketTime(xs[0]) <= k.rowTime(ys[0])) then
      [k.ofBucket(xs[0])] + Interleave(k, xs[1..], ys)
    else [k.ofRow(ys[0])] + Interleave(k, xs, ys[1..])
  }

  /** What the cursors pass over in a window. */
  function Visited<X, Y, E>(k: Source<X, Y, E>, xs: seq<X>, ys: seq<Y>, from: u64, to: u64): seq<E> {
    Interleave(k, TakeTo(SkipTo(xs, k.bucketTime, from), k.bucketTime, to),
               TakeTo(SkipTo(ys, k.rowTime, from), k.rowTime, to))
  }

  /** What the cursors of a reader without a span pass over: they end at the first entry behind it. */
  function Passed<X, Y, E>(k: Source<X, Y, E>, xs: seq<X>, ys: seq<Y>, from: u64, to: u64): seq<E> {
    TakeTo(Interleave(k, SkipTo(xs, k.bucketTime, from), SkipTo(ys, k.rowTime, from)), k.time, to)
  }

  // ----- The loops -----

  method Skip<E>(es: seq<E>, time: E -> u64, from: u64) returns (i: nat)
    ensures i <= |es| && es[i..] == SkipTo(es, time, from)
  {
    i := 0;
    while i < |es| && time(es[i]) < from
      invariant i <= |es| && SkipTo(es[i..], time, from) == SkipTo(es, time, from)
    {
      assert es[i..][1..] == es[i + 1..];
      i := i + 1;
    }
  }

  lemma TakeHead<E>(es: seq<E>, i: nat, time: E -> u64, to: u64)
    requires i <= |es|
    ensures TakeTo(es[i..], time, to) ==
            if i < |es| && time(es[i]) <= to then [es[i]] + TakeTo(es[i + 1..], time, to) else []
  {
    if i < |es| { assert es[i..][1..] == es[i + 1..]; }
  }

  lemma NextVisited<X, Y, E>(k: Source<X, Y, E>, xs: seq<X>, ys: seq<Y>, i: nat, j: nat, to: u64)
    requires i <= |xs| && j <= |ys|
    ensures var hasBucket := i < |xs| && k.bucketTime(xs[i]) <= to;
            var hasItem := j < |ys| && k.rowTime(ys[j]) <= to;
            Interleave(k, TakeTo(xs[i..], k.bucketTime, to), TakeTo(ys[j..], k.rowTime, to)) ==
            if !hasBucket && !hasItem then []
            else if !hasItem || (hasBucket && k.bucketTime(xs[i]) <= k.rowTime(ys[j])) then
              [k.ofBucket(xs[i])] + Interleave(k, TakeTo(xs[i + 1..], k.bucketTime, to), TakeTo(ys[j..], k.rowTime, to))
            else
              [k.ofRow(ys[j])] + Interleave(k, TakeTo(xs[i..], k.bucketTime, to), TakeTo(ys[j + 1..], k.rowTime, to))
  {
    TakeHead(xs, i, k.bucketTime, to);
    TakeHead(ys, j, k.rowTime, to);
    hide TakeTo;
    var a, b := TakeTo(xs[i..], k.bucketTime, to), TakeTo(ys[j..], k.rowTime, to);
    if a != [] { assert a[1..] == TakeTo(xs[i + 1..], k.bucketTime, to); }
    if b != [] { assert b[1..] == TakeTo(ys[j + 1..], k.rowTime, to); }
  }

  lemma NextPassed<X(!new), Y(!new), E(!new)>(k: Source<X, Y, E>, xs: seq<X>, ys: seq<Y>, i: nat, j: nat, to: u64)
    requires Labels(k) && i <= |xs| && j <= |ys| && (i < |xs| || j < |ys|)
    ensures TakeTo(Interleave(k, xs[i..], ys[j..]), k.time, to) ==
            if j >= |ys| || (i < |xs| && k.bucketTime(xs[i]) <= k.rowTime(ys[j])) then
              if k.bucketTime(xs[i]) > to then [] else
              [k.ofBucket(xs[i])] + TakeTo(Interleave(k, xs[i + 1..], ys[j..]), k.time, to)
            else if k.rowTime(ys[j]) > to then [] else
              [k.ofRow(ys[j])] + TakeTo(Interleave(k, xs[i..], ys[j + 1..]), k.time, to)
  {
    var a, b := xs[i..], ys[j..];
    if a != [] { assert a[1..] == xs[i + 1..]; }
    if b != [] { assert b[1..] == ys[j + 1..]; }
    var es := Interleave(k, a, b);
    assert es != [];
    var next := if j >= |ys| || (i < |xs| && k.bucketTime(xs[i]) <= k.rowTime(ys[j])) then Interleave(k, xs[i + 1..], b)
                else Interleave(k, a, ys[j + 1..]);
    assert es[1..] == next;
  }

  lemma NothingPassed<X, Y, E>(k: Source<X, Y, E>, xs: seq<X>, ys: seq<Y>, to: u64)
    requires xs == [] && ys == []
    ensures TakeTo(Interleave(k, xs, ys), k.time, to) == []
  {
  }

  // ----- What is interleaved -----

  /** The raw entries, or the others, in their order. */
  function Only<X, Y, E>(k: Source<X, Y, E>, es: seq<E>, raw: bool): seq<E> {
    if es == [] then [] else (if k.raw(es[0]) == raw then [es[0]] else []) + Only(k, es[1..], raw)
  }

  /** These are the entries of a window: the buckets and the rows in it, each in their order, none going back
      in time, and a bucket before the rows of its time. */
  ghost predicate WindowOf<X, Y, E>(k: Source<X, Y, E>, xs: seq<X>, ys: seq<Y>, from: u64, to: u64, es: seq<E>) {
    && Only(k, es, false) == Map(Between(xs, k.bucketTime, from, to), k.ofBucket)
    && Only(k, es, true) == Map(Between(ys, k.rowTime, from, to), k.ofRow)
    && (forall i, j :: 0 <= i < j < |es| ==> k.time(es[i]) <= k.time(es[j]))
    && (forall i, j :: 0 <= i < j < |es| && k.raw(es[i]) && !k.raw(es[j]) ==> k.time(es[i]) < k.time(es[j]))
  }

  lemma OnlyCons<X, Y, E>(k: Source<X, Y, E>, e: E, es: seq<E>, raw: bool)
    ensures Only(k, [e] + es, raw) == (if k.raw(e) == raw then [e] else []) + Only(k, es, raw)
  {
    assert ([e] + es)[1..] == es;
  }

  lemma MapCons<X, E>(xs: seq<X>, f: X -> E)
    requires xs != []
    ensures Map(xs, f) == [f(xs[0])] + Map(xs[1..], f)
  {
  }

  lemma {:induction false} InterleaveParts<X(!new), Y(!new), E(!new)>(k: Source<X, Y, E>, xs: seq<X>, ys: seq<Y>)
    requires Labels(k)
    ensures Only(k, Interleave(k, xs, ys), false) == Map(xs, k.ofBucket)
    ensures Only(k, Interleave(k, xs, ys), true) == Map(ys, k.ofRow)
    decreases |xs| + |ys|
  {
    if xs == [] && ys == [] {
    } else if ys == [] || (xs != [] && k.bucketTime(xs[0]) <= k.rowTime(ys[0])) {
      InterleaveParts(k, xs[1..], ys);
      hide Only, Map;
      OnlyCons(k, k.ofBucket(xs[0]), Interleave(k, xs[1..], ys), false);
      OnlyCons(k, k.ofBucket(xs[0]), Interleave(k, xs[1..], ys), true);
      MapCons(xs, k.ofBucket);
      assert [] + Map(ys, k.ofRow) == Map(ys, k.ofRow);
    } else {
      InterleaveParts(k, xs, ys[1..]);
      hide Only, Map;
      OnlyCons(k, k.ofRow(ys[0]), Interleave(k, xs, ys[1..]), false);
      OnlyCons(k, k.ofRow(ys[0]), Interleave(k, xs, ys[1..]), true);
      MapCons(ys, k.ofRow);
      assert [] + Map(xs, k.ofBucket) == Map(xs, k.ofBucket);
    }
  }

  // ----- Appending to either list -----

  lemma {:induction false} InterleaveRow<X, Y, E>(k: Source<X, Y, E>, xs: seq<X>, ys: seq<Y>, y: Y)
    requires forall x :: x in xs ==> k.bucketTime(x) <= k.rowTime(y)
    ensures Interleave(k, xs, ys + [y]) == Interleave(k, xs, ys) + [k.ofRow(y)]
    decreases |xs| + |ys|
  {
    var more := ys + [y];
    if ys == [] {
      if xs == [] {
        assert more[1..] == [];
      } else {
        assert xs[0] in xs;
        InterleaveRow(k, xs[1..], ys, y);
      }
    } else if xs != [] && k.bucketTime(xs[0]) <= k.rowTime(ys[0]) {
      InterleaveRow(k, xs[1..], ys, y);
    } else {
      assert more[1..] == ys[1..] + [y];
      InterleaveRow(k, xs, ys[1..], y);
    }
  }

  lemma {:induction false} InterleaveBucket<X, Y, E>(k: Source<X, Y, E>, xs: seq<X>, ys: seq<Y>, x: X)
    requires forall y :: y in ys ==> k.rowTime(y) < k.bucketTime(x)
    ensures Interleave(k, xs + [x], ys) == Interleave(k, xs, ys) + [k.ofBucket(x)]
    decreases |xs| + |ys|
  {
    var more := xs + [x];
    if xs == [] {
      if ys == [] {
        assert more[1..] == [];
      } else {
        assert ys[0] in ys;
        InterleaveBucket(k, xs, ys[1..], x);
      }
    } else if ys == [] || k.bucketTime(xs[0]) <= k.rowTime(ys[0]) {
      assert more[1..] == xs[1..] + [x];
      InterleaveBucket(k, xs[1..], ys, x);
    } else {
      InterleaveBucket(k, xs, ys[1..], x);
    }
  }

  lemma MapSnoc<X, E>(xs: seq<X>, f: X -> E)
    requires xs != []
    ensures Map(xs, f) == Map(xs[..|xs| - 1], f) + [f(xs[|xs| - 1])]
    ensures xs == xs[..|xs| - 1] + [xs[|xs| - 1]]
  {
  }

  lemma MapIn<X, E>(xs: seq<X>, f: X -> E, x: X)
    requires x in xs
    ensures f(x) in Map(xs, f)
  {
    var i :| 0 <= i < |xs| && xs[i] == x;
    assert Map(xs, f)[i] == f(x);
  }

  lemma MapFrom<X, E>(xs: seq<X>, f: X -> E, e: E) returns (x: X)
    requires e in Map(xs, f)
    ensures x in xs && f(x) == e
  {
    var i :| 0 <= i < |xs| && Map(xs, f)[i] == e;
    x := xs[i];
  }

  lemma {:induction false} InterleaveRows<X, Y, E>(k: Source<X, Y, E>, xs: seq<X>, ys: seq<Y>, more: seq<Y>)
    requires forall x, y :: x in xs && y in more ==> k.bucketTime(x) <= k.rowTime(y)
    ensures Interleave(k, xs, ys + more) == Interleave(k, xs, ys) + Map(more, k.ofRow)
  {
    if more == [] {
      assert ys + more == ys && Interleave(k, xs, ys) + Map(more, k.ofRow) == Interleave(k, xs, ys);
    } else {
      hide Interleave, Map;
      var n := |more| - 1;
      MapSnoc(more, k.ofRow);
      InterleaveRows(k, xs, ys, more[..n]);
      InterleaveRow(k, xs, ys + more[..n], more[n]);
      assert ys + more == ys + more[..n] + [more[n]];
    }
  }

  lemma {:induction false} InterleaveBuckets<X, Y, E>(k: Source<X, Y, E>, xs: seq<X>, ys: seq<Y>, more: seq<X>)
    requires forall x, y :: x in more && y in ys ==> k.rowTime(y) < k.bucketTime(x)
    ensures Interleave(k, xs + more, ys) == Interleave(k, xs, ys) + Map(more, k.ofBucket)
  {
    if more == [] {
      assert xs + more == xs && Interleave(k, xs, ys) + Map(more, k.ofBucket) == Interleave(k, xs, ys);
    } else {
      hide Interleave, Map;
      var n := |more| - 1;
      MapSnoc(more, k.ofBucket);
      InterleaveBuckets(k, xs, ys, more[..n]);
      InterleaveBucket(k, xs + more[..n], ys, more[n]);
      assert xs + more == xs + more[..n] + [more[n]];
    }
  }

  // ----- The stream of a stored series -----

  function BucketsIn<X, Y, E>(k: Source<X, Y, E>, blocks: seq<Block>): seq<X> {
    Stream(blocks, k.buckets)
  }

  function RowsIn<X, Y, E>(k: Source<X, Y, E>, blocks: seq<Block>): seq<Y> {
    Stream(blocks, k.rows)
  }

  function Enter<X, Y, E>(k: Source<X, Y, E>): Block -> seq<E> { (b: Block) => Entered(k, b) }

  function StreamOf<X, Y, E>(k: Source<X, Y, E>, blocks: seq<Block>): seq<E> { Stream(blocks, Enter(k)) }

  lemma StreamStep<X, Y, E>(k: Source<X, Y, E>, blocks: seq<Block>)
    requires blocks != []
    ensures var front, b := blocks[..|blocks| - 1], blocks[|blocks| - 1];
            && StreamOf(k, blocks) == StreamOf(k, front) + Entered(k, b)
            && BucketsIn(k, blocks) == BucketsIn(k, front) + k.buckets(b)
            && RowsIn(k, blocks) == RowsIn(k, front) + k.rows(b)
  {
    hide Entered;
  }

  lemma NothingStreamed<X, Y, E>(k: Source<X, Y, E>, blocks: seq<Block>)
    requires blocks == []
    ensures StreamOf(k, blocks) == [] && BucketsIn(k, blocks) == [] && RowsIn(k, blocks) == []
    ensures Interleave(k, [], []) == []
  {
  }

  /** Nothing goes back in time, and no bucket comes behind a raw entry of its time. */
  ghost predicate Ordered<X, Y, E>(k: Source<X, Y, E>, es: seq<E>) {
    forall i, j :: 0 <= i < j < |es| ==> After(k, es[i], es[j])
  }

  predicate After<X, Y, E>(k: Source<X, Y, E>, d: E, e: E) {
    k.time(d) <= k.time(e) && (k.raw(d) && !k.raw(e) ==> k.time(d) < k.time(e))
  }

  lemma OrderedParts<X, Y, E>(k: Source<X, Y, E>, a: seq<E>, b: seq<E>)
    requires Ordered(k, a + b)
    ensures Ordered(k, a)
    ensures forall x, y :: x in a && y in b ==> After(k, x, y)
  {
    hide After;
    forall i, j | 0 <= i < j < |a|
      ensures After(k, a[i], a[j])
    {
      assert (a + b)[i] == a[i] && (a + b)[j] == a[j];
    }
    forall x, y | x in a && y in b
      ensures After(k, x, y)
    {
      var i :| 0 <= i < |a| && a[i] == x;
      var j :| 0 <= j < |b| && b[j] == y;
      assert (a + b)[i] == x && (a + b)[|a| + j] == y;
    }
  }

  /** The stream holds the entries of both lists, and nothing else. */
  lemma {:induction false} StreamHolds<X(!new), Y(!new), E(!new)>(k: Source<X, Y, E>, blocks: seq<Block>)
    ensures forall x :: x in BucketsIn(k, blocks) ==> k.ofBucket(x) in StreamOf(k, blocks)
    ensures forall y :: y in RowsIn(k, blocks) ==> k.ofRow(y) in StreamOf(k, blocks)
  {
    if blocks != [] {
      hide StreamOf, BucketsIn, RowsIn, Map;
      var b := blocks[|blocks| - 1];
      StreamStep(k, blocks);
      StreamHolds(k, blocks[..|blocks| - 1]);
      forall x | x in k.buckets(b) ensures k.ofBucket(x) in Entered(k, b) { MapIn(k.buckets(b), k.ofBucket, x); }
      forall y | y in k.rows(b) ensures k.ofRow(y) in Entered(k, b) { MapIn(k.rows(b), k.ofRow, y); }
    }
  }

  /** An ordered stream is the interleaving of its two lists. */
  lemma {:induction false} StreamInterleaves<X(!new), Y(!new), E(!new)>(k: Source<X, Y, E>, blocks: seq<Block>)
    requires Labels(k) && (forall b :: b in blocks ==> Holds(k, b)) && Ordered(k, StreamOf(k, blocks))
    ensures StreamOf(k, blocks) == Interleave(k, BucketsIn(k, blocks), RowsIn(k, blocks))
  {
    hide Ordered, Interleave, Entered, StreamOf, BucketsIn, RowsIn, Holds, Labels;
    if blocks == [] {
      NothingStreamed(k, blocks);
    } else {
      var front, b := blocks[..|blocks| - 1], blocks[|blocks| - 1];
      assert blocks == front + [b];
      StreamStep(k, blocks);
      OrderedParts(k, StreamOf(k, front), Entered(k, b));
      StreamInterleaves(k, front);
      StreamHolds(k, front);
      InterleaveBlock(k, BucketsIn(k, front), RowsIn(k, front), StreamOf(k, front), b);
    }
  }

  lemma InterleaveBlock<X(!new), Y(!new), E(!new)>(k: Source<X, Y, E>, xs: seq<X>, ys: seq<Y>, es: seq<E>, b: Block)
    requires Labels(k) && Holds(k, b) && es == Interleave(k, xs, ys)
    requires forall x :: x in xs ==> k.ofBucket(x) in es
    requires forall y :: y in ys ==> k.ofRow(y) in es
    requires forall d, e :: d in es && e in Entered(k, b) ==> After(k, d, e)
    ensures Interleave(k, xs + k.buckets(b), ys + k.rows(b)) == es + Entered(k, b)
  {
    hide Interleave, Map;
    var more, rows := k.buckets(b), k.rows(b);
    if more == [] {
      assert xs + more == xs && Entered(k, b) == Map(rows, k.ofRow);
      forall x, y | x in xs && y in rows
        ensures k.bucketTime(x) <= k.rowTime(y)
      {
        MapIn(rows, k.ofRow, y);
        assert After(k, k.ofBucket(x), k.ofRow(y));
      }
      InterleaveRows(k, xs, ys, rows);
    } else {
      assert ys + rows == ys && Entered(k, b) == Map(more, k.ofBucket);
      forall x, y | x in more && y in ys
        ensures k.rowTime(y) < k.bucketTime(x)
      {
        MapIn(more, k.ofBucket, x);
        assert After(k, k.ofRow(y), k.ofBucket(x));
      }
      InterleaveBuckets(k, xs, ys, more);
    }
  }

  // ----- In a series with the layout, time order is enough -----

  lemma EnteredAt<X(!new), Y(!new), E(!new)>(k: Source<X, Y, E>, b: Block, e: E)
    requires Labels(k) && Holds(k, b) && e in Entered(k, b)
    ensures k.time(e) in EntryTimes(b) && Family(b) == k.family && (k.raw(e) <==> Raw(b))
  {
    hide Map, EntryTimes, Family, Raw;
    if e in Map(k.buckets(b), k.ofBucket) {
      var x := MapFrom(k.buckets(b), k.ofBucket, e);
    } else {
      var y := MapFrom(k.rows(b), k.ofRow, e);
    }
  }

  /** Some block of the family holds an entry at this time. */
  ghost predicate Within<X, Y, E>(k: Source<X, Y, E>, blocks: seq<Block>, e: E) {
    exists b :: b in blocks && k.time(e) in EntryTimes(b) && Family(b) == k.family && (k.raw(e) <==> Raw(b))
  }

  lemma {:induction false} StreamWithin<X(!new), Y(!new), E(!new)>(k: Source<X, Y, E>, blocks: seq<Block>, e: E)
    requires Labels(k) && (forall b :: b in blocks ==> Holds(k, b)) && e in StreamOf(k, blocks)
    ensures Within(k, blocks, e)
  {
    hide StreamOf, Entered, Holds, EntryTimes, Family, Raw, Labels;
    if blocks == [] {
      NothingStreamed(k, blocks);
    } else {
      var front, b := blocks[..|blocks| - 1], blocks[|blocks| - 1];
      assert blocks == front + [b];
      StreamStep(k, blocks);
      if e in StreamOf(k, front) {
        StreamWithin(k, front, e);
      } else {
        EnteredAt(k, b, e);
      }
    }
  }

  lemma LaterBucket(blocks: seq<Block>, c: Block, t: u64, u: u64)
    requires blocks != [] && AllGood(blocks) && BucketsFirst(blocks)
    requires c in blocks[..|blocks| - 1] && t in EntryTimes(c) && u in EntryTimes(blocks[|blocks| - 1])
    requires Family(c) == Family(blocks[|blocks| - 1]) && Raw(c) && !Raw(blocks[|blocks| - 1])
    ensures t < u
  {
    hide Encodes, Payload, EntryTimes, Family, Raw;
    var i :| 0 <= i < |blocks| - 1 && blocks[i] == c;
    GoodBounds(c);
    GoodBounds(blocks[|blocks| - 1]);
  }

  lemma LastAfter<X(!new), Y(!new), E(!new)>(k: Source<X, Y, E>, blocks: seq<Block>, d: E, e: E)
    requires Labels(k) && (forall b :: b in blocks ==> Holds(k, b)) && AllGood(blocks) && BucketsFirst(blocks) && blocks != []
    requires d in StreamOf(k, blocks[..|blocks| - 1]) && e in Entered(k, blocks[|blocks| - 1])
    requires k.time(d) <= k.time(e)
    ensures After(k, d, e)
  {
    hide StreamOf, Entered, Holds, EntryTimes, Family, Raw, Labels, BucketsFirst, AllGood;
    var b := blocks[|blocks| - 1];
    assert forall c :: c in blocks[..|blocks| - 1] ==> c in blocks;
    StreamWithin(k, blocks[..|blocks| - 1], d);
    EnteredAt(k, b, e);
    if k.raw(d) && !k.raw(e) {
      var c :| c in blocks[..|blocks| - 1] && k.time(d) in EntryTimes(c) && Family(c) == k.family && (k.raw(d) <==> Raw(c));
      LaterBucket(blocks, c, k.time(d), k.time(e));
    }
  }

  lemma FrontKeeps(blocks: seq<Block>)
    requires blocks != [] && AllGood(blocks) && BucketsFirst(blocks)
    ensures AllGood(blocks[..|blocks| - 1]) && BucketsFirst(blocks[..|blocks| - 1])
  {
    hide Good, Family, Raw, EntryTimes;
  }

  lemma {:induction false} TimelyOrdered<X(!new), Y(!new), E(!new)>(k: Source<X, Y, E>, blocks: seq<Block>)
    requires Labels(k) && (forall b :: b in blocks ==> Holds(k, b)) && AllGood(blocks) && BucketsFirst(blocks)
    requires Timely(StreamOf(k, blocks), k.time)
    ensures Ordered(k, StreamOf(k, blocks))
  {
    hide StreamOf, Entered, Holds, Labels, BucketsFirst, AllGood, After;
    if blocks == [] {
      NothingStreamed(k, blocks);
    } else {
      var n := |blocks| - 1;
      var front, b := blocks[..n], blocks[n];
      assert blocks == front + [b];
      StreamStep(k, blocks);
      FrontKeeps(blocks);
      var s, t := StreamOf(k, front), Entered(k, b);
      TimelyParts(s, t, k.time);
      TimelyOrdered(k, front);
      forall i, j | 0 <= i < j < |s + t|
        ensures After(k, (s + t)[i], (s + t)[j])
      {
        if j < |s| {
          assert s[i] == (s + t)[i] && s[j] == (s + t)[j];
        } else if i < |s| {
          assert (s + t)[i] in s && (s + t)[j] in t;
          LastAfter(k, blocks, (s + t)[i], (s + t)[j]);
        } else {
          assert (s + t)[i] in t && (s + t)[j] in t;
          SameBlock(k, b, (s + t)[i], (s + t)[j]);
        }
      }
    }
  }

  lemma SameBlock<X(!new), Y(!new), E(!new)>(k: Source<X, Y, E>, b: Block, d: E, e: E)
    requires Labels(k) && Holds(k, b) && d in Entered(k, b) && e in Entered(k, b) && k.time(d) <= k.time(e)
    ensures After(k, d, e)
  {
    hide Entered, Holds, Labels;
    EnteredAt(k, b, d);
    EnteredAt(k, b, e);
  }

  lemma TimelyParts<E>(s: seq<E>, t: seq<E>, time: E -> u64)
    requires Timely(s + t, time)
    ensures Timely(s, time)
    ensures forall i, j :: 0 <= i < j < |s + t| ==> time((s + t)[i]) <= time((s + t)[j])
  {
    forall i, j | 0 <= i < j < |s| ensures time(s[i]) <= time(s[j]) { assert (s + t)[i] == s[i] && (s + t)[j] == s[j]; }
  }

  // ----- Interleaving ordered lists -----

  lemma TimelyCons<E>(e: E, rest: seq<E>, time: E -> u64)
    requires Timely(rest, time) && forall x :: x in rest ==> time(e) <= time(x)
    ensures Timely([e] + rest, time)
  {
  }

  lemma {:induction false} InterleaveFrom<X(!new), Y(!new), E(!new)>(k: Source<X, Y, E>, xs: seq<X>, ys: seq<Y>, t: u64)
    requires Labels(k)
    requires (forall x :: x in xs ==> t <= k.bucketTime(x)) && (forall y :: y in ys ==> t <= k.rowTime(y))
    ensures forall e :: e in Interleave(k, xs, ys) ==> t <= k.time(e)
    decreases |xs| + |ys|
  {
    if xs == [] && ys == [] {
    } else if ys == [] || (xs != [] && k.bucketTime(xs[0]) <= k.rowTime(ys[0])) {
      assert xs[0] in xs;
      InterleaveFrom(k, xs[1..], ys, t);
    } else {
      assert ys[0] in ys;
      InterleaveFrom(k, xs, ys[1..], t);
    }
  }

  lemma {:induction false} InterleaveTimely<X(!new), Y(!new), E(!new)>(k: Source<X, Y, E>, xs: seq<X>, ys: seq<Y>)
    requires Labels(k) && Timely(xs, k.bucketTime) && Timely(ys, k.rowTime)
    ensures Timely(Interleave(k, xs, ys), k.time)
    decreases |xs| + |ys|
  {
    hide Timely;
    if xs != [] { TailTimely(xs, k.bucketTime); assert xs == [xs[0]] + xs[1..]; }
    if ys != [] { TailTimely(ys, k.rowTime); assert ys == [ys[0]] + ys[1..]; }
    if xs == [] && ys == [] {
      NothingTimely(k.time);
    } else if ys == [] || (xs != [] && k.bucketTime(xs[0]) <= k.rowTime(ys[0])) {
      InterleaveTimely(k, xs[1..], ys);
      InterleaveFrom(k, xs[1..], ys, k.bucketTime(xs[0]));
      TimelyCons(k.ofBucket(xs[0]), Interleave(k, xs[1..], ys), k.time);
    } else {
      InterleaveTimely(k, xs, ys[1..]);
      InterleaveFrom(k, xs, ys[1..], k.rowTime(ys[0]));
      TimelyCons(k.ofRow(ys[0]), Interleave(k, xs, ys[1..]), k.time);
    }
  }

  lemma NothingTimely<E>(time: E -> u64)
    ensures Timely([], time)
  {
  }

  lemma {:induction false} BetweenElements<E>(es: seq<E>, time: E -> u64, from: u64, to: u64)
    ensures forall e :: e in Between(es, time, from, to) <==> e in es && from <= time(e) <= to
  {
    if es != [] {
      assert es == es[..|es| - 1] + [es[|es| - 1]];
      BetweenElements(es[..|es| - 1], time, from, to);
    }
  }

  lemma BetweenIn<E>(es: seq<E>, time: E -> u64, from: u64, to: u64, e: E)
    requires e in Between(es, time, from, to)
    ensures e in es
  {
    BetweenElements(es, time, from, to);
  }

  lemma BetweenCons<E>(e: E, rest: seq<E>, time: E -> u64, from: u64, to: u64)
    ensures Between([e] + rest, time, from, to) ==
            if from <= time(e) <= to then [e] + Between(rest, time, from, to) else Between(rest, time, from, to)
  {
    hide Between;
    BetweenConcat([e], rest, time, from, to);
    BetweenSnoc([], e, time, from, to);
    BetweenNone<E>([], time, from, to);
    assert [] + [e] == [e];
  }

  lemma HeadBucket<X, Y, E>(k: Source<X, Y, E>, x: X, xs: seq<X>, ys: seq<Y>)
    requires forall y :: y in ys ==> k.bucketTime(x) <= k.rowTime(y)
    ensures Interleave(k, [x] + xs, ys) == [k.ofBucket(x)] + Interleave(k, xs, ys)
  {
    assert ([x] + xs)[0] == x && ([x] + xs)[1..] == xs;
    if ys != [] { assert ys[0] in ys; }
  }

  lemma HeadRow<X, Y, E>(k: Source<X, Y, E>, y: Y, xs: seq<X>, ys: seq<Y>)
    requires forall x :: x in xs ==> k.rowTime(y) < k.bucketTime(x)
    ensures Interleave(k, xs, [y] + ys) == [k.ofRow(y)] + Interleave(k, xs, ys)
  {
    assert ([y] + ys)[0] == y && ([y] + ys)[1..] == ys;
    if xs != [] { assert xs[0] in xs; }
  }

  /** Selecting the window before or after interleaving makes no difference. */
  lemma {:induction false} BetweenInterleaved<X(!new), Y(!new), E(!new)>(k: Source<X, Y, E>, xs: seq<X>, ys: seq<Y>, from: u64, to: u64)
    requires Labels(k) && Timely(xs, k.bucketTime) && Timely(ys, k.rowTime)
    ensures Between(Interleave(k, xs, ys), k.time, from, to) ==
            Interleave(k, Between(xs, k.bucketTime, from, to), Between(ys, k.rowTime, from, to))
    decreases |xs| + |ys|
  {
    hide Between, Timely;
    if xs != [] { TailTimely(xs, k.bucketTime); assert xs == [xs[0]] + xs[1..]; }
    if ys != [] { TailTimely(ys, k.rowTime); assert ys == [ys[0]] + ys[1..]; }
    BetweenNone<X>([], k.bucketTime, from, to);
    BetweenNone<Y>([], k.rowTime, from, to);
    BetweenNone<E>([], k.time, from, to);
    if xs == [] && ys == [] {
    } else if ys == [] || (xs != [] && k.bucketTime(xs[0]) <= k.rowTime(ys[0])) {
      BetweenInterleaved(k, xs[1..], ys, from, to);
      BetweenCons(k.ofBucket(xs[0]), Interleave(k, xs[1..], ys), k.time, from, to);
      BetweenCons(xs[0], xs[1..], k.bucketTime, from, to);
      var b := Between(ys, k.rowTime, from, to);
      forall y | y in b ensures k.bucketTime(xs[0]) <= k.rowTime(y) { BetweenIn(ys, k.rowTime, from, to, y); }
      HeadBucket(k, xs[0], Between(xs[1..], k.bucketTime, from, to), b);
    } else {
      BetweenInterleaved(k, xs, ys[1..], from, to);
      BetweenCons(k.ofRow(ys[0]), Interleave(k, xs, ys[1..]), k.time, from, to);
      BetweenCons(ys[0], ys[1..], k.rowTime, from, to);
      var a := Between(xs, k.bucketTime, from, to);
      forall x | x in a ensures k.rowTime(ys[0]) < k.bucketTime(x) { BetweenIn(xs, k.bucketTime, from, to, x); }
      HeadRow(k, ys[0], a, Between(ys[1..], k.rowTime, from, to));
    }
  }

  lemma TimelySnoc<E>(es: seq<E>, e: E, time: E -> u64)
    requires Timely(es, time) && forall x :: x in es ==> time(x) <= time(e)
    ensures Timely(es + [e], time)
  {
  }

  lemma LastTimely<E>(es: seq<E>, e: E, time: E -> u64)
    requires Timely(es + [e], time)
    ensures Timely(es, time) && forall x :: x in es ==> time(x) <= time(e)
  {
    var s := es + [e];
    forall i, j | 0 <= i < j < |es| ensures time(es[i]) <= time(es[j]) { assert time(s[i]) <= time(s[j]); }
    forall x | x in es
      ensures time(x) <= time(e)
    {
      var i :| 0 <= i < |es| && es[i] == x;
      assert time(s[i]) <= time(s[|es|]);
    }
  }

  lemma {:induction false} WindowTimely<E>(es: seq<E>, time: E -> u64, from: u64, to: u64)
    requires Timely(es, time)
    ensures Timely(Between(es, time, from, to), time)
  {
    if es != [] {
      hide Between, Timely;
      var front, e := es[..|es| - 1], es[|es| - 1];
      assert es == front + [e];
      LastTimely(front, e, time);
      WindowTimely(front, time, from, to);
      BetweenSnoc(front, e, time, from, to);
      forall x | x in Between(front, time, from, to) ensures time(x) <= time(e) { BetweenIn(front, time, from, to, x); }
      TimelySnoc(Between(front, time, from, to), e, time);
      assert Between(front, time, from, to) + [] == Between(front, time, from, to);
    }
  }

  lemma SkipZero<E>(es: seq<E>, time: E -> u64)
    ensures SkipTo(es, time, 0) == es
  {
  }

  lemma {:induction false} BetweenTwice<E>(es: seq<E>, time: E -> u64, from: u64, to: u64)
    ensures Between(Between(es, time, from, W - 1), time, 0, to) == Between(es, time, from, to)
  {
    if es != [] {
      hide Between;
      var front, e := es[..|es| - 1], es[|es| - 1];
      assert es == front + [e];
      BetweenTwice(front, time, from, to);
      BetweenSnoc(front, e, time, from, W - 1);
      BetweenSnoc(front, e, time, from, to);
      BetweenSnoc(Between(front, time, from, W - 1), e, time, 0, to);
      assert Between(front, time, from, W - 1) + [] == Between(front, time, from, W - 1);
    }
  }

  lemma {:induction false} TakeAll<E>(es: seq<E>, time: E -> u64)
    ensures TakeTo(es, time, W - 1) == es
  {
    if es != [] {
      TakeAll(es[1..], time);
    }
  }

  /** The cursor past the earlier entries sees what is left of the window. */
  lemma SkipIsWindow<E>(es: seq<E>, time: E -> u64, from: u64)
    requires Timely(es, time)
    ensures SkipTo(es, time, from) == Between(es, time, from, W - 1)
  {
    hide Between, SkipTo, TakeTo;
    CursorsSelect(es, time, from, W - 1);
    TakeAll(SkipTo(es, time, from), time);
  }

  /** On ordered lists both kinds of cursor loops see the window of the interleaving, in time order. */
  lemma VisitedIsWindow<X(!new), Y(!new), E(!new)>(k: Source<X, Y, E>, xs: seq<X>, ys: seq<Y>, from: u64, to: u64)
    requires Labels(k) && Timely(xs, k.bucketTime) && Timely(ys, k.rowTime)
    ensures Visited(k, xs, ys, from, to) == Between(Interleave(k, xs, ys), k.time, from, to)
    ensures Passed(k, xs, ys, from, to) == Visited(k, xs, ys, from, to)
    ensures Timely(Visited(k, xs, ys, from, to), k.time)
  {
    hide Interleave, Between, TakeTo, SkipTo, Timely, Labels;
    CursorsSelect(xs, k.bucketTime, from, to);
    CursorsSelect(ys, k.rowTime, from, to);
    BetweenInterleaved(k, xs, ys, from, to);
    WindowTimely(xs, k.bucketTime, from, to);
    WindowTimely(ys, k.rowTime, from, to);
    InterleaveTimely(k, Between(xs, k.bucketTime, from, to), Between(ys, k.rowTime, from, to));
    SkipIsWindow(xs, k.bucketTime, from);
    SkipIsWindow(ys, k.rowTime, from);
    var rest := Interleave(k, SkipTo(xs, k.bucketTime, from), SkipTo(ys, k.rowTime, from));
    BetweenInterleaved(k, xs, ys, from, W - 1);
    WindowTimely(xs, k.bucketTime, from, W - 1);
    WindowTimely(ys, k.rowTime, from, W - 1);
    InterleaveTimely(k, SkipTo(xs, k.bucketTime, from), SkipTo(ys, k.rowTime, from));
    SkipZero(rest, k.time);
    CursorsSelect(rest, k.time, 0, to);
    BetweenTwice(Interleave(k, xs, ys), k.time, from, to);
  }

  /** A bucket comes before the rows of its time. */
  lemma {:induction false} InterleaveTies<X(!new), Y(!new), E(!new)>(k: Source<X, Y, E>, xs: seq<X>, ys: seq<Y>)
    requires Labels(k) && Timely(xs, k.bucketTime) && Timely(ys, k.rowTime)
    ensures Ordered(k, Interleave(k, xs, ys))
    decreases |xs| + |ys|
  {
    if xs == [] && ys == [] {
    } else if ys == [] || (xs != [] && k.bucketTime(xs[0]) <= k.rowTime(ys[0])) {
      hide Timely, Ordered;
      TailTimely(xs, k.bucketTime);
      if ys != [] { TailTimely(ys, k.rowTime); }
      InterleaveTies(k, xs[1..], ys);
      InterleaveFrom(k, xs[1..], ys, k.bucketTime(xs[0]));
      OrderedCons(k, k.ofBucket(xs[0]), Interleave(k, xs[1..], ys));
    } else {
      hide Timely, Ordered;
      TailTimely(ys, k.rowTime);
      if xs != [] { TailTimely(xs, k.bucketTime); }
      InterleaveTies(k, xs, ys[1..]);
      InterleaveBehind(k, xs, ys[1..], k.rowTime(ys[0]));
      OrderedCons(k, k.ofRow(ys[0]), Interleave(k, xs, ys[1..]));
    }
  }

  lemma OrderedCons<X, Y, E>(k: Source<X, Y, E>, e: E, rest: seq<E>)
    requires Ordered(k, rest) && forall x :: x in rest ==> After(k, e, x)
    ensures Ordered(k, [e] + rest)
  {
    hide After;
    var s := [e] + rest;
    forall i, j | 0 <= i < j < |s|
      ensures After(k, s[i], s[j])
    {
      assert s[j] == rest[j - 1] && (i > 0 ==> s[i] == rest[i - 1]);
    }
  }

  /** Behind a row there are rows that are not earlier and buckets that are later. */
  lemma {:induction false} InterleaveBehind<X(!new), Y(!new), E(!new)>(k: Source<X, Y, E>, xs: seq<X>, ys: seq<Y>, t: u64)
    requires Labels(k)
    requires (forall x :: x in xs ==> t < k.bucketTime(x)) && (forall y :: y in ys ==> t <= k.rowTime(y))
    ensures forall e :: e in Interleave(k, xs, ys) ==> t <= k.time(e) && (!k.raw(e) ==> t < k.time(e))
    decreases |xs| + |ys|
  {
    if xs == [] && ys == [] {
    } else if ys == [] || (xs != [] && k.bucketTime(xs[0]) <= k.rowTime(ys[0])) {
      InterleaveBehind(k, xs[1..], ys, t);
    } else {
      InterleaveBehind(k, xs, ys[1..], t);
    }
  }

  /** What the cursors see is the window, whatever way it is written down. */
  lemma VisitedWindow<X(!new), Y(!new), E(!new)>(k: Source<X, Y, E>, xs: seq<X>, ys: seq<Y>, from: u64, to: u64)
    requires Labels(k) && Timely(xs, k.bucketTime) && Timely(ys, k.rowTime)
    ensures WindowOf(k, xs, ys, from, to, Visited(k, xs, ys, from, to))
  {
    hide Interleave, Between, TakeTo, SkipTo, Only, Timely, Labels, Map;
    CursorsSelect(xs, k.bucketTime, from, to);
    CursorsSelect(ys, k.rowTime, from, to);
    WindowTimely(xs, k.bucketTime, from, to);
    WindowTimely(ys, k.rowTime, from, to);
    InterleaveParts(k, Between(xs, k.bucketTime, from, to), Between(ys, k.rowTime, from, to));
    InterleaveTies(k, Between(xs, k.bucketTime, from, to), Between(ys, k.rowTime, from, to));
    OrderedPairs(k, Visited(k, xs, ys, from, to));
  }

  lemma OrderedPairs<X, Y, E>(k: Source<X, Y, E>, es: seq<E>)
    requires Ordered(k, es)
    ensures forall i, j :: 0 <= i < j < |es| ==> k.time(es[i]) <= k.time(es[j])
    ensures forall i, j :: 0 <= i < j < |es| && k.raw(es[i]) && !k.raw(es[j]) ==> k.time(es[i]) < k.time(es[j])
  {
    assert forall i, j :: 0 <= i < j < |es| ==> After(k, es[i], es[j]);
  }

  /** In a series with the layout, the stream is what the cursors see exactly when it does not go back. */
  lemma StreamIsMemory<X(!new), Y(!new), E(!new)>(k: Source<X, Y, E>, blocks: seq<Block>)
    requires Labels(k) && (forall b :: b in blocks ==> Holds(k, b)) && AllGood(blocks) && BucketsFirst(blocks)
    requires Timely(BucketsIn(k, blocks), k.bucketTime) && Timely(RowsIn(k, blocks), k.rowTime)
    ensures StreamOf(k, blocks) == Interleave(k, BucketsIn(k, blocks), RowsIn(k, blocks)) <==> Timely(StreamOf(k, blocks), k.time)
  {
    hide StreamOf, BucketsIn, RowsIn, Interleave, Timely, Labels, Holds, AllGood, BucketsFirst;
    InterleaveTimely(k, BucketsIn(k, blocks), RowsIn(k, blocks));
    if Timely(StreamOf(k, blocks), k.time) {
      TimelyOrdered(k, blocks);
      StreamInterleaves(k, blocks);
    }
  }

  // ----- Buckets before raw entries are enough for time order -----

  lemma {:induction false} StreamFrom<X(!new), Y(!new), E(!new)>(k: Source<X, Y, E>, blocks: seq<Block>, e: E)
    requires Labels(k) && e in StreamOf(k, blocks)
    ensures if k.raw(e) then exists y :: y in RowsIn(k, blocks) && k.ofRow(y) == e
            else exists x :: x in BucketsIn(k, blocks) && k.ofBucket(x) == e
  {
    hide StreamOf, BucketsIn, RowsIn, Map;
    if blocks == [] {
      NothingStreamed(k, blocks);
    } else {
      var front, b := blocks[..|blocks| - 1], blocks[|blocks| - 1];
      StreamStep(k, blocks);
      if e in StreamOf(k, front) {
        StreamFrom(k, front, e);
      } else if e in Map(k.buckets(b), k.ofBucket) {
        var x := MapFrom(k.buckets(b), k.ofBucket, e);
      } else {
        var y := MapFrom(k.rows(b), k.ofRow, e);
      }
    }
  }

  lemma EnteredTimely<X(!new), Y(!new), E(!new)>(k: Source<X, Y, E>, b: Block)
    requires Labels(k) && Holds(k, b) && Timely(k.buckets(b), k.bucketTime) && Timely(k.rows(b), k.rowTime)
    ensures Timely(Entered(k, b), k.time)
  {
  }

  lemma TimelyConcat<E>(a: seq<E>, b: seq<E>, time: E -> u64)
    requires Timely(a, time) && Timely(b, time) && forall d, e :: d in a && e in b ==> time(d) <= time(e)
    ensures Timely(a + b, time)
  {
    forall i, j | 0 <= i < j < |a + b|
      ensures time((a + b)[i]) <= time((a + b)[j])
    {
      if i < |a| <= j { assert a[i] in a && b[j - |a|] in b; }
    }
  }

  lemma TimelySuffix<E>(a: seq<E>, b: seq<E>, time: E -> u64)
    requires Timely(a + b, time)
    ensures Timely(a, time) && Timely(b, time) && forall d, e :: d in a && e in b ==> time(d) <= time(e)
  {
    TimelyParts(a, b, time);
    forall i, j | 0 <= i < j < |b| ensures time(b[i]) <= time(b[j]) {
      assert b[i] == (a + b)[|a| + i] && b[j] == (a + b)[|a| + j];
    }
    forall d, e | d in a && e in b
      ensures time(d) <= time(e)
    {
      var i :| 0 <= i < |a| && a[i] == d;
      var j :| 0 <= j < |b| && b[j] == e;
      assert (a + b)[i] == d && (a + b)[|a| + j] == e;
    }
  }

  lemma LastBehind<X(!new), Y(!new), E(!new)>(k: Source<X, Y, E>, blocks: seq<Block>, d: E, e: E)
    requires Labels(k) && (forall b :: b in blocks ==> Holds(k, b)) && AllGood(blocks) && BucketsFirst(blocks) && blocks != []
    requires Timely(BucketsIn(k, blocks), k.bucketTime) && Timely(RowsIn(k, blocks), k.rowTime)
    requires forall x, y :: x in BucketsIn(k, blocks) && y in RowsIn(k, blocks) ==> k.bucketTime(x) <= k.rowTime(y)
    requires d in StreamOf(k, blocks[..|blocks| - 1]) && e in Entered(k, blocks[|blocks| - 1])
    ensures k.time(d) <= k.time(e)
  {
    hide StreamOf, Map, Holds, EntryTimes, Family, Raw, BucketsFirst, AllGood, Timely, BucketsIn, RowsIn;
    var front, b := blocks[..|blocks| - 1], blocks[|blocks| - 1];
    assert forall c :: c in front ==> c in blocks;
    StreamStep(k, blocks);
    StreamFrom(k, front, d);
    TimelySuffix(BucketsIn(k, front), k.buckets(b), k.bucketTime);
    TimelySuffix(RowsIn(k, front), k.rows(b), k.rowTime);
    if e in Map(k.buckets(b), k.ofBucket) {
      var x := MapFrom(k.buckets(b), k.ofBucket, e);
      if k.raw(d) {
        StreamWithin(k, front, d);
        EnteredAt(k, b, e);
        var c :| c in front && k.time(d) in EntryTimes(c) && Family(c) == k.family && (k.raw(d) <==> Raw(c));
        LaterBucket(blocks, c, k.time(d), k.time(e));
      }
    } else {
      var y := MapFrom(k.rows(b), k.ofRow, e);
    }
  }

  /** If no bucket is behind a raw entry in time, a series with the layout streams in time order. */
  lemma {:induction false} LayeredTimely<X(!new), Y(!new), E(!new)>(k: Source<X, Y, E>, blocks: seq<Block>)
    requires Labels(k) && (forall b :: b in blocks ==> Holds(k, b)) && AllGood(blocks) && BucketsFirst(blocks)
    requires Timely(BucketsIn(k, blocks), k.bucketTime) && Timely(RowsIn(k, blocks), k.rowTime)
    requires forall x, y :: x in BucketsIn(k, blocks) && y in RowsIn(k, blocks) ==> k.bucketTime(x) <= k.rowTime(y)
    ensures Timely(StreamOf(k, blocks), k.time)
  {
    hide StreamOf, BucketsIn, RowsIn, Entered, Holds, Labels, BucketsFirst, AllGood, Timely;
    if blocks == [] {
      NothingStreamed(k, blocks);
      NothingTimely(k.time);
    } else {
      var front, b := blocks[..|blocks| - 1], blocks[|blocks| - 1];
      assert (forall c :: c in front ==> c in blocks) && b in blocks;
      FrontKeeps(blocks);
      StreamStep(k, blocks);
      TimelySuffix(BucketsIn(k, front), k.buckets(b), k.bucketTime);
      TimelySuffix(RowsIn(k, front), k.rows(b), k.rowTime);
      LayeredTimely(k, front);
      EnteredTimely(k, b);
      forall d, e | d in StreamOf(k, front) && e in Entered(k, b)
        ensures k.time(d) <= k.time(e)
      {
        LastBehind(k, blocks, d, e);
      }
      TimelyConcat(StreamOf(k, front), Entered(k, b), k.time);
    }
  }

  // ----- Reading a stored series -----

  ghost predicate Opening<X, Y, E>(k: Source<X, Y, E>, open: Segment -> Result<seq<E>>, blocks: seq<Block>)
    requires AllGood(blocks)
  {
    forall b :: b in blocks ==> Opens(b, open, Enter(k), k.time)
  }

  /** Reading the segments of a series with the layout, whole ones skipped, gives the window of its stream. */
  lemma ReadsStream<X, Y, E>(k: Source<X, Y, E>, s: bytes, blocks: seq<Block>, open: Segment -> Result<seq<E>>, from: u64, to: u64)
    requires Backed(s, blocks) && Opening(k, open, blocks)
    ensures ReadAll(SegmentsIn(s), open, k.time, from, to) == Read(Between(StreamOf(k, blocks), k.time, from, to), None)
    ensures ScanSeries(s).error.None?
  {
    hide AbsorbAll, AllReadable, Written, BucketsFirst, Stream, ReadAll, Between, SegmentsOf, Appendable, Decoded, Opens, AllGood;
    BackedDecodes(s, blocks);
    SkippingLosesNothing(blocks, open, Enter(k), k.time, from, to);
  }

  /** If the stream of a series with the layout does not go back in time, reading the segments, the two
      cursor loops and the plain window of both lists give the same entries in the same order. */
  lemma ReadsAgree<X(!new), Y(!new), E(!new)>(k: Source<X, Y, E>, s: bytes, blocks: seq<Block>, open: Segment -> Result<seq<E>>,
                                              from: u64, to: u64)
    requires Backed(s, blocks) && Opening(k, open, blocks)
    requires Labels(k) && forall b :: b in blocks ==> Holds(k, b)
    requires Timely(BucketsIn(k, blocks), k.bucketTime) && Timely(RowsIn(k, blocks), k.rowTime)
    requires Timely(StreamOf(k, blocks), k.time)
    ensures var xs, ys := BucketsIn(k, blocks), RowsIn(k, blocks);
            && ReadAll(SegmentsIn(s), open, k.time, from, to) == Read(Visited(k, xs, ys, from, to), None)
            && ScanSeries(s).error.None?
            && Passed(k, xs, ys, from, to) == Visited(k, xs, ys, from, to)
            && Visited(k, xs, ys, from, to) == Between(Interleave(k, xs, ys), k.time, from, to)
            && Timely(Visited(k, xs, ys, from, to), k.time)
  {
    hide AbsorbAll, AllReadable, Written, Stream, ReadAll, Between, SegmentsOf, Appendable, Decoded, Opening, Labels, Holds,
         Timely, Visited, Passed, Interleave, StreamOf, BucketsIn, RowsIn, BucketsFirst, AllGood;
    ReadsStream(k, s, blocks, open, from, to);
    StreamIsMemory(k, blocks);
    VisitedIsWindow(k, BucketsIn(k, blocks), RowsIn(k, blocks), from, to);
  }
}
