/** Reading a stored series segment by segment, skipping the segments outside the window. */
module Streams {
  import opened Words
  import opened Varint
  import opened Reader
  import opened Blocks
  import opened Segments
  import opened AppendLaws
  import opened Runs

  function Between<E>(es: seq<E>, time: E -> u64, from: u64, to: u64): seq<E> {
    if es == [] then [] else
    var e := es[|es| - 1];
    Between(es[..|es| - 1], time, from, to) + if from <= time(e) <= to then [e] else []
  }

  predicate Outside(x: Segment, from: u64, to: u64) { x.to < from || x.from > to }

  /** Reads one more segment, unless there was an error or the segment lies outside the window. */
  function Further<E>(before: Read<E>, x: Segment, open: Segment -> Result<seq<E>>, time: E -> u64, from: u64, to: u64): Read<E> {
    if before.error.Some? || Outside(x, from, to) then before else
    match open(x)
    case Err(e) => Read(before.entries, Some(e))
    case Ok(es) => Read(before.entries + Between(es, time, from, to), None)
  }

  function ReadAll<E>(xs: seq<Segment>, open: Segment -> Result<seq<E>>, time: E -> u64, from: u64, to: u64): Read<E> {
    if xs == [] then Read([], None)
    else Further(ReadAll(xs[..|xs| - 1], open, time, from, to), xs[|xs| - 1], open, time, from, to)
  }

  /** What a grouping reader yields for any bytes: up to an error it yields closed groups only. */
  datatype Yielded<+A> = Yielded(out: seq<(u64, A)>, error: Option<Error>)

  function Streamed<E, A>(g: Grouping<E, A>, s: bytes, open: Segment -> Result<seq<E>>, time: E -> u64,
                          from: u64, to: u64): Yielded<A> {
    var r := ReadAll(SegmentsIn(s), open, time, from, to);
    var run := RunAll(g, r.entries);
    if r.error.Some? then Yielded(run.out, r.error)
    else if ScanSeries(s).error.Some? then Yielded(run.out, ScanSeries(s).error)
    else Yielded(Flush(g, run), None)
  }

  lemma {:induction false} ReadAllSnoc<E>(xs: seq<Segment>, x: Segment, open: Segment -> Result<seq<E>>, time: E -> u64, from: u64, to: u64)
    ensures ReadAll(xs + [x], open, time, from, to) == Further(ReadAll(xs, open, time, from, to), x, open, time, from, to)
  {
    assert (xs + [x])[..|xs|] == xs;
  }

  lemma {:induction false} ReadFails<E>(xs: seq<Segment>, n: nat, open: Segment -> Result<seq<E>>, time: E -> u64, from: u64, to: u64)
    requires n <= |xs| && ReadAll(xs[..n], open, time, from, to).error.Some?
    ensures ReadAll(xs, open, time, from, to) == ReadAll(xs[..n], open, time, from, to)
  {
    if n == |xs| {
      assert xs[..n] == xs;
    } else {
      assert xs[..|xs| - 1][..n] == xs[..n];
      ReadFails(xs[..|xs| - 1], n, open, time, from, to);
    }
  }

  // ----- Reading entry by entry -----

  /** Reads one more segment whose entries come out one at a time, up to its first error. */
  function FurtherOf<E>(before: Read<E>, x: Segment, items: Segment -> Read<E>, time: E -> u64, from: u64, to: u64): Read<E> {
    if before.error.Some? || Outside(x, from, to) then before
    else Read(before.entries + Between(items(x).entries, time, from, to), items(x).error)
  }

  function ReadEach<E>(xs: seq<Segment>, items: Segment -> Read<E>, time: E -> u64, from: u64, to: u64): Read<E> {
    if xs == [] then Read([], None)
    else FurtherOf(ReadEach(xs[..|xs| - 1], items, time, from, to), xs[|xs| - 1], items, time, from, to)
  }

  /** What comes out of a stored series, in order, up to the first error of a segment or of the scan. */
  function ReadIn<E>(s: bytes, items: Segment -> Read<E>, time: E -> u64, from: u64, to: u64): Read<E> {
    var r := ReadEach(SegmentsIn(s), items, time, from, to);
    if r.error.Some? then r else Read(r.entries, ScanSeries(s).error)
  }

  /** The entries before the first one that is refused, and why it is. */
  function Until<E>(es: seq<E>, refused: E -> Option<Error>): Read<E> {
    if es == [] then Read([], None) else
    var before, e := Until(es[..|es| - 1], refused), es[|es| - 1];
    if before.error.Some? then before
    else if refused(e).Some? then Read(before.entries, refused(e))
    else Read(before.entries + [e], None)
  }

  /** An entry that is refused ends the reading before any later error is met. */
  function Used<E>(r: Read<E>, refused: E -> Option<Error>): Read<E> {
    if Until(r.entries, refused).error.Some? then Until(r.entries, refused) else r
  }

  /** The groups that are reported: an error leaves the last one open. */
  function Closed<E, A>(g: Grouping<E, A>, r: Read<E>): seq<(u64, A)> {
    if r.error.Some? then RunAll(g, r.entries).out else Grouped(g, r.entries)
  }

  /** Reading a segment as a whole: all its entries or its error. */
  function Whole<E>(r: Read<E>): Result<seq<E>> {
    match r.error
    case None => Ok(r.entries)
    case Some(e) => Err(e)
  }

  lemma {:induction false} ReadEachSnoc<E>(xs: seq<Segment>, x: Segment, items: Segment -> Read<E>, time: E -> u64, from: u64, to: u64)
    ensures ReadEach(xs + [x], items, time, from, to) == FurtherOf(ReadEach(xs, items, time, from, to), x, items, time, from, to)
  {
    assert (xs + [x])[..|xs|] == xs;
  }

  lemma {:induction false} ReadEachFails<E>(xs: seq<Segment>, n: nat, items: Segment -> Read<E>, time: E -> u64, from: u64, to: u64)
    requires n <= |xs| && ReadEach(xs[..n], items, time, from, to).error.Some?
    ensures ReadEach(xs, items, time, from, to) == ReadEach(xs[..n], items, time, from, to)
  {
    if n == |xs| {
      assert xs[..n] == xs;
    } else {
      assert xs[..|xs| - 1][..n] == xs[..n];
      ReadEachFails(xs[..|xs| - 1], n, items, time, from, to);
    }
  }

  /** Where no segment has an error, reading entry by entry is reading segment by segment. */
  lemma {:induction false} EachIsAll<E>(xs: seq<Segment>, items: Segment -> Read<E>, open: Segment -> Result<seq<E>>,
                                        time: E -> u64, from: u64, to: u64)
    requires forall x :: x in xs ==> open(x) == Whole(items(x))
    ensures var r := ReadAll(xs, open, time, from, to);
            && ReadEach(xs, items, time, from, to).error == r.error
            && (r.error.None? ==> ReadEach(xs, items, time, from, to) == r)
  {
    if xs != [] {
      var front, x := xs[..|xs| - 1], xs[|xs| - 1];
      assert xs == front + [x] && x in xs;
      EachIsAll(front, items, open, time, from, to);
    }
  }

  lemma {:induction false} UntilSnoc<E>(es: seq<E>, e: E, refused: E -> Option<Error>)
    ensures var before := Until(es, refused);
            Until(es + [e], refused) == if before.error.Some? then before
                                        else if refused(e).Some? then Read(before.entries, refused(e))
                                        else Read(before.entries + [e], None)
  {
    assert (es + [e])[..|es|] == es;
  }

  lemma UntilNothing<E>(es: seq<E>, refused: E -> Option<Error>)
    requires es == []
    ensures Until(es, refused) == Read([], None)
  {
  }

  lemma {:induction false} UntilConcat<E>(a: seq<E>, b: seq<E>, refused: E -> Option<Error>)
    ensures var x, y := Until(a, refused), Until(b, refused);
            Until(a + b, refused) == if x.error.Some? then x else Read(x.entries + y.entries, y.error)
  {
    hide Until;
    var x := Until(a, refused);
    if b == [] {
      UntilNothing(b, refused);
      assert a + b == a && x.entries + [] == x.entries;
    } else {
      var front, e := b[..|b| - 1], b[|b| - 1];
      UntilConcat(a, front, refused);
      UntilSnoc(a + front, e, refused);
      UntilSnoc(front, e, refused);
      assert a + b == a + front + [e] && b == front + [e];
      assert x.entries + (Until(front, refused).entries + [e]) == x.entries + Until(front, refused).entries + [e];
    }
  }

  /** Nothing is refused exactly when no entry is, and then every entry is used. */
  lemma {:induction false} UntilAll<E>(es: seq<E>, refused: E -> Option<Error>)
    ensures Until(es, refused).error.None? <==> forall e :: e in es ==> refused(e).None?
    ensures Until(es, refused).error.None? ==> Until(es, refused).entries == es
  {
    if es != [] {
      var front, e := es[..|es| - 1], es[|es| - 1];
      assert es == front + [e];
      UntilAll(front, refused);
      assert forall x :: x in front ==> x in es;
    }
  }

  /** An entry that is refused early stays the first one. */
  lemma {:induction false} UntilStays<E>(xs: seq<Segment>, n: nat, items: Segment -> Read<E>, refused: E -> Option<Error>,
                                         time: E -> u64, from: u64, to: u64)
    requires n <= |xs| && Until(ReadEach(xs[..n], items, time, from, to).entries, refused).error.Some?
    ensures Until(ReadEach(xs, items, time, from, to).entries, refused) ==
            Until(ReadEach(xs[..n], items, time, from, to).entries, refused)
  {
    if n == |xs| {
      assert xs[..n] == xs;
    } else {
      hide Until, Between;
      var front, x := xs[..|xs| - 1], xs[|xs| - 1];
      assert front[..n] == xs[..n] && xs == front + [x];
      UntilStays(front, n, items, refused, time, from, to);
      ReadEachSnoc(front, x, items, time, from, to);
      UntilConcat(ReadEach(front, items, time, from, to).entries, Between(items(x).entries, time, from, to), refused);
    }
  }

  // ----- Skipping loses nothing -----

  lemma {:induction false} BetweenSnoc<E>(es: seq<E>, e: E, time: E -> u64, from: u64, to: u64)
    ensures Between(es + [e], time, from, to) == Between(es, time, from, to) + if from <= time(e) <= to then [e] else []
  {
    assert (es + [e])[..|es|] == es;
  }

  lemma {:induction false} BetweenConcat<E>(a: seq<E>, b: seq<E>, time: E -> u64, from: u64, to: u64)
    ensures Between(a + b, time, from, to) == Between(a, time, from, to) + Between(b, time, from, to)
  {
    if b == [] {
      assert a + b == a;
    } else {
      assert (a + b)[..|a| + |b| - 1] == a + b[..|b| - 1];
      BetweenConcat(a, b[..|b| - 1], time, from, to);
    }
  }

  lemma {:induction false} BetweenNone<E>(es: seq<E>, time: E -> u64, from: u64, to: u64)
    requires forall e :: e in es ==> time(e) < from || time(e) > to
    ensures Between(es, time, from, to) == []
  {
    if es != [] {
      assert es == es[..|es| - 1] + [es[|es| - 1]];
      BetweenNone(es[..|es| - 1], time, from, to);
    }
  }

  /** The entries of some blocks, in the order they are stored. */
  function Stream<E>(blocks: seq<Block>, entries: Block -> seq<E>): seq<E> {
    if blocks == [] then [] else Stream(blocks[..|blocks| - 1], entries) + entries(blocks[|blocks| - 1])
  }

  /** Opening the segment of a block gives the block's entries, at times of the block. */
  ghost predicate Opens<E>(b: Block, open: Segment -> Result<seq<E>>, entries: Block -> seq<E>, time: E -> u64)
    requires Good(b)
  {
    && open(SegmentOf(b)) == Ok(entries(b))
    && forall e :: e in entries(b) ==> time(e) in EntryTimes(b)
  }

  lemma {:induction false} SkippingLosesNothing<E>(blocks: seq<Block>, open: Segment -> Result<seq<E>>, entries: Block -> seq<E>,
                                                   time: E -> u64, from: u64, to: u64)
    requires AllGood(blocks) && forall b :: b in blocks ==> Opens(b, open, entries, time)
    ensures ReadAll(SegmentsOf(blocks), open, time, from, to) == Read(Between(Stream(blocks, entries), time, from, to), None)
  {
    if blocks == [] {
      assert SegmentsOf(blocks) == [];
    } else {
      hide ReadAll, Between, Good, SegmentOf, SegmentsOf, Opens;
      var n := |blocks| - 1;
      var front, b := blocks[..n], blocks[n];
      SegmentsSnoc(blocks);
      assert blocks == front + [b] && Opens(b, open, entries, time);
      SkippingLosesNothing(front, open, entries, time, from, to);
      ReadAllSnoc(SegmentsOf(front), SegmentOf(b), open, time, from, to);
      ReadNext(Stream(front, entries), b, open, entries, time, from, to);
    }
  }

  /** One more segment: whatever the window shows of it is read, and nothing is read of a segment outside. */
  lemma ReadNext<E>(before: seq<E>, b: Block, open: Segment -> Result<seq<E>>, entries: Block -> seq<E>,
                    time: E -> u64, from: u64, to: u64)
    requires Good(b) && Opens(b, open, entries, time)
    ensures Further(Read(Between(before, time, from, to), None), SegmentOf(b), open, time, from, to) ==
            Read(Between(before + entries(b), time, from, to), None)
  {
    hide Between, Encodes, Payload, EntryTimes;
    BetweenConcat(before, entries(b), time, from, to);
    if Outside(SegmentOf(b), from, to) {
      GoodBounds(b);
      BetweenNone(entries(b), time, from, to);
      assert Between(before, time, from, to) + [] == Between(before, time, from, to);
    }
  }

  // ----- Windows on ordered entries -----

  predicate Timely<E>(es: seq<E>, time: E -> u64) {
    forall i, j :: 0 <= i < j < |es| ==> time(es[i]) <= time(es[j])
  }

  /** The cursor past the entries before the window. */
  function SkipTo<E>(es: seq<E>, time: E -> u64, from: u64): seq<E> {
    if es == [] || time(es[0]) >= from then es else SkipTo(es[1..], time, from)
  }

  /** The entries up to the first one behind the window. */
  function TakeTo<E>(es: seq<E>, time: E -> u64, to: u64): seq<E> {
    if es == [] || time(es[0]) > to then [] else [es[0]] + TakeTo(es[1..], time, to)
  }

  lemma TailTimely<E>(es: seq<E>, time: E -> u64)
    requires Timely(es, time) && es != []
    ensures Timely(es[1..], time)
    ensures forall e :: e in es ==> time(es[0]) <= time(e)
  {
    forall i, j | 0 <= i < j < |es| - 1 ensures time(es[1..][i]) <= time(es[1..][j]) {
      assert time(es[i + 1]) <= time(es[j + 1]);
    }
    forall e | e in es
      ensures time(es[0]) <= time(e)
    {
      var i :| 0 <= i < |es| && es[i] == e;
      assert i > 0 ==> time(es[0]) <= time(es[i]);
    }
  }

  lemma BetweenHead<E>(e: E, rest: seq<E>, time: E -> u64, from: u64, to: u64)
    ensures var w := Between(rest, time, from, to);
            Between([e] + rest, time, from, to) == if from <= time(e) <= to then [e] + w else w
  {
    hide Between;
    BetweenConcat([e], rest, time, from, to);
    BetweenSnoc([], e, time, from, to);
    BetweenNone<E>([], time, from, to);
    assert [] + [e] == [e] && [] + Between(rest, time, from, to) == Between(rest, time, from, to);
  }

  /** On ordered entries the two cursors select the window. */
  lemma {:induction false} CursorsSelect<E>(es: seq<E>, time: E -> u64, from: u64, to: u64)
    requires Timely(es, time)
    ensures TakeTo(SkipTo(es, time, from), time, to) == Between(es, time, from, to)
    decreases |es|
  {
    if es != [] {
      hide Between, Timely;
      var e, rest := es[0], es[1..];
      TailTimely(es, time);
      CursorsSelect(rest, time, from, to);
      assert es == [e] + rest;
      BetweenHead(e, rest, time, from, to);
      if time(e) >= from {
        SkipNothing(rest, time, from);
        if time(e) > to {
          BetweenNone(rest, time, from, to);
        }
      }
    }
  }

  lemma {:induction false} SkipNothing<E>(es: seq<E>, time: E -> u64, from: u64)
    requires forall e :: e in es ==> time(e) >= from
    ensures SkipTo(es, time, from) == es
  {
    if es != [] { assert es[0] in es; }
  }
}
