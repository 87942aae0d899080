/** The rank query, run on the encoded bins, and how close its answer is. */
module Quantiles {
  import opened Words
  import opened Varint
  import opened Reader
  import opened FloatModel
  import opened Keys
  import opened Histograms
  import opened Observations
  import opened SketchCodec

  // ----- The query on stored bins -----

  function Held(es: seq<Entry>): nat {
    if es == [] then 0 else Held(es[..|es| - 1]) + es[|es| - 1].1
  }

  /** The key of the bin in which a running count first reaches `target`. */
  function Nth(es: seq<Entry>, target: nat): int {
    if es == [] then 0
    else if target <= es[0].1 then es[0].0
    else Nth(es[1..], target - es[0].1)
  }

  /** The answer for a rank: the negative bins from the last key down, then zero, then the positive bins. */
  function Answer(zero: nat, negative: seq<Entry>, positive: seq<Entry>, rank: nat): real {
    if rank <= Held(negative) then -BinValue(Nth(negative, Held(negative) - rank + 1))
    else if rank - Held(negative) <= zero then 0.0
    else BinValue(Nth(positive, rank - Held(negative) - zero))
  }

  lemma {:induction false} HeldConcat(a: seq<Entry>, b: seq<Entry>)
    ensures Held(a + b) == Held(a) + Held(b)
  {
    if b == [] {
      assert a + b == a;
    } else {
      assert (a + b)[..|a| + |b| - 1] == a + b[..|b| - 1];
      HeldConcat(a, b[..|b| - 1]);
    }
  }

  lemma HeldOne(e: Entry)
    ensures Held([e]) == e.1
  {
    assert [e][..0] == [];
  }

  /** The bin found is the one in which the running count passes the target. */
  lemma {:induction false} NthReaches(es: seq<Entry>, target: nat) returns (i: nat)
    requires 0 < target <= Held(es)
    ensures i < |es| && Nth(es, target) == es[i].0
    ensures Held(es[..i]) < target <= Held(es[..i + 1])
  {
    assert es == [es[0]] + es[1..];
    HeldConcat([es[0]], es[1..]);
    HeldOne(es[0]);
    if target <= es[0].1 {
      i := 0;
      assert es[..1] == [es[0]];
    } else {
      var j := NthReaches(es[1..], target - es[0].1);
      i := j + 1;
      assert es[..i] == [es[0]] + es[1..][..j];
      assert es[..i + 1] == [es[0]] + es[1..][..j + 1];
      HeldConcat([es[0]], es[1..][..j]);
      HeldConcat([es[0]], es[1..][..j + 1]);
    }
  }

  /** Where the negative bins, the zero count and the positive bins of a payload are. */
  predicate Payload(data: bytes, zero: nat, negative: seq<Entry>, positive: seq<Entry>) {
    && ReadUvarint(data).Got? && zero == ReadUvarint(data).value
    && var rest := ReadUvarint(data).rest;
    && ReadBins(rest).Got? && negative == ReadBins(rest).value
    && ReadBins(ReadBins(rest).rest).Got? && positive == ReadBins(ReadBins(rest).rest).value
  }

  // ----- The query as it runs, on any bytes -----

  /** The bins read until the end or the first error, and where that leaves the reader. */
  datatype Walk = Walk(entries: seq<Entry>, end: Position)

  function WalkEntries(data: bytes, n: nat, first: bool, current: i64): Walk
    decreases n
  {
    if n == 0 then Walk([], Got((), data)) else
    match ReadWords(data, 2)
    case Bad(_) => Walk([], Bad(Shape))
    case Got(w, rest) =>
      if w[1] == 0 then Walk([], Bad(Shape)) else
      var key := NextKey(first, current, w[0]);
      var more := WalkEntries(rest, n - 1, false, key);
      Walk([(key, w[1])] + more.entries, more.end)
  }

  function WalkBins(at: Position): Walk {
    match at
    case Bad(e) => Walk([], Bad(e))
    case Got(_, data) =>
      match ReadUvarint(data)
      case Bad(e) => Walk([], Bad(e))
      case Got(n, rest) => if n > MAX_BINS then Walk([], Bad(Large)) else WalkEntries(rest, n, true, 0)
  }

  /** A walk without an error is a read. */
  lemma {:induction false} WalkReads(data: bytes, n: nat, first: bool, current: i64)
    ensures match WalkEntries(data, n, first, current).end
            case Bad(e) => ReadEntries(data, n, first, current) == Bad(e)
            case Got(_, rest) => ReadEntries(data, n, first, current) == Got(WalkEntries(data, n, first, current).entries, rest)
    decreases n
  {
    if n > 0 && ReadWords(data, 2).Got? {
      var Got(w, rest) := ReadWords(data, 2);
      WalkReads(rest, n - 1, false, NextKey(first, current, w[0]));
    }
  }

  lemma WalkOfBins(data: bytes)
    ensures ReadBins(data).Got? ==> WalkBins(Got((), data)) == Walk(ReadBins(data).value, Got((), ReadBins(data).rest))
    ensures ReadBins(data).Bad? ==> WalkBins(Got((), data)).end == Bad(ReadBins(data).error)
  {
    hide ReadEntries, WalkEntries;
    if ReadUvarint(data).Got? {
      var n, rest := ReadUvarint(data).value, ReadUvarint(data).rest;
      WalkReads(rest, n, true, 0);
      if WalkEntries(rest, n, true, 0).end.Got? {
        assert WalkEntries(rest, n, true, 0).end.value == ();
      }
    }
  }

  /** `all` is the whole walk when `es` has been read and `n` bins are to come. */
  ghost predicate Walking(all: Walk, es: seq<Entry>, data: bytes, n: nat, first: bool, current: i64) {
    var more := WalkEntries(data, n, first, current);
    all == Walk(es + more.entries, more.end)
  }

  lemma WalkNothing(e: Error)
    ensures WalkBins(Bad(e)) == Walk([], Bad(e)) && Held([]) == 0
    ensures forall i: nat :: i == 0 ==> Found(Walk([], Bad(e)), i) == None
    ensures forall t :: Passing([], 0, t) == 0 && Covering([], t) == 0
  {
  }

  lemma WalkStart(at: Position, n: nat, data: bytes)
    requires at.Got? && ReadUvarint(at.rest) == Got(n, data) && n <= MAX_BINS
    ensures Walking(WalkBins(at), [], data, n, true, 0)
  {
    assert [] + WalkBins(at).entries == WalkBins(at).entries;
  }

  lemma WalkStep(all: Walk, es: seq<Entry>, data: bytes, n: nat, first: bool, current: i64)
    requires n > 0 && Walking(all, es, data, n, first, current)
    ensures match ReadWords(data, 2)
            case Bad(_) => all == Walk(es, Bad(Shape))
            case Got(w, rest) =>
              if w[1] == 0 then all == Walk(es, Bad(Shape))
              else var key := NextKey(first, current, w[0]);
                   Walking(all, es + [(key, w[1])], rest, n - 1, false, key)
  {
    assert es + [] == es;
    if ReadWords(data, 2).Got? && ReadWords(data, 2).value[1] != 0 {
      var Got(w, rest) := ReadWords(data, 2);
      var key := NextKey(first, current, w[0]);
      var more := WalkEntries(rest, n - 1, false, key).entries;
      assert es + ([(key, w[1])] + more) == es + [(key, w[1])] + more;
    }
  }

  lemma WalkEnd(all: Walk, es: seq<Entry>, data: bytes, first: bool, current: i64)
    requires Walking(all, es, data, 0, first, current)
    ensures all == Walk(es, Got((), data))
  {
    assert es + [] == es;
  }

  lemma HeldNone()
    ensures Held([]) == 0
  {
  }

  /** Adds up the counts of the bins at the reader, modulo 2^64 and up to an error. */
  method BinTotal(r: CodecReader) returns (total: u64)
    modifies r
    ensures r.At() == WalkBins(old(r.At())).end
    ensures total == Held(WalkBins(old(r.At())).entries) % W
  {
    hide WalkEntries, Held, Walking, ReadUvarint;
    ghost var all := WalkBins(r.At());
    ghost var start := r.At();
    total := 0;
    HeldNone();
    var n := BinCount(r);
    if r.err.Some? {
      return;
    }
    ghost var es: seq<Entry> := [];
    var i := 0;
    var current: i64 := 0;
    WalkStart(start, n, r.data);
    while i < n
      invariant i <= n
      invariant r.err.None? && total == Held(es) % W
      invariant Walking(all, es, r.data, n - i, i == 0, current)
    {
      WalkStep(all, es, r.data, n - i, i == 0, current);
      var count;
      current, count := NextBin(r, i, current);
      if r.err.Some? {
        return;
      }
      HeldOne((current, count));
      HeldConcat(es, [(current, count)]);
      AddHeld(0, Held(es), count);
      total := Add(total, count);
      es := es + [(current, count)];
      i := i + 1;
    }
    WalkEnd(all, es, r.data, n == 0, current);
  }

  lemma AddHeld(start: u64, held: nat, one: u64)
    ensures Add((start + held) % W, one) == (start + (held + one)) % W
  {
  }

  /** The first bin at which a running count, modulo 2^64, is not below the target. */
  function Passing(es: seq<Entry>, count: u64, target: u64): (i: nat)
    ensures i <= |es|
  {
    if es == [] then 0 else
    var c := Add(count, es[0].1);
    if c >= target then 0 else 1 + Passing(es[1..], c, target)
  }

  /** The first bin that holds what is left of a rank when earlier bins have been taken off it. */
  function Covering(es: seq<Entry>, rank: u64): (i: nat)
    ensures i <= |es|
  {
    if es == [] then 0 else
    if rank <= es[0].1 then 0 else 1 + Covering(es[1..], rank - es[0].1)
  }

  /** What a search among the bins of a walk finds: the bin it stopped at, else the last one read, but
      nothing if the search ran into an error. */
  function Found(x: Walk, i: nat): Option<real>
    requires i <= |x.entries|
  {
    if i < |x.entries| then Some(BinValue(x.entries[i].0))
    else if x.end.Bad? then None
    else if x.entries == [] then Some(0.0)
    else Some(BinValue(x.entries[|x.entries| - 1].0))
  }

  function Negated(v: Option<real>): Option<real> {
    match v
    case None => None
    case Some(x) => Some(-x)
  }

  /** What `approximateQuantile` answers on any bytes and for any rank; none if the reader has failed. */
  function ApproximateAt(data: bytes, rank: u64): Option<real> {
    match ReadUvarint(data)
    case Bad(_) => None
    case Got(zero, rest) =>
      var negative := WalkBins(Got((), rest));
      var total := Held(negative.entries) % W;
      if rank <= total then Negated(Found(negative, Passing(negative.entries, 0, Add(total - rank, 1))))
      else if rank - total <= zero then if negative.end.Bad? then None else Some(0.0)
      else
        var positive := WalkBins(negative.end);
        Found(positive, Covering(positive.entries, rank - total - zero))
  }

  lemma {:induction false} PassingSplit(a: seq<Entry>, e: Entry, b: seq<Entry>, count: u64, target: u64)
    requires Passing(a, count, target) == |a|
    ensures var c := Add((count + Held(a)) % W, e.1);
            && Passing(a + ([e] + b), count, target) == (if c >= target then |a| else |a| + 1 + Passing(b, c, target))
            && (c < target ==> Passing(a + [e], count, target) == |a| + 1)
  {
    hide Passing, Held, Add;
    if a == [] {
      PassingHead(e, b, count, target);
      PassingHead(e, [], count, target);
      assert [e] + [] == [e] && [] + ([e] + b) == [e] + b && [] + [e] == [e];
    } else {
      var x, tail := a[0], a[1..];
      HeldConcat([x], tail);
      HeldOne(x);
      SumShifts(count, x.1, Held(tail));
      assert a == [x] + tail && a + ([e] + b) == [x] + (tail + ([e] + b)) && a + [e] == [x] + (tail + [e]);
      PassingHead(x, tail, count, target);
      PassingHead(x, tail + ([e] + b), count, target);
      PassingHead(x, tail + [e], count, target);
      PassingSplit(tail, e, b, Add(count, x.1), target);
    }
  }

  lemma PassingHead(e: Entry, b: seq<Entry>, count: u64, target: u64)
    ensures Passing([e] + b, count, target) ==
            if Add(count, e.1) >= target then 0 else 1 + Passing(b, Add(count, e.1), target)
    ensures Held([]) == 0 && (count + Held([])) % W == count && Passing([], count, target) == 0
  {
    assert ([e] + b)[1..] == b;
  }

  lemma SumShifts(count: u64, one: u64, held: nat)
    ensures (Add(count, one) + held) % W == (count + (one + held)) % W
  {
  }

  lemma {:induction false} CoveringSplit(a: seq<Entry>, e: Entry, b: seq<Entry>, rank: u64)
    requires Covering(a, rank) == |a|
    ensures Held(a) < rank || a == []
    ensures Held(a) <= rank
    ensures Covering(a + ([e] + b), rank) == if rank - Held(a) <= e.1 then |a| else |a| + 1 + Covering(b, rank - Held(a) - e.1)
    ensures rank - Held(a) > e.1 ==> Covering(a + [e], rank) == |a| + 1
  {
    hide Covering, Held;
    if a == [] {
      assert a + ([e] + b) == [e] + b && a + [e] == [e] + [];
      CoveringHead(e, b, rank);
      CoveringHead(e, [], rank);
    } else {
      var x, tail := a[0], a[1..];
      HeldConcat([x], tail);
      HeldOne(x);
      assert a == [x] + tail && a + ([e] + b) == [x] + (tail + ([e] + b)) && a + [e] == [x] + (tail + [e]);
      CoveringHead(x, tail, rank);
      CoveringHead(x, tail + ([e] + b), rank);
      CoveringHead(x, tail + [e], rank);
      CoveringSplit(tail, e, b, rank - x.1);
    }
  }

  lemma CoveringHead(e: Entry, b: seq<Entry>, rank: u64)
    ensures Covering([e] + b, rank) == if rank <= e.1 then 0 else 1 + Covering(b, rank - e.1)
    ensures Held([]) == 0 && Covering([], rank) == 0
  {
    assert ([e] + b)[1..] == b;
  }

  /** A walk that goes on has the bin just read behind those before it. */
  lemma WalkHas(all: Walk, es: seq<Entry>, e: Entry, data: bytes, n: nat, current: i64) returns (more: seq<Entry>)
    requires Walking(all, es + [e], data, n, false, current)
    ensures all.entries == es + ([e] + more)
  {
    more := WalkEntries(data, n, false, current).entries;
    assert es + [e] + more == es + ([e] + more);
  }

  /** Walks the negative bins until the running count reaches `target`; the value is that of the last bin read. */
  method NegativeBin(r: CodecReader, target: u64) returns (value: real)
    modifies r
    ensures var x := WalkBins(old(r.At()));
            Negated(Found(x, Passing(x.entries, 0, target))) == if r.At().Got? then Some(value) else None
  {
    hide WalkEntries, Held, Walking, ReadUvarint, Passing, BinValue;
    ghost var all := WalkBins(r.At());
    ghost var start := r.At();
    value := 0.0;
    NothingPassed(target);
    var n := BinCount(r);
    if r.err.Some? {
      return;
    }
    ghost var es: seq<Entry> := [];
    var i := 0;
    var current: i64 := 0;
    var cumulative: u64 := 0;
    WalkStart(start, n, r.data);
    while i < n
      invariant i <= n
      invariant r.err.None? && cumulative == Held(es) % W && Passing(es, 0, target) == |es|
      invariant value == if es == [] then 0.0 else -BinValue(es[|es| - 1].0)
      invariant Walking(all, es, r.data, n - i, i == 0, current)
    {
      WalkStep(all, es, r.data, n - i, i == 0, current);
      var count;
      current, count := NextBin(r, i, current);
      if r.err.Some? {
        return;
      }
      ghost var e := (current, count);
      ghost var more := WalkHas(all, es, e, r.data, n - i - 1, current);
      PassingOn(es, e, more, target);
      cumulative := Add(cumulative, count);
      value := -BinValue(current);
      if cumulative >= target {
        return;
      }
      es := es + [e];
      i := i + 1;
    }
    WalkEnd(all, es, r.data, n == 0, current);
  }

  /** One more bin in a search that has not stopped. */
  lemma PassingOn(es: seq<Entry>, e: Entry, more: seq<Entry>, target: u64)
    requires Passing(es, 0, target) == |es|
    ensures var c := Add(Held(es) % W, e.1);
            && c == Held(es + [e]) % W
            && (c >= target ==> Passing(es + ([e] + more), 0, target) == |es|)
            && (c < target ==> Passing(es + [e], 0, target) == |es + [e]|)
  {
    hide Passing;
    PassingSplit(es, e, more, 0, target);
    HeldOne(e);
    HeldConcat(es, [e]);
    AddHeld(0, Held(es), e.1);
  }

  lemma NothingPassed(target: u64)
    ensures Held([]) == 0 && Passing([], 0, target) == 0 && Covering([], target) == 0
  {
  }

  /** Walks the positive bins, taking what each holds off the rank. */
  method PositiveBin(r: CodecReader, rank: u64) returns (value: real)
    modifies r
    ensures var x := WalkBins(old(r.At()));
            Found(x, Covering(x.entries, rank)) == if r.At().Got? then Some(value) else None
  {
    hide WalkEntries, Held, Walking, ReadUvarint, Covering, BinValue;
    ghost var all := WalkBins(r.At());
    ghost var start := r.At();
    value := 0.0;
    NothingPassed(rank);
    var n := BinCount(r);
    if r.err.Some? {
      return;
    }
    ghost var es: seq<Entry> := [];
    var i := 0;
    var current: i64 := 0;
    var left: u64 := rank;
    WalkStart(start, n, r.data);
    while i < n
      invariant i <= n
      invariant r.err.None? && left == rank - Held(es) && Covering(es, rank) == |es|
      invariant value == if es == [] then 0.0 else BinValue(es[|es| - 1].0)
      invariant Walking(all, es, r.data, n - i, i == 0, current)
    {
      WalkStep(all, es, r.data, n - i, i == 0, current);
      var count;
      current, count := NextBin(r, i, current);
      if r.err.Some? {
        return;
      }
      ghost var e := (current, count);
      ghost var more := WalkHas(all, es, e, r.data, n - i - 1, current);
      CoveringSplit(es, e, more, rank);
      HeldOne(e);
      HeldConcat(es, [e]);
      value := BinValue(current);
      if left <= count {
        return;
      }
      left := left - count;
      es := es + [e];
      i := i + 1;
    }
    WalkEnd(all, es, r.data, n == 0, current);
  }

  /** `approximateQuantile`. */
  method ApproximateQuantile(r: CodecReader, rank: u64) returns (value: real)
    requires r.At().Got?
    modifies r
    ensures ApproximateAt(old(r.At()).rest, rank) == if r.At().Got? then Some(value) else None
  {
    hide WalkBins, ReadUvarint, Held, Passing, Covering, BinValue, Found;
    ghost var data := r.data;
    ReadOne(r.data);
    var zero := r.Uvarint();
    if r.err.Some? { WalkNothing(r.err.value); }
    var negative := new CodecReader(r.data);
    negative.err := r.err;
    var negativeTotal := BinTotal(r);
    if rank <= negativeTotal {
      value := NegativeBin(negative, Add(negativeTotal - rank, 1));
      r.err := negative.err;
      return;
    }
    var left := rank - negativeTotal;
    if left <= zero {
      return 0.0;
    }
    value := PositiveBin(r, left - zero);
  }

  /** On bins whose counts do not overflow, both searches find the bin of the target. */
  lemma {:induction false} PassingFinds(es: seq<Entry>, count: u64, target: u64)
    requires count + Held(es) < W && count < target <= count + Held(es)
    ensures var i := Passing(es, count, target); i < |es| && es[i].0 == Nth(es, target - count)
  {
    assert es == [es[0]] + es[1..];
    HeldConcat([es[0]], es[1..]);
    HeldOne(es[0]);
    var c := count + es[0].1;
    if c < target {
      PassingFinds(es[1..], c, target);
    }
  }

  lemma {:induction false} CoveringFinds(es: seq<Entry>, rank: u64)
    requires 0 < rank <= Held(es)
    ensures var i := Covering(es, rank); i < |es| && es[i].0 == Nth(es, rank)
  {
    assert es == [es[0]] + es[1..];
    HeldConcat([es[0]], es[1..]);
    HeldOne(es[0]);
    if rank > es[0].1 {
      CoveringFinds(es[1..], rank - es[0].1);
    }
  }

  /** On a payload that parses, and for a rank it covers, the query finds the answer for that rank. */
  lemma ApproximateAnswers(data: bytes, zero: nat, negative: seq<Entry>, positive: seq<Entry>, rank: u64)
    requires Payload(data, zero, negative, positive)
    requires 0 < rank <= Held(negative) + zero + Held(positive) && Held(negative) < W
    ensures ApproximateAt(data, rank) == Some(Answer(zero, negative, positive, rank))
  {
    hide ReadBins, ReadUvarint, Held, Nth, BinValue, WalkBins;
    var rest := ReadUvarint(data).rest;
    WalkOfBins(rest);
    WalkOfBins(ReadBins(rest).rest);
    if rank <= Held(negative) {
      PassingFinds(negative, 0, Held(negative) - rank + 1);
    } else if rank - Held(negative) > zero {
      CoveringFinds(positive, rank - Held(negative) - zero);
    }
  }

  // ----- True ranks -----

  /** `t` is the rank-th smallest of `obs`. */
  ghost predicate IsRank(F: Floats, obs: seq<u64>, rank: nat, t: u64) {
    && t in obs
    && Count(obs, (x: u64) => F.val(x) < F.val(t)) < rank
    && rank <= Count(obs, (x: u64) => F.val(x) <= F.val(t))
  }

  /** `x` lies in one of the given bins: the negative ones for odd = 0, the positive ones for odd = 1. */
  predicate Among(F: Floats, x: u64, keys: set<int>, odd: int) {
    F.val(x) != 0.0 && Code(F, x) % 2 == odd && Code(F, x) / 2 in keys
  }

  /** The bin holds as many observations as fall in it. */
  ghost predicate Tallied(F: Floats, obs: seq<u64>, e: Entry, odd: int) {
    e.1 == Count(obs, (x: u64) => HasCode(F, x, 2 * e.0 + odd))
  }

  /** The first `i` stored bins hold exactly the observations that fall in them. */
  lemma {:induction false} PrefixHolds(F: Floats, obs: seq<u64>, es: seq<Entry>, odd: int, i: nat)
    requires odd == 0 || odd == 1
    requires i <= |es|
    requires forall e :: e in es ==> Tallied(F, obs, e, odd)
    requires forall j, k :: 0 <= j < k < |es| ==> es[j].0 < es[k].0
    ensures Held(es[..i]) == Count(obs, (x: u64) => Among(F, x, KeySet(es[..i]), odd))
  {
    hide Code, HasCode, Among, KeySet, Held;
    if i == 0 {
      NoneAmong(F, obs, es, odd);
      HeldNone();
      CountNone(obs, (x: u64) => Among(F, x, KeySet(es[..0]), odd));
    } else {
      PrefixHolds(F, obs, es, odd, i - 1);
      var e := es[i - 1];
      assert Tallied(F, obs, e, odd);
      assert es[..i] == es[..i - 1] + [e];
      HeldConcat(es[..i - 1], [e]);
      HeldOne(e);
      var more, less, one := KeySet(es[..i]), KeySet(es[..i - 1]), 2 * e.0 + odd;
      forall x: u64
        ensures Among(F, x, more, odd) <==> Among(F, x, less, odd) || HasCode(F, x, one)
        ensures !(Among(F, x, less, odd) && HasCode(F, x, one))
      {
        AmongSnoc(F, x, es, odd, i);
      }
      CountSplit(obs, (x: u64) => Among(F, x, more, odd), (x: u64) => Among(F, x, less, odd),
                 (x: u64) => HasCode(F, x, one));
    }
  }

  lemma NoneAmong(F: Floats, obs: seq<u64>, es: seq<Entry>, odd: int)
    ensures forall x :: x in obs ==> !Among(F, x, KeySet(es[..0]), odd)
  {
  }

  lemma AmongSnoc(F: Floats, x: u64, es: seq<Entry>, odd: int, i: nat)
    requires odd == 0 || odd == 1
    requires 0 < i <= |es|
    requires forall j, k :: 0 <= j < k < |es| ==> es[j].0 < es[k].0
    ensures var more, less, one := KeySet(es[..i]), KeySet(es[..i - 1]), 2 * es[i - 1].0 + odd;
            && (Among(F, x, more, odd) <==> Among(F, x, less, odd) || HasCode(F, x, one))
            && !(Among(F, x, less, odd) && HasCode(F, x, one))
  {
    hide KeySet, Code;
    KeySetSnoc(es, i);
    var one := 2 * es[i - 1].0 + odd;
    assert one / 2 == es[i - 1].0 && one % 2 == odd;
    if F.val(x) != 0.0 {
      assert Code(F, x) == 2 * (Code(F, x) / 2) + Code(F, x) % 2;
    }
  }

  function KeySet(es: seq<Entry>): set<int> {
    set e | e in es :: e.0
  }

  lemma KeySetSnoc(es: seq<Entry>, i: nat)
    requires 0 < i <= |es|
    requires forall j, k :: 0 <= j < k < |es| ==> es[j].0 < es[k].0
    ensures es[i - 1].0 !in KeySet(es[..i - 1])
    ensures KeySet(es[..i]) == KeySet(es[..i - 1]) + {es[i - 1].0}
  {
    assert es[..i] == es[..i - 1] + [es[i - 1]];
    assert forall e :: e in es[..i] <==> e in es[..i - 1] || e == es[i - 1];
    forall e | e in es[..i - 1]
      ensures e.0 < es[i - 1].0
    {
      var j :| 0 <= j < i - 1 && es[j] == e;
    }
  }
}
