/** The immutable encoded sketch that reads return, and its quantiles in each of its three encodings. */
module SketchQueries {
  import opened Words
  import opened Varint
  import opened Reader
  import opened FloatModel
  import opened Keys
  import opened Histograms
  import opened Sketches
  import opened Observations
  import opened SketchCodec
  import opened SketchBytes
  import opened Quantiles
  import opened QuantileError

  const EXACT_XOR: byte := 3

  datatype Sketch = Sketch(data: bytes, count: nat, sum: u64, min: u64, max: u64, kind: byte)

  // ----- Sorted exact values, eight bytes each, low byte first -----

  function Little(v: nat, n: nat): (b: bytes)
    ensures |b| == n
  {
    if n == 0 then [] else [v % 0x100] + Little(v / 0x100, n - 1)
  }

  function FromLittle(b: bytes): nat {
    if b == [] then 0 else b[0] + 0x100 * FromLittle(b[1..])
  }

  function Weight256(n: nat): nat {
    if n == 0 then 1 else 0x100 * Weight256(n - 1)
  }

  lemma {:induction false} LittleRoundTrip(v: nat, n: nat)
    requires v < Weight256(n)
    ensures FromLittle(Little(v, n)) == v
  {
    if n > 0 {
      LittleRoundTrip(v / 0x100, n - 1);
      assert Little(v, n)[1..] == Little(v / 0x100, n - 1);
    }
  }

  lemma {:induction false} FromLittleBound(b: bytes)
    ensures FromLittle(b) < Weight256(|b|)
  {
    if b != [] {
      FromLittleBound(b[1..]);
    }
  }

  lemma EightBytes()
    ensures Weight256(8) == W
  {
    assert Weight256(4) == 0x1_0000_0000;
  }

  function ExactData(values: seq<u64>): (b: bytes)
    ensures |b| == 8 * |values|
  {
    if values == [] then [] else ExactData(values[..|values| - 1]) + Little(values[|values| - 1], 8)
  }

  method AppendExactValues(dst: bytes, values: seq<u64>) returns (out: bytes)
    ensures out == dst + ExactData(values)
  {
    out := dst;
    assert values[..0] == [];
    for i := 0 to |values|
      invariant out == dst + ExactData(values[..i])
    {
      out := out + Little(values[i], 8);
      assert values[..i + 1][..i] == values[..i];
    }
    assert values[..|values|] == values;
  }

  lemma {:induction false} ExactDataAt(values: seq<u64>, i: nat)
    requires i < |values|
    ensures ExactData(values)[8 * i..8 * i + 8] == Little(values[i], 8)
  {
    var n := |values| - 1;
    if i == n {
      assert ExactData(values)[8 * n..8 * n + 8] == Little(values[n], 8);
    } else {
      ExactDataAt(values[..n], i);
      assert ExactData(values)[8 * i..8 * i + 8] == ExactData(values[..n])[8 * i..8 * i + 8];
    }
  }

  /** The i-th eight-byte pattern. */
  function PatternAt(data: bytes, i: nat): u64
    requires 8 * i + 8 <= |data|
  {
    FromLittleBound(data[8 * i..8 * i + 8]);
    EightBytes();
    FromLittle(data[8 * i..8 * i + 8])
  }

  /** `exactQuantile`; none stands for NaN. */
  method ExactQuantile(data: bytes, rank: nat) returns (value: Option<u64>)
    ensures value == if 0 < rank <= |data| / 8 then Some(PatternAt(data, rank - 1)) else None
  {
    if rank == 0 || rank > |data| / 8 {
      return None;
    }
    var offset := (rank - 1) * 8;
    FromLittleBound(data[offset..offset + 8]);
    EightBytes();
    value := Some(FromLittle(data[offset..offset + 8]));
  }

  // ----- Sorting by value -----

  function Insert(F: Floats, x: u64, s: seq<u64>): seq<u64> {
    if s == [] || !F.Less(s[0], x) then [x] + s else [s[0]] + Insert(F, x, s[1..])
  }

  /** `slices.Sort`. */
  function Sort(F: Floats, s: seq<u64>): (r: seq<u64>)
    ensures |r| == |s|
  {
    if s == [] then [] else
    InsertLength(F, s[0], Sort(F, s[1..]));
    Insert(F, s[0], Sort(F, s[1..]))
  }

  lemma {:induction false} InsertLength(F: Floats, x: u64, s: seq<u64>)
    ensures |Insert(F, x, s)| == |s| + 1
  {
    if s != [] && F.Less(s[0], x) {
      InsertLength(F, x, s[1..]);
    }
  }

  predicate Ordered(F: Floats, s: seq<u64>) {
    forall i, j :: 0 <= i < j < |s| ==> F.val(s[i]) <= F.val(s[j])
  }

  lemma {:induction false} InsertOrdered(F: Floats, x: u64, s: seq<u64>)
    requires Ordered(F, s)
    ensures Ordered(F, Insert(F, x, s))
    ensures forall y :: y in Insert(F, x, s) <==> y == x || y in s
  {
    if s != [] && F.Less(s[0], x) {
      InsertOrdered(F, x, s[1..]);
      assert s == [s[0]] + s[1..];
      forall y | y in Insert(F, x, s[1..])
        ensures F.val(s[0]) <= F.val(y)
      {
      }
    }
  }

  lemma {:induction false} SortOrdered(F: Floats, s: seq<u64>)
    ensures Ordered(F, Sort(F, s))
    ensures forall y :: y in Sort(F, s) <==> y in s
  {
    if s != [] {
      SortOrdered(F, s[1..]);
      InsertOrdered(F, s[0], Sort(F, s[1..]));
      assert s == [s[0]] + s[1..];
    }
  }

  lemma {:induction false} CountConcat(a: seq<u64>, b: seq<u64>, p: u64 -> bool)
    ensures Count(a + b, p) == Count(a, p) + Count(b, p)
  {
    if b == [] {
      assert a + b == a;
    } else {
      assert (a + b)[..|a| + |b| - 1] == a + b[..|b| - 1];
      CountConcat(a, b[..|b| - 1], p);
    }
  }

  lemma CountOne(x: u64, p: u64 -> bool)
    ensures Count([x], p) == if p(x) then 1 else 0
  {
    assert [x][..0] == [];
  }

  lemma {:induction false} InsertCount(F: Floats, x: u64, s: seq<u64>, p: u64 -> bool)
    ensures Count(Insert(F, x, s), p) == Count(s, p) + if p(x) then 1 else 0
  {
    CountOne(x, p);
    if s == [] || !F.Less(s[0], x) {
      CountConcat([x], s, p);
    } else {
      assert s == [s[0]] + s[1..];
      CountConcat([s[0]], s[1..], p);
      CountConcat([s[0]], Insert(F, x, s[1..]), p);
      InsertCount(F, x, s[1..], p);
    }
  }

  lemma {:induction false} SortCount(F: Floats, s: seq<u64>, p: u64 -> bool)
    ensures Count(Sort(F, s), p) == Count(s, p)
  {
    if s != [] {
      SortCount(F, s[1..], p);
      InsertCount(F, s[0], Sort(F, s[1..]), p);
      assert s == [s[0]] + s[1..];
      CountConcat([s[0]], s[1..], p);
      CountOne(s[0], p);
    }
  }

  /** Sorting puts the rank-th smallest observation at index rank - 1. */
  lemma SortedRank(F: Floats, obs: seq<u64>, rank: nat)
    requires 0 < rank <= |obs|
    ensures IsRank(F, obs, rank, Sort(F, obs)[rank - 1])
  {
    hide Count, Sort;
    SortOrdered(F, obs);
    var s := Sort(F, obs);
    var t := s[rank - 1];
    SortCount(F, obs, (x: u64) => F.val(x) < F.val(t));
    SortCount(F, obs, (x: u64) => F.val(x) <= F.val(t));
    RankBelow(F, s, rank);
    RankUpTo(F, s, rank);
    assert t in s;
  }

  /** Fewer than `rank` of the ordered values are below the one in its place. */
  lemma RankBelow(F: Floats, s: seq<u64>, rank: nat)
    requires 0 < rank <= |s| && Ordered(F, s)
    ensures Count(s, (x: u64) => F.val(x) < F.val(s[rank - 1])) < rank
  {
    hide Count;
    var less := (x: u64) => F.val(x) < F.val(s[rank - 1]);
    var front, back := s[..rank - 1], s[rank - 1..];
    assert s == front + back;
    CountConcat(front, back, less);
    forall x | x in back
      ensures !less(x)
    {
      var i :| 0 <= i < |back| && back[i] == x;
      assert s[rank - 1 + i] == x;
    }
    CountNone(back, less);
    CountImplies(front, less, (x: u64) => true);
    CountAll(front, (x: u64) => true);
  }

  /** And at least `rank` are not above it. */
  lemma RankUpTo(F: Floats, s: seq<u64>, rank: nat)
    requires 0 < rank <= |s| && Ordered(F, s)
    ensures rank <= Count(s, (x: u64) => F.val(x) <= F.val(s[rank - 1]))
  {
    hide Count;
    var upto := (x: u64) => F.val(x) <= F.val(s[rank - 1]);
    var front, back := s[..rank], s[rank..];
    assert s == front + back;
    CountConcat(front, back, upto);
    CountAll(front, upto);
  }

  // ----- Encoding for reads -----

  /** `encode`: sorted exact values if there are any, else the bins. */
  function Encoded(F: Floats, v: Summary): Sketch
    requires v.exact.None? ==> Storable(v)
  {
    if v.exact.Some? then Sketch(ExactData(Sort(F, v.exact.value)), v.count, v.sum, v.min, v.max, EXACT)
    else Sketch(ApproxData(v.hist), v.count, v.sum, v.min, v.max, APPROX)
  }

  /** `storedSketch`: the encoded payload of a stored bucket, checked but not decoded; none on error. */
  function StoredSketch(data: bytes): Option<Sketch> {
    if data == [] then None else
    match ReadWords(data[1..], 4)
    case Bad(_) => None
    case Got(w, payload) =>
      var v := HeaderOf(w);
      if data[0] == EXACT then
        if ReadWords(payload, v.count).Got? && ReadWords(payload, v.count).rest == [] then
          Some(Sketch(payload, v.count, v.sum, v.min, v.max, EXACT_XOR))
        else None
      else if data[0] == APPROX then
        match ReadUvarint(payload)
        case Bad(_) => None
        case Got(zero, rest) =>
          match ReadBins(rest)
          case Bad(_) => None
          case Got(negative, rest) =>
            match ReadBins(rest)
            case Bad(_) => None
            case Got(positive, rest) =>
              if |negative| + |positive| > MAX_BINS || rest != []
                 || v.count != (zero + Held(negative) + Held(positive)) % W then None
              else Some(Sketch(payload, v.count, v.sum, v.min, v.max, APPROX))
      else None
  }

  /** The counts of a stored histogram added up, the number of its bins, and where reading it ends. */
  datatype Tally = Tally(count: u64, bins: nat, end: Position)

  function TallyAt(payload: bytes): Tally {
    match ReadUvarint(payload)
    case Bad(e) => Tally(0, 0, Bad(e))
    case Got(zero, rest) =>
      var x := WalkBins(Got((), rest));
      var y := WalkBins(x.end);
      Tally((zero + Held(x.entries) + Held(y.entries)) % W, |x.entries| + |y.entries|, y.end)
  }

  /** `storedSketch` with its errors. More bins than allowed are found before a read that fails. */
  function StoredResult(data: bytes): Result<Sketch> {
    if data == [] then Err(BadVarint) else
    match ReadWords(data[1..], 4)
    case Bad(e) => Err(e)
    case Got(w, payload) =>
      var v := HeaderOf(w);
      if data[0] == EXACT then
        match ReadWords(payload, v.count)
        case Bad(e) => Err(e)
        case Got(_, rest) => if rest != [] then Err(Long) else Ok(Sketch(payload, v.count, v.sum, v.min, v.max, EXACT_XOR))
      else if data[0] == APPROX then
        var t := TallyAt(payload);
        if t.bins > MAX_BINS then Err(Large) else
        match t.end
        case Bad(e) => Err(e)
        case Got(_, rest) =>
          if rest != [] then Err(Long) else if v.count != t.count then Err(Shape)
          else Ok(Sketch(payload, v.count, v.sum, v.min, v.max, APPROX))
      else Err(BadVarint)
  }

  lemma {:induction false} TallyReads(payload: bytes)
    ensures match ReadUvarint(payload) {
              case Bad(e) => TallyAt(payload).end == Bad(e)
              case Got(zero, rest) =>
                if ReadBins(rest).Bad? then TallyAt(payload).end.Bad? else
                var negative, more := ReadBins(rest).value, ReadBins(rest).rest;
                if ReadBins(more).Bad? then TallyAt(payload).end.Bad? else
                var positive := ReadBins(more).value;
                TallyAt(payload) == Tally((zero + Held(negative) + Held(positive)) % W, |negative| + |positive|,
                                          Got((), ReadBins(more).rest))
            }
  {
    hide ReadUvarint, ReadBins, WalkBins, Held;
    if ReadUvarint(payload).Got? {
      var rest := ReadUvarint(payload).rest;
      WalkOfBins(rest);
      if ReadBins(rest).Got? {
        WalkOfBins(ReadBins(rest).rest);
      } else {
        WalkNothing(ReadBins(rest).error);
      }
    }
  }

  /** The payload is served exactly when there is no error. */
  lemma ResultIsSketch(data: bytes)
    ensures StoredSketch(data) == if StoredResult(data).Ok? then Some(StoredResult(data).value) else None
  {
    hide ReadUvarint, ReadBins, TallyAt, Held, HeaderOf, ReadWords;
    if data != [] && ReadWords(data[1..], 4).Got? {
      TallyReads(ReadWords(data[1..], 4).rest);
    }
  }

  /** Adds the counts of the bins at the reader to a count, and their number to another. */
  method CountBins(r: CodecReader, count: u64, bins: nat) returns (count': u64, bins': nat)
    modifies r
    ensures r.At() == WalkBins(old(r.At())).end
    ensures var es := WalkBins(old(r.At())).entries; count' == (count + Held(es)) % W && bins' == bins + |es|
  {
    hide WalkEntries, Held, Walking, ReadUvarint;
    count', bins' := count, bins;
    ghost var all := WalkBins(r.At());
    ghost var start := r.At();
    HeldNone();
    var n := BinCount(r);
    if r.err.Some? {
      return;
    }
    ghost var es: seq<Entry> := [];
    var i := 0;
    var current: i64 := 0;
    WalkStart(start, n, r.data);
    while i < n
      invariant i <= n
      invariant r.err.None? && count' == (count + Held(es)) % W && bins' == bins + |es|
      invariant Walking(all, es, r.data, n - i, i == 0, current)
    {
      WalkStep(all, es, r.data, n - i, i == 0, current);
      var one;
      current, one := NextBin(r, i, current);
      if r.err.Some? {
        return;
      }
      HeldOne((current, one));
      HeldConcat(es, [(current, one)]);
      AddHeld(count, Held(es), one);
      count', bins' := Add(count', one), bins' + 1;
      es := es + [(current, one)];
      i := i + 1;
    }
    WalkEnd(all, es, r.data, n == 0, current);
  }

  /** Reads integers and drops them. */
  method SkipWords(r: CodecReader, n: nat)
    modifies r
    ensures r.At() == Forget(Take(old(r.At()), n))
  {
    for i := 0 to n
      invariant r.At() == Forget(Take(old(r.At()), i))
    {
      TakeSplit(old(r.At()), i, 1);
      var _ := r.Uvarint();
    }
  }

  lemma Sums(a: u64, b: nat, c: nat)
    ensures ((a + b) % W + c) % W == (a + b + c) % W
  {
  }

  /** Adds up the counts of a stored histogram without building it. */
  method CountHistogram(r: CodecReader) returns (count: u64, bins: nat)
    requires r.At().Got?
    modifies r
    ensures Tally(count, bins, r.At()) == TallyAt(old(r.At()).rest)
  {
    hide WalkBins, ReadUvarint, Held;
    ReadOne(r.data);
    bins := 0;
    count := r.Uvarint();
    if r.err.Some? { WalkNothing(r.err.value); }
    ghost var x := WalkBins(r.At());
    ghost var y := WalkBins(x.end);
    Sums(count, Held(x.entries), Held(y.entries));
    count, bins := CountBins(r, count, bins);
    count, bins := CountBins(r, count, bins);
  }

  /** `storedSketch`. */
  method ServeStored(data: bytes) returns (out: Result<Sketch>)
    ensures out == StoredResult(data)
  {
    hide HeaderOf, TallyAt, ReadWords;
    if |data| == 0 {
      return Err(BadVarint);
    }
    var r := new CodecReader(data);
    var kind := r.Byte();
    var v := ReadHeader(r);
    if r.err.Some? {
      return Err(r.err.value);
    }
    HeaderFits(Take(Got((), data[1..]), 4).value);
    var payload := r.data;
    var count := v.count;
    if kind == EXACT {
      SkipWords(r, v.count);
    } else if kind == APPROX {
      var bins;
      count, bins := CountHistogram(r);
      if bins > MAX_BINS {
        return Err(Large);
      }
    } else {
      return Err(BadVarint);
    }
    var e := r.Done();
    if e.Some? {
      return Err(e.value);
    }
    if count != v.count {
      return Err(Shape);
    }
    out := Ok(Sketch(payload, v.count, v.sum, v.min, v.max, if kind == EXACT then EXACT_XOR else kind));
  }

  /** A stored approximate sketch is served as it lies. */
  lemma StoredApprox(F: Floats, v: Summary)
    requires Storable(v) && v.exact.None?
    requires v.count == Mass(v.hist) && Positive(v.hist) && |Codes(v.hist)| <= MAX_BINS
    ensures StoredSketch(ApproxBytes(v)) == Some(Encoded(F, v))
    ensures Payload(ApproxData(v.hist), v.hist.zero, Stored(v.hist.negative), Stored(v.hist.positive))
    ensures Held(Stored(v.hist.negative)) + v.hist.zero + Held(Stored(v.hist.positive)) == v.count
  {
    hide ApproxData, ReadBins, Encode, ReadUvarint, ReadWords, Stored, Codes, HeaderWords, HeaderOf, Held, Mass, Positive, Fits;
    HeaderRoundTrip(APPROX, v, ApproxData(v.hist));
    PayloadOf(v.hist);
    PayloadHolds(v.hist);
    CodesCount(v.hist);
    StoredSize(v.hist.negative);
    StoredSize(v.hist.positive);
  }

  lemma StoredSize(m: map<int, nat>)
    requires Fits(m)
    ensures |Stored(m)| == |m|
  {
  }

  lemma PayloadOf(h: Hist)
    requires h.zero < W && Fits(h.negative) && Fits(h.positive)
    requires Positive(h) && |Codes(h)| <= MAX_BINS
    ensures ReadUvarint(ApproxData(h)).Got? && ReadUvarint(ApproxData(h)).value == h.zero
    ensures var rest := ReadUvarint(ApproxData(h)).rest;
            && ReadBins(rest).Got? && ReadBins(rest).value == Stored(h.negative)
            && ReadBins(ReadBins(rest).rest) == Got(Stored(h.positive), [])
  {
    hide BinWords, ReadBins, Encode, Leb, ReadUvarint, Stored, Codes;
    CodesCount(h);
    var n, p := Encode(BinWords(h.negative)), Encode(BinWords(h.positive));
    EncodeOne(h.zero);
    assert ApproxData(h) == Leb(h.zero) + (n + p);
    UvarintRoundTrip(h.zero, n + p);
    BinsRoundTrip(h.negative, p);
    BinsRoundTrip(h.positive, []);
    assert p + [] == p;
  }

  lemma PayloadHolds(h: Hist)
    requires Fits(h.negative) && Fits(h.positive)
    ensures Held(Stored(h.negative)) + h.zero + Held(Stored(h.positive)) == Mass(h)
  {
    HeldTotal(h.negative);
    HeldTotal(h.positive);
  }

  /** Stored exact values are served in their XOR coding. */
  lemma StoredExact(v: Summary)
    requires KeptExact(v)
    ensures var xored := Encode(Xors(v.exact.value));
            && StoredSketch(ExactBytes(v)) == Some(Sketch(xored, v.count, v.sum, v.min, v.max, EXACT_XOR))
            && ReadWords(xored, v.count) == Got(Xors(v.exact.value), [])
  {
    hide Encode, Xors, ReadWords, HeaderWords, HeaderOf;
    var xored := Encode(Xors(v.exact.value));
    HeaderRoundTrip(EXACT, v, xored);
    WordsRoundTrip(Xors(v.exact.value), []);
    assert xored + [] == xored;
  }

  // ----- Quantiles -----

  /** `exactXORQuantile`. The value means nothing if the reader has failed. */
  method ExactXorQuantile(F: Floats, r: CodecReader, count: nat, rank: nat) returns (value: u64)
    requires 0 < rank <= count
    modifies r
    ensures r.At().Got? <==> count <= MAX_INT && Take(old(r.At()), count).Got?
    ensures r.At().Got? ==> value == Sort(F, Unxor(Take(old(r.At()), count).value))[rank - 1]
  {
    if count > MAX_INT {
      r.Fail(Large);
      return 0;
    }
    var values := r.FloatXor(count);
    values := Sort(F, values);
    value := values[rank - 1];
  }

  function Clamp(x: real, lo: real, hi: real): real {
    var y := if x < lo then lo else x;
    if hi < y then hi else y
  }

  /** The value at a rank before it is clamped, for any payload. */
  ghost function ValueAt(F: Floats, h: Sketch, rank: nat): Option<real>
    requires 0 < rank <= h.count < W
  {
    if h.kind == EXACT then
      if rank <= |h.data| / 8 then Some(F.val(PatternAt(h.data, rank - 1))) else None
    else if h.kind == EXACT_XOR then
      if h.count <= MAX_INT && ReadWords(h.data, h.count).Got? then
        Some(F.val(Sort(F, Unxor(ReadWords(h.data, h.count).value))[rank - 1]))
      else None
    else if h.kind == APPROX then ApproximateAt(h.data, rank)
    else None
  }

  ghost function QuantileAt(F: Floats, h: Sketch, rank: nat): Option<real>
    requires 0 < rank <= h.count < W
  {
    match ValueAt(F, h, rank)
    case None => None
    case Some(x) => Some(Clamp(x, F.val(h.min), F.val(h.max)))
  }

  /** `Quantile` from the rank on, for any payload; none stands for NaN. */
  method RankQuantile(F: Floats, h: Sketch, rank: nat) returns (out: Option<real>)
    requires 0 < rank <= h.count < W
    ensures out == QuantileAt(F, h, rank)
  {
    hide ApproximateAt, ReadWords, PatternAt;
    var r := new CodecReader(h.data);
    var value: real;
    if h.kind == EXACT {
      var v := ExactQuantile(h.data, rank);
      if v.None? {
        return None;
      }
      value := F.val(v.value);
    } else if h.kind == EXACT_XOR {
      var v := ExactXorQuantile(F, r, h.count, rank);
      value := F.val(v);
    } else if h.kind == APPROX {
      value := ApproximateQuantile(r, rank);
    } else {
      return None;
    }
    if r.err.Some? {
      return None;
    }
    out := Some(Clamp(value, F.val(h.min), F.val(h.max)));
  }

  /** The nearest rank: the least number of observations that make up a fraction `q` of all. */
  function RankOf(q: real, count: nat): (rank: nat)
    requires 0.0 < q < 1.0 && count > 0
    ensures 0 < rank <= count && (rank - 1) as real < q * count as real <= rank as real
  {
    var x := q * count as real;
    assert 0.0 < x <= count as real;
    -((-x).Floor)
  }

  /** What a sketch answers for a quantile; the ends are the extremes, and an empty sketch or a number
      outside 0..1 has no answer. */
  ghost function Answered(F: Floats, h: Sketch, q: real): Option<real>
    requires h.count < W
  {
    if h.count == 0 || q < 0.0 || q > 1.0 then None
    else if q == 0.0 then Some(F.val(h.min))
    else if q == 1.0 then Some(F.val(h.max))
    else QuantileAt(F, h, RankOf(q, h.count))
  }

  /** `Quantile`. */
  method Quantile(F: Floats, h: Sketch, q: real) returns (out: Option<real>)
    requires h.count < W
    ensures out == Answered(F, h, q)
  {
    hide QuantileAt;
    if h.count == 0 || q < 0.0 || q > 1.0 {
      return None;
    }
    if q == 0.0 {
      return Some(F.val(h.min));
    }
    if q == 1.0 {
      return Some(F.val(h.max));
    }
    out := RankQuantile(F, h, RankOf(q, h.count));
  }

  /** No answer for an empty sketch or outside 0..1, the extremes at the ends, and nothing beyond them between. */
  lemma AnsweredWithin(F: Floats, h: Sketch, q: real)
    requires h.count < W
    ensures h.count == 0 || !(0.0 <= q <= 1.0) ==> Answered(F, h, q).None?
    ensures h.count > 0 ==> Answered(F, h, 0.0) == Some(F.val(h.min)) && Answered(F, h, 1.0) == Some(F.val(h.max))
    ensures Answered(F, h, q).Some? && F.val(h.min) <= F.val(h.max) ==>
              F.val(h.min) <= Answered(F, h, q).value <= F.val(h.max)
  {
    hide ValueAt;
  }

  /** A sketch whose payload parses and holds as many observations as it counts, and a rank among them. */
  ghost predicate Queryable(h: Sketch, rank: nat) {
    && 0 < rank <= h.count < W
    && (h.kind == EXACT ==> |h.data| == 8 * h.count)
    && (h.kind == EXACT_XOR ==> h.count <= MAX_INT && ReadWords(h.data, h.count).Got?)
    && (h.kind == APPROX ==>
          && ReadHistEntries(h.data).Got?
          && Held(ReadHistEntries(h.data).value.1) + ReadHistEntries(h.data).value.0
             + Held(ReadHistEntries(h.data).value.2) == h.count)
  }

  ghost function ReadHistEntries(data: bytes): Parse<(nat, seq<Entry>, seq<Entry>)> {
    match ReadUvarint(data)
    case Bad(e) => Bad(e)
    case Got(zero, rest) =>
      match ReadBins(rest)
      case Bad(e) => Bad(e)
      case Got(negative, rest) =>
        match ReadBins(rest)
        case Bad(e) => Bad(e)
        case Got(positive, rest) => Got((zero, negative, positive), rest)
  }

  /** On such a sketch the query on the bins is the answer of the bins. */
  lemma QueryAnswers(F: Floats, h: Sketch, rank: nat)
    requires Queryable(h, rank) && h.kind == APPROX
    ensures var (zero, negative, positive) := ReadHistEntries(h.data).value;
            QuantileAt(F, h, rank) == Some(Clamp(Answer(zero, negative, positive, rank), F.val(h.min), F.val(h.max)))
  {
    hide ApproximateAt, ReadUvarint, ReadBins, Answer, Held;
    var (zero, negative, positive) := ReadHistEntries(h.data).value;
    ApproximateAnswers(h.data, zero, negative, positive, rank);
  }

  /** Clamping to an interval that holds the target never moves an answer away from it. */
  lemma ClampHelps(x: real, t: real, lo: real, hi: real)
    requires lo <= t <= hi
    ensures Magnitude(Clamp(x, lo, hi) - t) <= Magnitude(x - t)
  {
  }

  /** A sketch that still has its observations answers every rank exactly. */
  lemma ExactAnswers(F: Floats, v: Summary, obs: seq<u64>, rank: nat)
    requires Represents(F, v, obs) && v.exact == Some(obs) && 0 < rank <= |obs| < W
    ensures Queryable(Encoded(F, v), rank)
    ensures var t := Sort(F, obs)[rank - 1];
            IsRank(F, obs, rank, t) && QuantileAt(F, Encoded(F, v), rank) == Some(F.val(t))
  {
    hide Represents, IsRank, Sort, ExactData, PatternAt;
    SortedAnswer(F, obs, rank);
    SortedRank(F, obs, rank);
    RankWithin(F, v, obs, Sort(F, obs)[rank - 1]);
  }

  lemma RankWithin(F: Floats, v: Summary, obs: seq<u64>, t: u64)
    requires Represents(F, v, obs) && t in obs
    ensures F.val(v.min) <= F.val(t) <= F.val(v.max) && v.count == |obs|
  {
    hide Collapse, HistOf, Codes;
  }

  lemma SortedAnswer(F: Floats, e: seq<u64>, rank: nat)
    requires 0 < rank <= |e|
    ensures PatternAt(ExactData(Sort(F, e)), rank - 1) == Sort(F, e)[rank - 1]
    ensures Sort(F, e)[rank - 1] in e
  {
    hide Sort, ExactData;
    ExactDataAt(Sort(F, e), rank - 1);
    EightBytes();
    LittleRoundTrip(Sort(F, e)[rank - 1], 8);
    SortOrdered(F, e);
    assert Sort(F, e)[rank - 1] in Sort(F, e);
  }

  lemma ServedAnswer(F: Floats, w: Summary, rank: nat)
    requires Storable(w) && w.exact.None? && 0 < rank <= w.count
    requires w.count == Mass(w.hist) && Positive(w.hist) && |Codes(w.hist)| <= MAX_BINS
    ensures StoredSketch(ApproxBytes(w)) == Some(Encoded(F, w)) && Queryable(Encoded(F, w), rank)
    ensures QuantileAt(F, Encoded(F, w), rank) ==
            Some(Clamp(Answer(w.hist.zero, Stored(w.hist.negative), Stored(w.hist.positive), rank), F.val(w.min), F.val(w.max)))
  {
    hide StoredSketch, ApproxBytes, ApproxData, Answer, Held, Stored, ReadBins, ReadUvarint, QuantileAt, Mass, Codes, Positive;
    StoredApprox(F, w);
    PayloadOf(w.hist);
    QueryAnswers(F, Encoded(F, w), rank);
  }

  /** The whole path: observations binned in any way, collapsed, written to bytes, served as stored and
      queried. If the bin of the true rank-th smallest observation `t` survived the cap, the answer is
      within `BIN_ALPHA` of `t`, relative to it; otherwise it is 0, moved into [min, max]. */
  lemma StoredQuantileAccurate(F: Floats, v: Summary, obs: seq<u64>, rank: nat, t: u64)
    requires Represents(F, v, obs) && F.Ranged() && 0 < rank <= |obs| < W
    requires IsRank(F, obs, rank, t)
    ensures var w := Approximate(F, v);
            && Storable(w) && StoredSketch(ApproxBytes(w)).Some?
            && var h := StoredSketch(ApproxBytes(w)).value;
            && Queryable(h, rank) && QuantileAt(F, h, rank).Some?
            && var q := QuantileAt(F, h, rank).value;
            && (Alive(F, w.hist, t) ==> Magnitude(q - F.val(t)) <= BIN_ALPHA * Magnitude(F.val(t)))
            && (!Alive(F, w.hist, t) ==> q == Clamp(0.0, F.val(w.min), F.val(w.max)))
  {
    hide Represents, Approximate, HistOf, StoredSketch, ApproxBytes, Answer, Stored, Alive, QuantileAt, ValueAt, Collapse,
      Queryable, Encoded, Codes, Positive, Accurate, Magnitude, Clamp, Count, Storable, Mass, Fits;
    var w := Approximate(F, v);
    Settled(F, v, obs);
    RankWithin(F, w, obs, t);
    ServedAnswer(F, w, rank);
    StorableFits(w);
    AnswerAccurate(F, obs, w.hist, rank, t);
    ClampedAccurate(F, w, t, Answer(w.hist.zero, Stored(w.hist.negative), Stored(w.hist.positive), rank));
  }

  lemma StorableFits(w: Summary)
    requires Storable(w)
    ensures Fits(w.hist.negative) && Fits(w.hist.positive)
  {
  }

  /** What approximating a sketch of some observations leaves can be stored. */
  lemma Settled(F: Floats, v: Summary, obs: seq<u64>)
    requires Represents(F, v, obs) && F.Ranged() && |obs| < W
    ensures var w := Approximate(F, v);
            && Represents(F, w, obs) && Storable(w) && w.exact.None? && w.hist == Collapse(HistOf(F, obs))
            && w.count == Mass(w.hist) && Positive(w.hist) && |Codes(w.hist)| <= MAX_BINS
  {
    hide Represents, Approximate, Collapse, HistOf, Codes, Positive, Storable, Total;
    var w := Approximate(F, v);
    ApproximateRepresents(F, v, obs);
    Storage(F, v, obs);
    CountedOnce(F, w, obs);
    Represented(F, w, obs);
  }

  lemma ClampedAccurate(F: Floats, w: Summary, t: u64, answer: real)
    requires Accurate(F, w.hist, t, answer) && F.val(w.min) <= F.val(t) <= F.val(w.max)
    ensures var q := Clamp(answer, F.val(w.min), F.val(w.max));
            && (Alive(F, w.hist, t) ==> Magnitude(q - F.val(t)) <= BIN_ALPHA * Magnitude(F.val(t)))
            && (!Alive(F, w.hist, t) ==> q == Clamp(0.0, F.val(w.min), F.val(w.max)))
  {
    hide Alive, Clamp, Magnitude;
    ClampHelps(answer, F.val(t), F.val(w.min), F.val(w.max));
  }

  /** The two ways of reading one stored bucket agree: serving its payload as it lies, and merging it
      into an empty sketch and encoding that. Count, sum, extremes and every quantile are the same,
      in the approximate and in the exact form, as long as adding to zero changes nothing. */
  lemma StoredReadsAgree(F: Floats, v: Summary, rank: nat)
    requires forall x :: F.add(0, x) == x
    requires 0 < rank <= v.count < W
    requires KeptExact(v) || (Storable(v) && v.exact.None? && v.count == Mass(v.hist)
                              && Positive(v.hist) && |Codes(v.hist)| <= MAX_BINS)
    ensures var data := if v.exact.Some? then ExactBytes(v) else ApproxBytes(v);
            var merged := MergeBytes(F, NEW, data);
            && StoredSketch(data).Some? && (merged.exact.None? ==> Storable(merged))
            && var a := StoredSketch(data).value;
               var b := Encoded(F, merged);
            && a.count == b.count && a.sum == b.sum && a.min == b.min && a.max == b.max
            && Queryable(a, rank) && Queryable(b, rank)
            && QuantileAt(F, a, rank) == QuantileAt(F, b, rank)
  {
    if v.exact.Some? {
      StoredReadsAgreeExact(F, v, rank);
    } else {
      StoredReadsAgreeApprox(F, v, rank);
    }
  }

  lemma StoredReadsAgreeExact(F: Floats, v: Summary, rank: nat)
    requires forall x :: F.add(0, x) == x
    requires 0 < rank <= v.count < W && KeptExact(v)
    ensures var merged := MergeBytes(F, NEW, ExactBytes(v));
            && merged == v
            && StoredSketch(ExactBytes(v)).Some?
            && var a := StoredSketch(ExactBytes(v)).value;
               var b := Encoded(F, merged);
            && a.count == b.count && a.sum == b.sum && a.min == b.min && a.max == b.max
            && Queryable(a, rank) && Queryable(b, rank)
            && QuantileAt(F, a, rank) == QuantileAt(F, b, rank)
  {
    hide Decode, StoredSketch, ExactBytes, Sort, ExactData, PatternAt, ReadWords, Xors, Unxor;
    var e := v.exact.value;
    ExactRoundTrip(v);
    assert [] + e == e;
    StoredExact(v);
    XorRoundTrip(e);
    SortedAnswer(F, e, rank);
  }

  lemma StoredReadsAgreeApprox(F: Floats, v: Summary, rank: nat)
    requires forall x :: F.add(0, x) == x
    requires 0 < rank <= v.count < W
    requires Storable(v) && v.exact.None? && v.count == Mass(v.hist) && Positive(v.hist) && |Codes(v.hist)| <= MAX_BINS
    ensures var merged := MergeBytes(F, NEW, ApproxBytes(v));
            && merged == v
            && StoredSketch(ApproxBytes(v)) == Some(Encoded(F, merged))
            && Queryable(Encoded(F, merged), rank)
  {
    hide Decode, StoredSketch, ApproxBytes, ApproxData, Collapse, Codes, Plus, ReadBins, ReadUvarint, Held, HistOf,
      Mass, Positive, Fits, Stored;
    ApproxRoundTrip(v);
    StoredApprox(F, v);
    PayloadOf(v.hist);
    PlusEmpty(v.hist);
    CollapseShape(v.hist);
  }
}
