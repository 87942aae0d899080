/** Sketches as bytes: what is written is read back, and merging bytes merges observations. */
module SketchBytes {
  import opened Words
  import opened Varint
  import opened Reader
  import opened FloatModel
  import opened Sorted
  import opened Histograms
  import opened Sketches
  import opened Observations
  import opened SketchCodec

  // ----- Round trips -----

  function EntriesOf(keys: seq<int>, m: map<int, nat>, i: nat): (es: seq<Entry>)
    requires i <= |keys|
    requires Fits(m) && forall k :: k in keys ==> k in m
    ensures |es| == |keys| - i
    decreases |keys| - i
  {
    if i == |keys| then [] else
    var k := keys[i];
    assert k in keys;
    var n: u64 := m[k];
    [(k, n)] + EntriesOf(keys, m, i + 1)
  }

  lemma {:induction false} EntryAt(keys: seq<int>, m: map<int, nat>, i: nat, j: nat)
    requires i + j < |keys|
    requires Fits(m) && forall k :: k in keys ==> k in m
    ensures keys[i + j] in m && EntriesOf(keys, m, i)[j] == (keys[i + j], m[keys[i + j]])
    decreases j
  {
    var k := keys[i + j];
    assert k in keys;
    if j > 0 {
      EntryAt(keys, m, i + 1, j - 1);
    }
  }

  /** The step between two keys is right even when it passes 2^63. */
  lemma NextKeyOfWord(keys: seq<int>, i: nat, previous: i64)
    requires i < |keys|
    requires forall k :: k in keys ==> -0x8000_0000_0000_0000 <= k < 0x8000_0000_0000_0000
    requires i > 0 ==> previous == keys[i - 1]
    ensures NextKey(i == 0, previous, KeyWord(keys, i)) == keys[i]
  {
    assert keys[i] in keys;
    if i == 0 {
      ZigzagRoundTrip(keys[0], 0);
    }
  }

  lemma {:induction false} EntriesRoundTrip(keys: seq<int>, m: map<int, nat>, i: nat, previous: i64, rest: bytes)
    requires i <= |keys|
    requires Fits(m) && forall k :: k in keys ==> k in m
    requires forall k :: k in keys ==> m[k] > 0
    requires i > 0 ==> previous == keys[i - 1]
    ensures ReadEntries(Encode(PairWords(keys, m, i)) + rest, |keys| - i, i == 0, previous)
         == Got(EntriesOf(keys, m, i), rest)
    decreases |keys| - i
  {
    hide KeyWord, NextKey;
    var data := Encode(PairWords(keys, m, i)) + rest;
    if i == |keys| {
      assert data == rest;
    } else {
      assert keys[i] in keys;
      var pair := [KeyWord(keys, i), m[keys[i]]];
      var more := Encode(PairWords(keys, m, i + 1)) + rest;
      EncodeConcat(pair, PairWords(keys, m, i + 1));
      assert data == Encode(pair) + more;
      WordsRoundTrip(pair, more);
      NextKeyOfWord(keys, i, previous);
      EntriesRoundTrip(keys, m, i + 1, keys[i], rest);
    }
  }

  lemma {:induction false} MapOfEntries(keys: seq<int>, m: map<int, nat>, es: seq<Entry>)
    requires |es| == |keys| && forall i :: 0 <= i < |keys| ==> keys[i] in m && es[i] == (keys[i], m[keys[i]])
    ensures forall k :: k in MapOf(es) <==> k in keys
    ensures forall k :: k in keys ==> MapOf(es)[k] == m[k]
  {
    if es != [] {
      var n := |es| - 1;
      MapOfEntries(keys[..n], m, es[..n]);
      assert forall k :: k in keys <==> k in keys[..n] || k == keys[n];
    }
  }

  /** A histogram's bins, as stored, in increasing key order. */
  function Stored(m: map<int, nat>): seq<Entry>
    requires Fits(m)
  {
    EntriesOf(Ascending(m.Keys), m, 0)
  }

  lemma BinsRoundTrip(m: map<int, nat>, rest: bytes)
    requires Fits(m) && |m| <= MAX_BINS
    requires forall k :: k in m ==> m[k] > 0
    ensures ReadBins(Encode(BinWords(m)) + rest) == Got(Stored(m), rest)
    ensures MapOf(Stored(m)) == m
  {
    hide PairWords, MapOf, Encode, Leb, ReadEntries, EntriesOf, Ascending, ReadUvarint;
    var keys := Ascending(m.Keys);
    var words := PairWords(keys, m, 0);
    EncodeConcat([|keys|], words);
    EncodeOne(|keys|);
    assert Encode(BinWords(m)) + rest == Leb(|keys|) + (Encode(words) + rest);
    UvarintRoundTrip(|keys|, Encode(words) + rest);
    EntriesRoundTrip(keys, m, 0, 0, rest);
    StoredMap(m);
  }

  lemma StoredMap(m: map<int, nat>)
    requires Fits(m)
    ensures MapOf(Stored(m)) == m
  {
    hide MapOf, EntriesOf, Ascending;
    var keys := Ascending(m.Keys);
    forall i | 0 <= i < |keys|
      ensures keys[i] in m && Stored(m)[i] == (keys[i], m[keys[i]])
    {
      EntryAt(keys, m, 0, i);
    }
    MapOfEntries(keys, m, Stored(m));
    var back := MapOf(Stored(m));
    assert forall k :: k in back <==> k in m;
    assert forall k :: k in m ==> back[k] == m[k];
    assert back == m;
  }

  lemma HistRoundTrip(h: Hist, rest: bytes)
    requires h.zero < W && Fits(h.negative) && Fits(h.positive)
    requires Positive(h) && |Codes(h)| <= MAX_BINS
    ensures ReadHist(ApproxData(h) + rest) == Got(h, rest)
  {
    hide BinWords, ReadBins, MapOf, Encode, Leb, ReadUvarint, Stored, Codes;
    CodesCount(h);
    var n, p := Encode(BinWords(h.negative)), Encode(BinWords(h.positive));
    EncodeOne(h.zero);
    assert ApproxData(h) == Leb(h.zero) + n + p;
    Regroup(Leb(h.zero), n, p, rest);
    assert n + p + rest == n + (p + rest);
    assert Leb(h.zero) + n + p + rest == Leb(h.zero) + (n + (p + rest));
    UvarintRoundTrip(h.zero, n + (p + rest));
    BinsRoundTrip(h.negative, p + rest);
    BinsRoundTrip(h.positive, rest);
  }

  lemma HeaderRoundTrip(kind: byte, v: Summary, payload: bytes)
    requires v.count < W
    ensures var data := [kind] + Encode(HeaderWords(v)) + payload;
            && data != [] && data[0] == kind
            && ReadWords(data[1..], 4) == Got(HeaderWords(v), payload)
            && HeaderOf(HeaderWords(v)) == v.(exact := None, hist := EMPTY)
  {
    var data := [kind] + Encode(HeaderWords(v)) + payload;
    assert data[1..] == Encode(HeaderWords(v)) + payload;
    WordsRoundTrip(HeaderWords(v), payload);
    Reverse64Twice(v.sum);
    Reverse64Twice(v.min);
    Reverse64Twice(v.max);
  }

  /** Decoding an encoded approximate sketch gives it back, floats bit for bit. */
  lemma ApproxRoundTrip(v: Summary)
    requires Storable(v) && v.exact.None?
    requires v.count == Mass(v.hist) && Positive(v.hist) && |Codes(v.hist)| <= MAX_BINS
    ensures Decode(ApproxBytes(v)) == Ok(v)
  {
    hide ReadHist, ApproxData, HeaderWords, HeaderOf, Mass, Positive, Codes, Fits, ReadWords, Encode;
    HeaderRoundTrip(APPROX, v, ApproxData(v.hist));
    HistRoundTrip(v.hist, []);
    assert ApproxData(v.hist) + [] == ApproxData(v.hist);
    CodesCount(v.hist);
  }

  /** And so does decoding exact values. */
  lemma ExactRoundTrip(v: Summary)
    requires v.exact.Some? && v.hist == EMPTY
    requires v.count == |v.exact.value| <= MAX_INT
    ensures Decode(ExactBytes(v)) == Ok(v)
  {
    hide HeaderWords, HeaderOf, Encode, Xors, Unxor, ReadWords;
    TotalNone();
    HeaderRoundTrip(EXACT, v, Encode(Xors(v.exact.value)));
    WordsRoundTrip(Xors(v.exact.value), []);
    assert Encode(Xors(v.exact.value)) + [] == Encode(Xors(v.exact.value));
    XorRoundTrip(v.exact.value);
  }

  // ----- What decoding guarantees -----

  lemma ReadHistShape(data: bytes)
    requires ReadHist(data).Got?
    ensures Positive(ReadHist(data).value)
  {
    var rest := ReadUvarint(data).rest;
    MapOfFits(ReadBins(rest).value);
    MapOfFits(ReadBins(ReadBins(rest).rest).value);
  }

  lemma EmptyPositive()
    ensures Positive(EMPTY)
  {
  }

  /** Every observation is counted in one place, up to wrap-around. */
  ghost predicate Accounted(v: Summary) {
    v.count == (|ExactOf(v)| + Mass(v.hist)) % W
  }

  /** A leading 0 and a count that is not 0: a header that claims observations and holds none. */
  predicate EmptyClaim(data: bytes) {
    data != [] && data[0] == 0 && ReadUvarint(data[1..]).Got? && ReadUvarint(data[1..]).value != 0
  }

  /** Any bytes that decode hold at most `MAX_BINS` bins, none of them empty. They account for every
      observation (modulo 2^64) exactly when they are not an empty claim. */
  lemma DecodedShape(data: bytes)
    requires Decode(data).Ok?
    ensures var v := Decode(data).value;
            && v.count < W && Positive(v.hist) && |Codes(v.hist)| <= MAX_BINS
            && (v.exact.Some? ==> v.hist == EMPTY)
    ensures Accounted(Decode(data).value) <==> !EmptyClaim(data)
  {
    hide Decode, Codes, Positive, Accounted, ReadUvarint;
    var v := Decode(data).value;
    DecodeChecks(data);
    CodesCount(v.hist);
    if data == [] || data[0] == 0 {
      BareHeader(v);
    }
    if data != [] {
      DecodedCount(data);
    }
  }

  /** The count of a decoded sketch is the integer behind the first byte. */
  lemma DecodedCount(data: bytes)
    requires data != [] && Decode(data).Ok?
    ensures ReadUvarint(data[1..]).Got? && Decode(data).value.count == ReadUvarint(data[1..]).value
  {
    hide ReadHist, ReadUvarint, Unxor, Mass;
    ReadWordsSplit(data[1..], 1, 3);
    ReadOne(data[1..]);
  }

  lemma BareHeader(v: Summary)
    requires v.count < W && v.exact.None? && v.hist == EMPTY
    ensures Accounted(v) <==> v.count == 0
    ensures Positive(v.hist)
  {
    TotalNone();
  }

  lemma DecodeChecks(data: bytes)
    requires Decode(data).Ok?
    ensures var v := Decode(data).value;
            && v.count < W
            && (data == [] ==> v == NEW)
            && (data != [] && data[0] == 0 ==> v.exact.None? && v.hist == EMPTY)
            && (data != [] && data[0] != 0 ==>
                  Accounted(v) && |v.hist.negative| + |v.hist.positive| <= MAX_BINS && Positive(v.hist) && (v.exact.Some? ==> v.hist == EMPTY))
  {
    hide ReadHist, ReadWords, Unxor, Mass, Positive;
    EmptyPositive();
    if data != [] && data[0] == APPROX {
      ReadHistShape(ReadWords(data[1..], 4).rest);
    }
  }

  /** Empty claims are decoded without complaint: five bytes that claim one observation. */
  lemma BareHeaderDecodes()
    ensures EmptyClaim([0, 1, 0, 0, 0])
    ensures Decode([0, 1, 0, 0, 0]) == Ok(NEW.(count := 1)) && !Accounted(NEW.(count := 1))
  {
    var w: seq<u64> := [1, 0, 0, 0];
    EncodeFour(1, 0, 0, 0);
    assert Leb(1) == [1] && Leb(0) == [0];
    WordsRoundTrip(w, []);
    assert Encode(w) + [] == [1, 0, 0, 0];
    assert [0, 1, 0, 0, 0][1..] == [1, 0, 0, 0];
    XorZero(0);
    ReverseZero(64);
    DecodedCount([0, 1, 0, 0, 0]);
    DecodedShape([0, 1, 0, 0, 0]);
  }

  // ----- Stored sketches -----

  /** A sketch of fewer than 2^64 float64 observations can be stored once it is approximated. */
  lemma Storage(F: Floats, v: Summary, obs: seq<u64>)
    requires Represents(F, v, obs) && F.Ranged() && |obs| < W
    ensures Storable(Approximate(F, v))
    ensures Decode(ApproxBytes(Approximate(F, v))) == Ok(Approximate(F, v))
  {
    hide Collapse, HistOf, Decode, Plus, Codes, Total, Represents, Approximate, ApproxBytes, Fits;
    var w := Approximate(F, v);
    ApproximateRepresents(F, v, obs);
    Represented(F, w, obs);
    CountedOnce(F, w, obs);
    StoredFits(F, obs, w.hist);
    ApproximateStores(F, w);
  }

  lemma ApproximateStores(F: Floats, w: Summary)
    requires w.count < W && w.exact.None? && Fits(w.hist.negative) && Fits(w.hist.positive)
    requires w.count == w.hist.zero + Total(w.hist.negative) + Total(w.hist.positive)
    requires Positive(w.hist) && |Codes(w.hist)| <= MAX_BINS
    ensures Storable(w) && Decode(ApproxBytes(w)) == Ok(w)
  {
    hide Decode, Codes, ApproxBytes;
    ApproxRoundTrip(w);
  }

  lemma StoredFits(F: Floats, obs: seq<u64>, h: Hist)
    requires F.Ranged() && h == Collapse(HistOf(F, obs))
    requires h.zero + Total(h.negative) + Total(h.positive) < W
    ensures Fits(h.negative) && Fits(h.positive)
  {
    hide Collapse, HistOf, Codes, Total;
    CodesCount(h);
    CollapseShape(HistOf(F, obs));
    forall k | k in h.negative
      ensures -0x8000_0000_0000_0000 <= k < 0x8000_0000_0000_0000 && h.negative[k] < W
    {
      InCodes(h, 2 * k);
      StoredKey(F, obs, 2 * k);
      TotalTake(h.negative, k);
    }
    forall k | k in h.positive
      ensures -0x8000_0000_0000_0000 <= k < 0x8000_0000_0000_0000 && h.positive[k] < W
    {
      InCodes(h, 2 * k + 1);
      StoredKey(F, obs, 2 * k + 1);
      TotalTake(h.positive, k);
    }
  }

  lemma StoredKey(F: Floats, obs: seq<u64>, c: int)
    requires F.Ranged() && c in Codes(Collapse(HistOf(F, obs)))
    ensures -0x4_0000 <= c <= 0x4_0000
  {
    hide Collapse, HistOf;
    CollapseShape(HistOf(F, obs));
    assert c in Codes(HistOf(F, obs));
    BinHolds(F, obs, c);
    var x :| x in obs && HasCode(F, x, c);
    CodeRange(F, x);
  }

  /** `mergeBytes`: bytes that do not decode change nothing. */
  ghost function MergeBytes(F: Floats, v: Summary, data: bytes): Summary {
    match Decode(data)
    case Ok(other) => Merge(F, v, other)
    case Err(_) => v
  }

  // ----- Mergeable summaries -----

  /** A way of building a sketch: one observation at a time, exact or binned, or by merging the bytes
      of another sketch in approximate form or, when it still has its exact values, in exact form. */
  datatype Plan =
    | Nothing
    | Exactly(rest: Plan, x: u64)
    | Binned(rest: Plan, x: u64)
    | Merged(into: Plan, from: Plan, exactly: bool)

  function Observed(p: Plan): seq<u64> {
    match p
    case Nothing => []
    case Exactly(rest, x) => Observed(rest) + [x]
    case Binned(rest, x) => Observed(rest) + [x]
    case Merged(into, from, _) => Observed(into) + Observed(from)
  }

  predicate KeptExact(v: Summary) {
    v.exact.Some? && v.hist == EMPTY && v.count == |v.exact.value| <= MAX_INT
  }

  ghost function Serialized(F: Floats, v: Summary, exactly: bool): bytes
    requires Storable(Approximate(F, v))
  {
    if exactly && KeptExact(v) then ExactBytes(v) else ApproxBytes(Approximate(F, v))
  }

  ghost function Build(F: Floats, p: Plan): (v: Summary)
    requires F.Ranged() && |Observed(p)| < W
    ensures Represents(F, v, Observed(p))
  {
    match p
    case Nothing => NewRepresents(F); NEW
    case Exactly(rest, x) =>
      AddExactRepresents(F, Build(F, rest), Observed(rest), x);
      AddExact(F, Build(F, rest), x)
    case Binned(rest, x) =>
      AddApproxRepresents(F, Build(F, rest), Observed(rest), x);
      AddApprox(F, Build(F, rest), x)
    case Merged(into, from, exactly) =>
      Storage(F, Build(F, from), Observed(from));
      SerializedMerges(F, Build(F, into), Build(F, from), Observed(into), Observed(from), exactly);
      MergeBytes(F, Build(F, into), Serialized(F, Build(F, from), exactly))
  }

  /** Merging the bytes of a sketch adds exactly its observations. */
  lemma SerializedMerges(F: Floats, v: Summary, other: Summary, a: seq<u64>, b: seq<u64>, exactly: bool)
    requires Represents(F, v, a) && Represents(F, other, b)
    requires F.Ranged() && |b| < W && Storable(Approximate(F, other))
    ensures Represents(F, MergeBytes(F, v, Serialized(F, other, exactly)), a + b)
  {
    hide Represents, Merge, Decode, Approximate, ExactBytes, ApproxBytes;
    if exactly && KeptExact(other) {
      ExactRoundTrip(other);
      MergeRepresents(F, v, other, a, b);
    } else {
      Storage(F, other, b);
      ApproximateRepresents(F, other, b);
      ApproximateUnmixed(F, other, b);
      MergeRepresents(F, v, Approximate(F, other), a, b);
    }
  }

  lemma ApproximateUnmixed(F: Floats, v: Summary, obs: seq<u64>)
    requires Represents(F, v, obs)
    ensures Unmixed(Approximate(F, v))
  {
    hide Collapse, Plus;
    ApproximateRepresents(F, v, obs);
    if v.count == 0 {
      HistOfOne(F, 0);
      CollapseShape(EMPTY);
      EmptyCodes();
    }
  }

  /** Sketches are mergeable summaries: any two ways of building a sketch of the same observations,
      in any order, split and nested in any way, end in the same stored bins; and, rounding and
      signed zeros aside, in the same bytes. */
  lemma PlansAgree(F: Floats, p: Plan, q: Plan)
    requires F.Ranged() && |Observed(p)| < W
    requires multiset(Observed(p)) == multiset(Observed(q))
    ensures |Observed(q)| < W
    ensures var v, w := Approximate(F, Build(F, p)), Approximate(F, Build(F, q));
            && Storable(v) && Storable(w)
            && v.hist == w.hist == Collapse(HistOf(F, Observed(p)))
            && v.count == w.count == |Observed(p)|
            && F.val(v.min) == F.val(w.min) && F.val(v.max) == F.val(w.max)
            && (F.Exact() && F.Distinct() ==> ApproxBytes(v) == ApproxBytes(w))
  {
    hide Approximate, Collapse, HistOf, Represents, ApproxBytes;
    assert |multiset(Observed(p))| == |multiset(Observed(q))|;
    var v, w := Build(F, p), Build(F, q);
    Storage(F, v, Observed(p));
    Storage(F, w, Observed(q));
    SketchesAgree(F, v, w, Observed(p), Observed(q));
    ApproximateRepresents(F, v, Observed(p));
    Represented(F, v, Observed(p));
    Represented(F, Approximate(F, v), Observed(p));
    ApproximateKeeps(F, v);
    ApproximateKeeps(F, w);
  }

  lemma Represented(F: Floats, v: Summary, obs: seq<u64>)
    requires Represents(F, v, obs)
    ensures v.count == |obs|
    ensures |Codes(v.hist)| <= MAX_BINS && Positive(v.hist)
  {
  }

  lemma ApproximateKeeps(F: Floats, v: Summary)
    ensures var w := Approximate(F, v); w.count == v.count && w.sum == v.sum && w.min == v.min && w.max == v.max
  {
  }
}
