/** The bytes of a sketch: a kind, a header, and either exact values or the bins. */
module SketchCodec {
  import opened Words
  import opened Varint
  import opened Reader
  import opened Sorted
  import opened Histograms
  import opened Sketches

  const EXACT: byte := 1
  const APPROX: byte := 2

  // ----- Encoding -----

  /** Keys are int64 and counts uint64. */
  predicate Fits(m: map<int, nat>) {
    && |m| < W
    && forall k :: k in m ==> -0x8000_0000_0000_0000 <= k < 0x8000_0000_0000_0000 && m[k] < W
  }

  /** The word for the i-th key: the first in zigzag form, the others as the distance to the one before. */
  function KeyWord(keys: seq<int>, i: nat): u64
    requires i < |keys|
    requires forall k :: k in keys ==> -0x8000_0000_0000_0000 <= k < 0x8000_0000_0000_0000
  {
    assert keys[i] in keys && (i > 0 ==> keys[i - 1] in keys);
    if i == 0 then Zigzag(keys[0]) else Sub(ToUnsigned(keys[i]), ToUnsigned(keys[i - 1]))
  }

  /** Two words a bin from the i-th key on: its key and its count. */
  function PairWords(keys: seq<int>, m: map<int, nat>, i: nat): (ws: seq<u64>)
    requires i <= |keys|
    requires Fits(m) && forall k :: k in keys ==> k in m
    ensures |ws| == 2 * (|keys| - i)
    decreases |keys| - i
  {
    if i == |keys| then [] else
    assert keys[i] in keys;
    [KeyWord(keys, i), m[keys[i]]] + PairWords(keys, m, i + 1)
  }

  function BinWords(m: map<int, nat>): seq<u64>
    requires Fits(m)
  {
    var keys := Ascending(m.Keys);
    [|keys|] + PairWords(keys, m, 0)
  }

  function HeaderWords(v: Summary): (ws: seq<u64>)
    requires v.count < W
  {
    [v.count, Reverse64(v.sum), Reverse64(v.min), Reverse64(v.max)]
  }

  predicate Storable(v: Summary) {
    && v.count < W && v.hist.zero < W && Fits(v.hist.negative) && Fits(v.hist.positive)
  }

  /** The bins of an approximated sketch. */
  function ApproxData(h: Hist): bytes
    requires h.zero < W && Fits(h.negative) && Fits(h.positive)
  {
    Encode([h.zero]) + Encode(BinWords(h.negative)) + Encode(BinWords(h.positive))
  }

  function ApproxBytes(v: Summary): bytes
    requires Storable(v)
  {
    [APPROX] + Encode(HeaderWords(v)) + ApproxData(v.hist)
  }

  function ExactBytes(v: Summary): bytes
    requires v.count < W
  {
    [EXACT] + Encode(HeaderWords(v)) + Encode(Xors(ExactOf(v)))
  }

  method AppendHeader(dst: bytes, kind: byte, v: Summary) returns (out: bytes)
    requires v.count < W
    ensures out == dst + [kind] + Encode(HeaderWords(v))
  {
    XorZero(Reverse64(v.sum));
    XorZero(Reverse64(v.min));
    XorZero(Reverse64(v.max));
    hide Reverse64, Encode, Leb, Xor64;
    Regroup5(dst, [kind], Leb(v.count), Leb(Reverse64(v.sum)), Leb(Reverse64(v.min)), Leb(Reverse64(v.max)));
    var current;
    out := dst + [kind];
    out := AppendUvarint(out, v.count);
    out, current := AppendFloat(out, v.sum, 0);
    out, current := AppendFloat(out, v.min, 0);
    out, current := AppendFloat(out, v.max, 0);
    EncodeFour(v.count, Reverse64(v.sum), Reverse64(v.min), Reverse64(v.max));
  }

  lemma Regroup5(dst: bytes, k: bytes, a: bytes, b: bytes, c: bytes, d: bytes)
    ensures dst + k + a + b + c + d == dst + k + (a + b + c + d)
  {
  }

  lemma EncodeFour(a: u64, b: u64, c: u64, d: u64)
    ensures Encode([a, b, c, d]) == Leb(a) + Leb(b) + Leb(c) + Leb(d)
  {
    hide Leb;
    EncodeOne(a);
    EncodeConcat([a], [b]);
    EncodeOne(b);
    EncodeConcat([a, b], [c]);
    EncodeOne(c);
    EncodeConcat([a, b, c], [d]);
    EncodeOne(d);
    assert [a] + [b] == [a, b] && [a, b] + [c] == [a, b, c] && [a, b, c] + [d] == [a, b, c, d];
  }

  method AppendSketchBins(dst: bytes, bins: map<int, nat>) returns (out: bytes)
    requires Fits(bins)
    ensures out == dst + Encode(BinWords(bins))
  {
    hide Encode, Leb, KeyWord, BinWords, Ascending, Fits, PairWords;
    var keys := Ascending(bins.Keys);
    ghost var ws := BinWords(bins);
    BinWordsStart(bins);
    EncodeOne(|keys|);
    out := AppendUvarint(dst, |keys|);
    var previous: i64 := 0;
    for i := 0 to |keys|
      invariant i > 0 ==> previous == keys[i - 1]
      invariant out == dst + Encode(ws[..2 * i + 1])
    {
      BinWordsAt(bins, i);
      out := AppendBin(out, keys, i, previous, bins[keys[i]], dst, ws[..2 * i + 1]);
      previous := keys[i];
    }
    assert ws[..2 * |keys| + 1] == ws;
  }

  lemma KeysFit(bins: map<int, nat>)
    requires Fits(bins)
    ensures var keys := Ascending(bins.Keys);
            && |keys| == |bins| < W
            && forall i :: 0 <= i < |keys| ==>
                 -0x8000_0000_0000_0000 <= keys[i] < 0x8000_0000_0000_0000 && keys[i] in bins && bins[keys[i]] < W
    ensures forall k :: k in Ascending(bins.Keys) ==> -0x8000_0000_0000_0000 <= k < 0x8000_0000_0000_0000
  {
    var keys := Ascending(bins.Keys);
    forall i | 0 <= i < |keys|
      ensures keys[i] in bins
    {
      assert keys[i] in keys;
    }
  }

  lemma BinWordsStart(bins: map<int, nat>)
    requires Fits(bins)
    ensures var keys, ws := Ascending(bins.Keys), BinWords(bins);
            && |keys| < W && |ws| == 2 * |keys| + 1 && ws[..1] == [|keys|]
            && forall k :: k in keys ==> -0x8000_0000_0000_0000 <= k < 0x8000_0000_0000_0000
  {
    hide KeyWord, PairWords, Ascending, Fits;
    KeysFit(bins);
  }

  lemma BinWordsAt(bins: map<int, nat>, i: nat)
    requires Fits(bins) && i < |bins|
    ensures var keys, ws := Ascending(bins.Keys), BinWords(bins);
            && keys[i] in bins && bins[keys[i]] < W && |ws| == 2 * |keys| + 1
            && -0x8000_0000_0000_0000 <= keys[i] < 0x8000_0000_0000_0000
            && (forall k :: k in keys ==> -0x8000_0000_0000_0000 <= k < 0x8000_0000_0000_0000)
            && ws[..2 * i + 3] == ws[..2 * i + 1] + [KeyWord(keys, i), bins[keys[i]]]
  {
    hide KeyWord, PairWords, Ascending, Fits;
    KeysFit(bins);
    PairWordsAt(Ascending(bins.Keys), bins, 0, i);
  }

  /** Appends the two words of one bin. */
  method AppendBin(out: bytes, keys: seq<int>, i: nat, previous: i64, count: u64, ghost dst: bytes, ghost ws: seq<u64>)
    returns (more: bytes)
    requires i < |keys| && forall k :: k in keys ==> -0x8000_0000_0000_0000 <= k < 0x8000_0000_0000_0000
    requires (i > 0 ==> previous == keys[i - 1]) && out == dst + Encode(ws)
    ensures more == dst + Encode(ws + [KeyWord(keys, i), count])
  {
    hide Encode, Leb, KeyWord, Zigzag, Sub, ToUnsigned;
    assert keys[i] in keys;
    var current: i64 := keys[i];
    ghost var w := KeyWord(keys, i);
    if i == 0 {
      more := AppendUvarint(out, Zigzag(current));
      FirstKeyWord(keys);
    } else {
      more := AppendUvarint(out, Sub(ToUnsigned(current), ToUnsigned(previous)));
      LaterKeyWord(keys, i);
    }
    EncodeConcat(ws, [w]);
    EncodeOne(w);
    assert more == dst + Encode(ws + [w]);
    EncodeConcat(ws + [w], [count]);
    EncodeOne(count);
    assert ws + [w] + [count] == ws + [w, count];
    more := AppendUvarint(more, count);
  }

  lemma FirstKeyWord(keys: seq<int>)
    requires keys != []
    requires forall k :: k in keys ==> -0x8000_0000_0000_0000 <= k < 0x8000_0000_0000_0000
    ensures keys[0] in keys && KeyWord(keys, 0) == Zigzag(keys[0])
  {
  }

  lemma LaterKeyWord(keys: seq<int>, i: nat)
    requires 0 < i < |keys|
    requires forall k :: k in keys ==> -0x8000_0000_0000_0000 <= k < 0x8000_0000_0000_0000
    ensures keys[i] in keys && keys[i - 1] in keys
    ensures KeyWord(keys, i) == Sub(ToUnsigned(keys[i]), ToUnsigned(keys[i - 1]))
  {
  }

  lemma {:induction false} PairWordsAt(keys: seq<int>, m: map<int, nat>, from: nat, i: nat)
    requires from <= i < |keys|
    requires Fits(m) && forall k :: k in keys ==> k in m
    ensures PairWords(keys, m, from)[2 * (i - from)] == KeyWord(keys, i)
    ensures PairWords(keys, m, from)[2 * (i - from) + 1] == m[keys[i]]
    decreases i - from
  {
    if from < i {
      PairWordsAt(keys, m, from + 1, i);
    }
  }

  method AppendSketchApproxData(dst: bytes, v: Summary) returns (out: bytes)
    requires Storable(v)
    ensures out == dst + ApproxData(v.hist)
  {
    EncodeOne(v.hist.zero);
    hide Encode, Leb, BinWords;
    out := AppendUvarint(dst, v.hist.zero);
    out := AppendSketchBins(out, v.hist.negative);
    out := AppendSketchBins(out, v.hist.positive);
    Regroup(dst, Leb(v.hist.zero), Encode(BinWords(v.hist.negative)), Encode(BinWords(v.hist.positive)));
  }

  lemma Regroup(a: bytes, b: bytes, c: bytes, d: bytes)
    ensures a + b + c + d == a + (b + c + d)
  {
  }

  method AppendSketchApprox(dst: bytes, v: Summary) returns (out: bytes)
    requires Storable(v)
    ensures out == dst + ApproxBytes(v)
  {
    hide ApproxData, HeaderWords, Encode, Fits;
    out := AppendHeader(dst, APPROX, v);
    out := AppendSketchApproxData(out, v);
    Regroup(dst, [APPROX], Encode(HeaderWords(v)), ApproxData(v.hist));
  }

  method AppendSketchExact(dst: bytes, v: Summary) returns (out: bytes)
    requires v.count < W
    ensures out == dst + ExactBytes(v)
  {
    out := AppendHeader(dst, EXACT, v);
    out := AppendFloatXor(out, ExactOf(v));
  }

  // ----- Decoding -----

  type Entry = (i64, u64)

  /** `n` bins, each a key word and a count word. A bin that is cut short reads as an empty one. */
  function ReadEntries(data: bytes, n: nat, first: bool, current: i64): (r: Parse<seq<Entry>>)
    ensures r.Got? ==> |r.value| == n && forall e :: e in r.value ==> e.1 > 0
    decreases n
  {
    if n == 0 then Got([], data) else
    match ReadWords(data, 2)
    case Bad(_) => Bad(Shape)
    case Got(w, rest) =>
      var key := NextKey(first, current, w[0]);
      if w[1] == 0 then Bad(Shape) else
      match ReadEntries(rest, n - 1, false, key)
      case Bad(e) => Bad(e)
      case Got(es, rest) => Got([(key, w[1])] + es, rest)
  }

  function NextKey(first: bool, current: i64, word: u64): i64 {
    if first then Unzigzag(word) else ToSigned(Add(ToUnsigned(current), word))
  }

  /** The bins at the front of some bytes, in the order they are stored. */
  function ReadBins(data: bytes): (r: Parse<seq<Entry>>)
    ensures r.Got? ==> forall e :: e in r.value ==> e.1 > 0
  {
    match ReadUvarint(data)
    case Bad(e) => Bad(e)
    case Got(n, rest) => if n > MAX_BINS then Bad(Large) else ReadEntries(rest, n, true, 0)
  }

  /** Later entries overwrite earlier ones with the same key. */
  function MapOf(es: seq<Entry>): map<int, nat> {
    if es == [] then map[] else MapOf(es[..|es| - 1])[es[|es| - 1].0 := es[|es| - 1].1]
  }

  ghost function Checked(v: Summary): Result<Summary> {
    if |v.hist.negative| + |v.hist.positive| > MAX_BINS then Err(Large)
    else if v.count != (|ExactOf(v)| + Mass(v.hist)) % W then Err(Shape)
    else Ok(v)
  }

  function ReadHist(data: bytes): Parse<Hist> {
    match ReadUvarint(data)
    case Bad(e) => Bad(e)
    case Got(zero, rest) =>
      match ReadBins(rest)
      case Bad(e) => Bad(e)
      case Got(negative, rest) =>
        match ReadBins(rest)
        case Bad(e) => Bad(e)
        case Got(positive, rest) => Got(Hist(zero, MapOf(negative), MapOf(positive)), rest)
  }

  function HeaderOf(w: seq<u64>): Summary
    requires |w| == 4
  {
    NEW.(count := w[0], sum := Reverse64(w[1]), min := Reverse64(w[2]), max := Reverse64(w[3]))
  }

  /** What decoding some bytes yields. A leading 0 returns the header alone, with nothing checked. */
  ghost function Decode(data: bytes): Result<Summary> {
    if data == [] then Ok(NEW) else
    match ReadWords(data[1..], 4)
    case Bad(e) => Err(e)
    case Got(w, rest) =>
      var out := HeaderOf(w);
      if data[0] == 0 then Ok(out)
      else if data[0] == EXACT then
        if out.count > MAX_INT then Err(Large) else
        match ReadWords(rest, out.count)
        case Bad(e) => Err(e)
        case Got(ws, rest) => if rest != [] then Err(Long) else Checked(out.(exact := Some(Unxor(ws))))
      else if data[0] == APPROX then
        match ReadHist(rest)
        case Bad(e) => Err(e)
        case Got(hist, rest) => if rest != [] then Err(Long) else Checked(out.(hist := hist))
      else Err(BadVarint)
  }

  /** Reads one bin; used by both passes over the bins. */
  method NextBin(r: CodecReader, i: nat, current: i64) returns (key: i64, count: u64)
    modifies r
    ensures match Take(old(r.At()), 2)
            case Bad(_) => r.At() == Bad(Shape)
            case Got(w, rest) =>
              if w[1] == 0 then r.At() == Bad(Shape)
              else r.At() == Got((), rest) && key == NextKey(i == 0, current, w[0]) && count == w[1]
  {
    TakeSplit(r.At(), 1, 1);
    if i == 0 {
      key := r.SignedVarint();
    } else {
      var step := r.Uvarint();
      key := ToSigned(Add(ToUnsigned(current), step));
    }
    count := r.Uvarint();
    if count == 0 {
      r.Fail(Shape);
    }
  }

  function BinsAt(at: Position): Parse<seq<Entry>> {
    match at
    case Bad(e) => Bad(e)
    case Got(_, data) => ReadBins(data)
  }

  /** The number of bins to come, checked against the cap. */
  method BinCount(r: CodecReader) returns (n: nat)
    modifies r
    ensures n <= MAX_BINS
    ensures match old(r.At())
            case Bad(e) => r.At() == Bad(e) && n == 0
            case Got(_, data) =>
              match ReadUvarint(data)
              case Bad(e) => r.At() == Bad(e) && n == 0
              case Got(m, rest) => if m > MAX_BINS then r.At() == Bad(Large) && n == 0 else r.At() == Got((), rest) && n == m
  {
    if r.err.None? {
      ReadOne(r.data);
    }
    n := r.Count();
    if n > MAX_BINS {
      r.Fail(Large);
      n := 0;
    }
  }

  /** `all` is what reading yields when `es` has been read and `n` bins are to come. */
  ghost predicate Continues(all: Parse<seq<Entry>>, es: seq<Entry>, data: bytes, n: nat, first: bool, current: i64) {
    match ReadEntries(data, n, first, current)
    case Bad(e) => all == Bad(e)
    case Got(more, rest) => all == Got(es + more, rest)
  }

  lemma EntriesStep(all: Parse<seq<Entry>>, es: seq<Entry>, data: bytes, n: nat, first: bool, current: i64)
    requires n > 0 && Continues(all, es, data, n, first, current)
    ensures match ReadWords(data, 2)
            case Bad(_) => all == Bad(Shape)
            case Got(w, rest) =>
              if w[1] == 0 then all == Bad(Shape)
              else var key := NextKey(first, current, w[0]);
                   Continues(all, es + [(key, w[1])], rest, n - 1, false, key)
  {
    if ReadWords(data, 2).Got? && ReadWords(data, 2).value[1] != 0 {
      var Got(w, rest) := ReadWords(data, 2);
      var key := NextKey(first, current, w[0]);
      if ReadEntries(rest, n - 1, false, key).Got? {
        var more := ReadEntries(rest, n - 1, false, key).value;
        assert es + ([(key, w[1])] + more) == es + [(key, w[1])] + more;
      }
    }
  }

  lemma EntriesEnds(data: bytes, n: nat, es: seq<Entry>, all: Parse<seq<Entry>>, current: i64)
    ensures Continues(ReadEntries(data, n, true, 0), [], data, n, true, 0)
    ensures Continues(all, es, data, 0, n == 0, current) ==> all == Got(es, data)
  {
    assert es + [] == es;
    if ReadEntries(data, n, true, 0).Got? {
      assert [] + ReadEntries(data, n, true, 0).value == ReadEntries(data, n, true, 0).value;
    }
  }

  lemma MapOfSnoc(es: seq<Entry>, e: Entry)
    ensures MapOf(es + [e]) == MapOf(es)[e.0 := e.1]
  {
    assert (es + [e])[..|es|] == es;
  }

  method SketchBins(r: CodecReader) returns (out: map<int, nat>)
    modifies r
    ensures r.At() == Forget(BinsAt(old(r.At())))
    ensures r.At().Got? ==> out == MapOf(BinsAt(old(r.At())).value)
  {
    hide MapOf, ReadEntries, Continues;
    out := map[];
    var n := BinCount(r);
    if r.err.Some? {
      return;
    }
    ghost var all := ReadEntries(r.data, n, true, 0);
    ghost var es: seq<Entry> := [];
    var i := 0;
    var current: i64 := 0;
    EntriesEnds(r.data, n, es, all, current);
    assert out == MapOf(es) by { MapOfNone(); }
    while i < n
      invariant i <= n
      invariant r.err.None? && out == MapOf(es)
      invariant Continues(all, es, r.data, n - i, i == 0, current)
    {
      EntriesStep(all, es, r.data, n - i, i == 0, current);
      var count;
      current, count := NextBin(r, i, current);
      if r.err.Some? {
        return;
      }
      MapOfSnoc(es, (current, count));
      out := out[current := count];
      es := es + [(current, count)];
      i := i + 1;
    }
    EntriesEnds(r.data, n, es, all, current);
  }

  lemma MapOfNone()
    ensures MapOf([]) == map[]
  {
  }

  method SumBins(bins: map<int, nat>) returns (out: u64)
    requires forall k :: k in bins ==> bins[k] < W
    ensures out == Total(bins) % W
  {
    hide Total;
    TotalNone();
    out := 0;
    var left: map<int, nat> := bins;
    while left != map[]
      invariant forall k :: k in left ==> left[k] < W
      invariant Total(left) <= Total(bins) && out == (Total(bins) - Total(left)) % W
      decreases |left|
    {
      Inhabited(left.Keys);
      var k :| k in left;
      TotalTake(left, k);
      AddModuloOne(Total(bins), out, left[k], Total(left - {k}));
      out := Add(out, left[k]);
      left := left - {k};
    }
  }

  lemma TotalNone()
    ensures Total(map[]) == 0
  {
  }

  lemma AddModuloOne(t: nat, a: u64, b: u64, c: nat)
    requires a == (t - (b + c)) % W
    ensures Add(a, b) == (t - c) % W
  {
  }

  lemma {:induction false} MapOfFits(es: seq<Entry>)
    ensures forall k :: k in MapOf(es) ==>
              -0x8000_0000_0000_0000 <= k < 0x8000_0000_0000_0000 && 0 <= MapOf(es)[k] < W
    ensures (forall e :: e in es ==> e.1 > 0) ==> forall k :: k in MapOf(es) ==> MapOf(es)[k] > 0
    ensures |MapOf(es)| <= |es|
  {
    if es != [] {
      MapOfFits(es[..|es| - 1]);
      assert es[|es| - 1] in es;
      assert forall e :: e in es[..|es| - 1] ==> e in es;
      var m := MapOf(es[..|es| - 1]);
      assert MapOf(es).Keys == m.Keys + {es[|es| - 1].0};
    }
  }

  method Check(v: Summary) returns (r: Result<Summary>)
    requires v.count < W && v.hist.zero < W && |ExactOf(v)| < W
    requires forall k :: k in v.hist.negative ==> v.hist.negative[k] < W
    requires forall k :: k in v.hist.positive ==> v.hist.positive[k] < W
    ensures r == Checked(v)
  {
    if |v.hist.negative| + |v.hist.positive| > MAX_BINS {
      return Err(Large);
    }
    var n := SumBins(v.hist.negative);
    var p := SumBins(v.hist.positive);
    var counted := Add(Add(Add(|ExactOf(v)|, v.hist.zero), n), p);
    AddModulo(|ExactOf(v)|, v.hist.zero, Total(v.hist.negative), Total(v.hist.positive), n, p);
    if v.count != counted {
      return Err(Shape);
    }
    r := Ok(v);
  }

  lemma AddModulo(a: u64, b: u64, c: nat, d: nat, c': u64, d': u64)
    requires c' == c % W && d' == d % W
    ensures Add(Add(Add(a, b), c'), d') == (a + (b + c + d)) % W
  {
  }

  method ReadHistogram(r: CodecReader) returns (h: Hist)
    modifies r
    ensures match old(r.At())
            case Bad(e) => r.At() == Bad(e)
            case Got(_, data) => r.At() == Forget(ReadHist(data)) && (ReadHist(data).Got? ==> h == ReadHist(data).value)
  {
    hide ReadBins, ReadUvarint, MapOf;
    ReadOne(r.data);
    var zero := r.Uvarint();
    var negative := SketchBins(r);
    var positive := SketchBins(r);
    h := Hist(zero, negative, positive);
  }

  method ReadHeader(r: CodecReader) returns (v: Summary)
    modifies r
    ensures r.At() == Forget(Take(old(r.At()), 4))
    ensures r.At().Got? ==> v == HeaderOf(Take(old(r.At()), 4).value)
  {
    hide Take, Reverse64;
    ghost var start := r.At();
    TakeSplit(start, 1, 1);
    TakeSplit(start, 2, 1);
    TakeSplit(start, 3, 1);
    var count := r.Uvarint();
    var sum := r.Float();
    var min := r.Float();
    var max := r.Float();
    v := NEW.(count := count, sum := sum, min := min, max := max);
  }

  /** `decodeSketch`. */
  method DecodeSketch(data: bytes) returns (out: Result<Summary>)
    ensures out == Decode(data)
  {
    hide ReadHist, Checked, HeaderOf, Unxor;
    if |data| == 0 {
      return Ok(NEW);
    }
    var r := new CodecReader(data);
    var kind := r.Byte();
    var v := ReadHeader(r);
    if r.err.Some? {
      return Err(r.err.value);
    }
    HeaderFits(Take(Got((), data[1..]), 4).value);
    if kind == 0 {
      return Ok(v);
    }
    if kind == EXACT {
      if v.count > MAX_INT {
        return Err(Large);
      }
      var exact := r.FloatXor(v.count);
      v := v.(exact := Some(exact));
    } else if kind == APPROX {
      if ReadHist(r.data).Got? {
        EntriesFit(r.data);
      }
      var hist := ReadHistogram(r);
      v := v.(hist := hist);
    } else {
      return Err(BadVarint);
    }
    var e := r.Done();
    if e.Some? {
      return Err(e.value);
    }
    out := Check(v);
  }

  lemma HeaderFits(w: seq<u64>)
    requires |w| == 4
    ensures HeaderOf(w).count < W && HeaderOf(w).exact == None && HeaderOf(w).hist == EMPTY
  {
  }

  lemma EntriesFit(data: bytes)
    requires ReadHist(data).Got?
    ensures var h := ReadHist(data).value;
            && h.zero < W
            && (forall k :: k in h.negative ==> h.negative[k] < W)
            && (forall k :: k in h.positive ==> h.positive[k] < W)
  {
    var rest := ReadUvarint(data).rest;
    MapOfFits(ReadBins(rest).value);
    MapOfFits(ReadBins(ReadBins(rest).rest).value);
  }
}
