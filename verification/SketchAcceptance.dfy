/** Serving a stored sketch as it lies and decoding it judge the same bytes: where they agree, and where not. */
module SketchAcceptance {
  import opened Words
  import opened Varint
  import opened Reader
  import opened Histograms
  import opened SketchCodec
  import opened Quantiles
  import opened SketchQueries

  // ----- Listed bins and the map they fill -----

  predicate KeysOnce(es: seq<Entry>) { forall i, j :: 0 <= i < j < |es| ==> es[i].0 != es[j].0 }

  /** What is lost when a later bin overwrites the count of an earlier one with the same key. */
  function Overwritten(es: seq<Entry>): nat {
    if es == [] then 0 else
    var front, e := es[..|es| - 1], es[|es| - 1];
    Overwritten(front) + Get(MapOf(front), e.0)
  }

  lemma {:induction false} MapSplits(es: seq<Entry>)
    ensures Held(es) == Total(MapOf(es)) + Overwritten(es)
  {
    if es == [] {
      NothingTotal(es);
    } else {
      hide Total, MapOf, Held, Overwritten;
      var front, e := es[..|es| - 1], es[|es| - 1];
      MapSplits(front);
      LastEntry(es);
      TotalPut(MapOf(front), e.0, e.1);
    }
  }

  lemma NothingTotal(es: seq<Entry>)
    requires es == []
    ensures Held(es) == 0 && Total(MapOf(es)) == 0 && Overwritten(es) == 0
  {
  }

  lemma LastEntry(es: seq<Entry>)
    requires es != []
    ensures var front, e := es[..|es| - 1], es[|es| - 1];
            && Held(es) == Held(front) + e.1 && MapOf(es) == MapOf(front)[e.0 := e.1]
            && Overwritten(es) == Overwritten(front) + Get(MapOf(front), e.0)
  {
  }

  lemma {:induction false} MapKeys(es: seq<Entry>, k: int)
    ensures k in MapOf(es) <==> exists i :: 0 <= i < |es| && es[i].0 == k
    ensures |MapOf(es)| <= |es|
    ensures (forall e :: e in es ==> e.1 > 0) && k in MapOf(es) ==> MapOf(es)[k] > 0
  {
    if es != [] {
      hide MapOf;
      var front, e := es[..|es| - 1], es[|es| - 1];
      assert es == front + [e];
      MapKeys(front, k);
      LastEntry(es);
      assert MapOf(es).Keys == MapOf(front).Keys + {e.0};
    }
  }

  /** Nothing is lost exactly when no key occurs twice, and then each bin has its own key in the map. */
  lemma {:induction false} OnceMeansNothing(es: seq<Entry>)
    requires forall e :: e in es ==> e.1 > 0
    ensures KeysOnce(es) <==> Overwritten(es) == 0
    ensures KeysOnce(es) ==> |MapOf(es)| == |es|
  {
    if es != [] {
      hide MapOf, Overwritten;
      var front, e := es[..|es| - 1], es[|es| - 1];
      assert es == front + [e];
      OnceMeansNothing(front);
      LastEntry(es);
      MapKeys(front, e.0);
      assert KeysOnce(es) <==> KeysOnce(front) && e.0 !in MapOf(front) by { OnceSnoc(front, e); }
      if e.0 !in MapOf(front) {
        assert MapOf(es).Keys == MapOf(front).Keys + {e.0};
      }
    } else {
      NothingTotal(es);
    }
  }

  lemma OnceSnoc(es: seq<Entry>, e: Entry)
    ensures KeysOnce(es + [e]) <==> KeysOnce(es) && e.0 !in MapOf(es)
  {
    hide MapOf;
    MapKeys(es, e.0);
    var s := es + [e];
    assert forall i :: 0 <= i < |es| ==> s[i] == es[i];
    assert s[|es|] == e;
  }

  // ----- The two judgements -----

  /** The bins a binned payload lists. */
  datatype Listed = Listed(zero: u64, negative: seq<Entry>, positive: seq<Entry>)

  function BinsIn(payload: bytes): Option<Listed> {
    match ReadUvarint(payload)
    case Bad(_) => None
    case Got(zero, rest) =>
      match ReadBins(rest)
      case Bad(_) => None
      case Got(negative, rest) =>
        match ReadBins(rest)
        case Bad(_) => None
        case Got(positive, rest) => if rest == [] then Some(Listed(zero, negative, positive)) else None
  }

  lemma ListedPositive(payload: bytes)
    requires BinsIn(payload).Some?
    ensures var b := BinsIn(payload).value; forall e :: e in b.negative || e in b.positive ==> e.1 > 0
  {
    hide ReadBins, ReadUvarint;
  }

  /** The listed bins are few enough and hold the count. */
  predicate ListFits(b: Listed, count: u64) {
    |b.negative| + |b.positive| <= MAX_BINS && count == (b.zero + Held(b.negative) + Held(b.positive)) % W
  }

  /** The bins that are left when later ones overwrite earlier ones are few enough and hold the count. */
  predicate MapFits(b: Listed, count: u64) {
    && |MapOf(b.negative)| + |MapOf(b.positive)| <= MAX_BINS
    && count == (b.zero + Held(b.negative) - Overwritten(b.negative) + Held(b.positive) - Overwritten(b.positive)) % W
  }

  lemma ServedVerdict(data: bytes, w: seq<u64>, payload: bytes)
    requires data != [] && ReadWords(data[1..], 4) == Got(w, payload)
    ensures data[0] == APPROX ==>
              (StoredSketch(data).Some? <==> BinsIn(payload).Some? && ListFits(BinsIn(payload).value, HeaderOf(w).count))
    ensures data[0] == EXACT ==> (StoredSketch(data).Some? <==> exists ws :: ReadWords(payload, HeaderOf(w).count) == Got(ws, []))
    ensures data[0] != APPROX && data[0] != EXACT ==> StoredSketch(data).None?
  {
    hide ReadBins, ReadUvarint, ReadWords;
  }

  lemma DecodedBins(data: bytes, w: seq<u64>, payload: bytes)
    requires data != [] && ReadWords(data[1..], 4) == Got(w, payload) && data[0] == APPROX
    ensures Decode(data).Ok? <==> BinsIn(payload).Some? && MapFits(BinsIn(payload).value, HeaderOf(w).count)
  {
    hide ReadHist, BinsIn, ReadWords, MapOf, Held, Overwritten, Decode, Total;
    DecodedHist(data, w, payload);
    HistIsBins(payload);
    if BinsIn(payload).Some? {
      MapSplits(BinsIn(payload).value.negative);
      MapSplits(BinsIn(payload).value.positive);
    }
  }

  lemma HistIsBins(payload: bytes)
    ensures BinsIn(payload).Some? <==> ReadHist(payload).Got? && ReadHist(payload).rest == []
    ensures BinsIn(payload).Some? ==>
              var b := BinsIn(payload).value;
              ReadHist(payload).value == Hist(b.zero, MapOf(b.negative), MapOf(b.positive))
  {
    hide ReadBins, ReadUvarint, MapOf;
  }

  lemma DecodedHist(data: bytes, w: seq<u64>, payload: bytes)
    requires data != [] && ReadWords(data[1..], 4) == Got(w, payload) && data[0] == APPROX
    ensures Decode(data).Ok? <==>
            match ReadHist(payload)
            case Bad(_) => false
            case Got(h, rest) =>
              rest == [] && |h.negative| + |h.positive| <= MAX_BINS
              && HeaderOf(w).count == (h.zero + Total(h.negative) + Total(h.positive)) % W
  {
    hide ReadHist, ReadWords, Unxor, Total;
  }

  lemma DecodedOther(data: bytes, w: seq<u64>, payload: bytes)
    requires data != [] && ReadWords(data[1..], 4) == Got(w, payload) && data[0] != APPROX
    ensures data[0] == EXACT ==> (Decode(data).Ok? <==>
              HeaderOf(w).count <= MAX_INT && exists ws :: ReadWords(payload, HeaderOf(w).count) == Got(ws, []))
    ensures data[0] == 0 ==> Decode(data).Ok?
    ensures data[0] != 0 && data[0] != EXACT ==> Decode(data).Err?
  {
    MassEmpty();
    hide ReadHist, ReadWords, Unxor, Total, Mass;
  }

  lemma MassEmpty()
    ensures Mass(EMPTY) == 0
  {
  }

  /** Serving and decoding agree on these bytes. They differ on no
      bytes at all and on a header with kind 0, which decode but are not served; on more exact values than an
      int counts, which are served but do not decode; and where a key is listed twice and the count is that of
      the list or that of the map, unless what is overwritten is a multiple of 2^64 in a list that is short
      enough. */
  predicate Agreed(data: bytes) {
    data != [] &&
    match ReadWords(data[1..], 4)
    case Bad(_) => true
    case Got(w, payload) =>
      var count := HeaderOf(w).count;
      if data[0] == 0 then false
      else if data[0] == EXACT then
        count <= MAX_INT || match ReadWords(payload, count) case Bad(_) => true case Got(_, rest) => rest != []
      else if data[0] == APPROX then
        match BinsIn(payload)
        case None => true
        case Some(b) =>
          || (KeysOnce(b.negative) && KeysOnce(b.positive))
          || (!ListFits(b, count) && !MapFits(b, count))
          || ((Overwritten(b.negative) + Overwritten(b.positive)) % W == 0 && |b.negative| + |b.positive| <= MAX_BINS)
      else true
  }

  lemma FitsAlike(b: Listed, count: u64)
    requires forall e :: e in b.negative || e in b.positive ==> e.1 > 0
    ensures (ListFits(b, count) <==> MapFits(b, count)) <==>
            || (KeysOnce(b.negative) && KeysOnce(b.positive))
            || (!ListFits(b, count) && !MapFits(b, count))
            || ((Overwritten(b.negative) + Overwritten(b.positive)) % W == 0 && |b.negative| + |b.positive| <= MAX_BINS)
  {
    hide MapOf, Held, Overwritten, KeysOnce;
    OnceMeansNothing(b.negative);
    OnceMeansNothing(b.positive);
    MapKeys(b.negative, 0);
    MapKeys(b.positive, 0);
    var lost := Overwritten(b.negative) + Overwritten(b.positive);
    SameModulo(b.zero + Held(b.negative) + Held(b.positive), lost);
  }

  lemma SameModulo(a: int, lost: nat)
    ensures a % W == (a - lost) % W <==> lost % W == 0
  {
    var p, q := a / W, (a - lost) / W;
    assert a == p * W + a % W && a - lost == q * W + (a - lost) % W;
    if a % W == (a - lost) % W {
      assert lost == (p - q) * W;
    }
    if lost % W == 0 {
      assert a - lost == (p - lost / W) * W + a % W;
    }
  }

  /** Serving a stored sketch and decoding it accept the same bytes exactly where they are agreed. */
  lemma ServedIsDecoded(data: bytes)
    ensures (StoredSketch(data).Some? <==> Decode(data).Ok?) <==> Agreed(data)
  {
    hide StoredSketch, Decode, ReadBins, ReadUvarint, ReadWords, MapOf, Held, Overwritten, KeysOnce, ListFits, MapFits, BinsIn;
    if data == [] {
      NoBytes(data);
    } else if ReadWords(data[1..], 4).Bad? {
      NoHeader(data);
    } else {
      var Got(w, payload) := ReadWords(data[1..], 4);
      ServedVerdict(data, w, payload);
      if data[0] != APPROX {
        DecodedOther(data, w, payload);
      } else {
        DecodedBins(data, w, payload);
        if BinsIn(payload).Some? {
          ListedPositive(payload);
          FitsAlike(BinsIn(payload).value, HeaderOf(w).count);
        }
      }
    }
  }

  lemma NoBytes(data: bytes)
    requires data == []
    ensures StoredSketch(data).None? && Decode(data).Ok?
  {
  }

  lemma NoHeader(data: bytes)
    requires data != [] && ReadWords(data[1..], 4).Bad?
    ensures StoredSketch(data).None? && Decode(data).Err?
  {
    hide ReadWords;
  }

  // ----- Bytes on which they differ -----

  lemma ReadSmall(ws: bytes, rest: bytes)
    requires forall w :: w in ws ==> w < 0x80
    ensures ReadWords(ws + rest, |ws|) == Got(ws, rest)
  {
    hide ReadWords, Encode;
    SmallWords(ws);
    WordsRoundTrip(ws, rest);
  }

  /** One key listed twice with a count of one each: the header decides which side takes it. */
  function Twice(count: byte): bytes { [APPROX, count, 0, 0, 0, 0, 0, 2, 0, 1, 0, 1] }

  lemma TwiceReads(count: byte)
    requires count < 0x80
    ensures ReadWords(Twice(count)[1..], 4) == Got([count, 0, 0, 0], [0, 0, 2, 0, 1, 0, 1])
  {
    hide ReadWords;
    assert Twice(count)[1..] == [count, 0, 0, 0] + [0, 0, 2, 0, 1, 0, 1];
    ReadSmall([count, 0, 0, 0], [0, 0, 2, 0, 1, 0, 1]);
  }

  lemma PayloadReads()
    ensures BinsIn([0, 0, 2, 0, 1, 0, 1]) == Some(Listed(0, [], [(0, 1), (0, 1)]))
  {
    hide ReadUvarint, ReadBins;
    assert [0, 0, 2, 0, 1, 0, 1] == [0] + [0, 2, 0, 1, 0, 1];
    ReadWord(0, [0, 2, 0, 1, 0, 1]);
    BinsRead();
  }

  lemma BinsRead()
    ensures ReadBins([0, 2, 0, 1, 0, 1]) == Got([], [2, 0, 1, 0, 1])
    ensures ReadBins([2, 0, 1, 0, 1]) == Got([(0, 1), (0, 1)], [])
  {
    hide ReadUvarint;
    assert [0, 2, 0, 1, 0, 1] == [0] + [2, 0, 1, 0, 1] && [2, 0, 1, 0, 1] == [2] + [0, 1, 0, 1];
    ReadWord(0, [2, 0, 1, 0, 1]);
    ReadWord(2, [0, 1, 0, 1]);
    ReadPair();
  }

  lemma ReadWord(w: byte, rest: bytes)
    requires w < 0x80
    ensures ReadUvarint([w] + rest) == Got(w, rest)
  {
    hide ReadUvarint, ReadWords;
    ReadOne([w] + rest);
    ReadSmall([w], rest);
  }

  lemma OneEntry(data: bytes, n: nat, first: bool, rest: bytes)
    requires n > 0 && ReadWords(data, 2) == Got([0, 1], rest)
    ensures ReadEntries(data, n, first, 0) ==
            match ReadEntries(rest, n - 1, false, 0)
            case Bad(e) => Bad(e)
            case Got(es, rest) => Got([(0, 1)] + es, rest)
  {
    hide ReadWords;
    assert ToUnsigned(0) == 0 && ToSigned(0) == 0 && Unzigzag(0) == 0;
    assert NextKey(first, 0, 0) == 0;
  }

  lemma ReadPair()
    ensures ReadEntries([0, 1, 0, 1], 2, true, 0) == Got([(0, 1), (0, 1)], [])
  {
    hide ReadWords;
    var tail: bytes := [0, 1];
    assert [0, 1, 0, 1] == tail + tail && tail == tail + [];
    ReadSmall(tail, tail);
    ReadSmall(tail, []);
    assert ReadWords(tail, 2) == Got([0, 1], []) && ReadWords(tail + tail, 2) == Got([0, 1], tail);
    assert ReadEntries([], 0, false, 0) == Got([], []);
    OneEntry(tail, 1, false, []);
    OneEntry(tail + tail, 2, true, tail);
    var e: Entry := (0, 1);
    assert [e] + [] == [e] && [e] + [e] == [e, e];
  }

  /** The same bins under a count of two are served and do not decode; under a count of one they decode and
      are not served. */
  lemma RepeatedKey()
    ensures StoredSketch(Twice(2)).Some? && Decode(Twice(2)).Err?
    ensures StoredSketch(Twice(1)).None? && Decode(Twice(1)).Ok?
  {
    hide StoredSketch, Decode, BinsIn, ReadWords;
    TwiceReads(1);
    TwiceReads(2);
    PayloadReads();
    TwoBins();
    Headers();
    ServedVerdict(Twice(1), [1, 0, 0, 0], [0, 0, 2, 0, 1, 0, 1]);
    ServedVerdict(Twice(2), [2, 0, 0, 0], [0, 0, 2, 0, 1, 0, 1]);
    DecodedBins(Twice(1), [1, 0, 0, 0], [0, 0, 2, 0, 1, 0, 1]);
    DecodedBins(Twice(2), [2, 0, 0, 0], [0, 0, 2, 0, 1, 0, 1]);
  }

  lemma Headers()
    ensures HeaderOf([1, 0, 0, 0]).count == 1 && HeaderOf([2, 0, 0, 0]).count == 2
  {
  }

  lemma TwoBins()
    ensures var b := Listed(0, [], [(0, 1), (0, 1)]);
            ListFits(b, 2) && !MapFits(b, 2) && !ListFits(b, 1) && MapFits(b, 1)
  {
    var e: Entry := (0, 1);
    NothingTotal([]);
    LastEntry([e]);
    LastEntry([e, e]);
    assert [e][..0] == [] && [e, e][..1] == [e];
    MapKeys([e, e], 0);
  }
}
