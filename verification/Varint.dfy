/** Unsigned LEB128 integers (section 7.6 of DWARF Version 5) capped at 64 bits, and runs of them. */
module Varint {
  import opened Words

  datatype Error = Short | Long | Large | BadVarint | Shape | Version

  /** The outcome of reading a `T` off the front of some bytes. */
  datatype Parse<+T> = Got(value: T, rest: bytes) | Bad(error: Error)

  datatype Result<+T> = Ok(value: T) | Err(error: Error)

  /** The encoding: seven bits a byte, low end first, the high bit set on all bytes but the last. */
  function Leb(v: nat): bytes {
    if v < 0x80 then [v] else [v % 0x80 + 0x80] + Leb(v / 0x80)
  }

  method AppendUvarint(dst: bytes, v: u64) returns (out: bytes)
    ensures out == dst + Leb(v)
  {
    out := dst;
    var w := v;
    while w >= 0x80
      invariant 0 <= w
      invariant out + Leb(w) == dst + Leb(v)
    {
      assert out + Leb(w) == (out + [w % 0x80 + 0x80]) + Leb(w / 0x80);
      out, w := out + [w % 0x80 + 0x80], w / 0x80;
    }
    out := out + [w];
  }

  /** `128^k`: the weight of the k-th byte. */
  function Weight(k: nat): nat
    ensures Weight(k) > 0
  {
    if k == 0 then 1 else 0x80 * Weight(k - 1)
  }

  lemma WeightOf9()
    ensures Weight(9) * 2 == W
  {
    assert Weight(3) == 0x20_0000;
    assert Weight(6) == 0x400_0000_0000;
  }

  // ----- What the reader accepts, stated on its own -----

  /** At most ten bytes, continued by the high bit, and worth less than 2^64. Padding zeros are allowed. */
  predicate IsVarint(p: bytes) {
    && 0 < |p| <= 10
    && (forall i :: 0 <= i < |p| - 1 ==> p[i] >= 0x80)
    && p[|p| - 1] < 0x80
    && (|p| == 10 ==> p[9] <= 1)
  }

  function LebValue(p: bytes): nat {
    if p == [] then 0 else p[0] % 0x80 + 0x80 * LebValue(p[1..])
  }

  /** Reads a varint of at most `room` bytes, the last of which may only be 0 or 1 when room runs out. */
  function ReadLeb(data: bytes, room: nat): (r: Parse<nat>) {
    if room == 0 then Bad(BadVarint)
    else if data == [] then Bad(Short)
    else if data[0] < 0x80 then
      if room == 1 && data[0] > 1 then Bad(BadVarint) else Got(data[0], data[1..])
    else
      match ReadLeb(data[1..], room - 1)
      case Got(v, rest) => Got(data[0] % 0x80 + 0x80 * v, rest)
      case Bad(e) => Bad(e)
  }

  lemma {:induction false} ReadLebBound(data: bytes, room: nat)
    requires ReadLeb(data, room).Got?
    ensures ReadLeb(data, room).value < Weight(room) * 2
    ensures ReadLeb(data, room).value < Weight(room - 1) * 2 || room <= 1
    ensures |ReadLeb(data, room).rest| < |data|
    ensures room == 1 ==> ReadLeb(data, room).value <= 1
  {
    if data[0] >= 0x80 {
      ReadLebBound(data[1..], room - 1);
    } else if room > 1 {
      assert Weight(room - 1) == 0x80 * Weight(room - 2);
    }
  }

  /** What one `uvarint` call reads. */
  function ReadUvarint(data: bytes): (r: Parse<u64>)
    ensures r.Got? ==> |r.rest| < |data|
  {
    if ReadLeb(data, 10).Got? then
      ReadLebBound(data, 10);
      WeightOf9();
      Got(ReadLeb(data, 10).value, ReadLeb(data, 10).rest)
    else
      Bad(ReadLeb(data, 10).error)
  }

  // ----- Round trip -----

  lemma {:induction false} ReadLebOfLeb(v: nat, rest: bytes, room: nat)
    requires room > 0 && v < Weight(room - 1) * 2
    ensures ReadLeb(Leb(v) + rest, room) == Got(v, rest)
  {
    var data := Leb(v) + rest;
    if v < 0x80 {
      assert data[1..] == rest;
    } else {
      assert room > 1 && Weight(room - 1) == 0x80 * Weight(room - 2);
      assert data[1..] == Leb(v / 0x80) + rest;
      ReadLebOfLeb(v / 0x80, rest, room - 1);
    }
  }

  /** Reading an encoded integer gives it back and leaves exactly the bytes after it. */
  lemma UvarintRoundTrip(v: u64, rest: bytes)
    ensures ReadUvarint(Leb(v) + rest) == Got(v, rest)
  {
    WeightOf9();
    ReadLebOfLeb(v, rest, 10);
  }

  lemma {:induction false} LebLength(v: nat, room: nat)
    requires room > 0 && v < Weight(room - 1) * 2
    ensures 0 < |Leb(v)| <= room
  {
    if v >= 0x80 {
      assert room > 1 && Weight(room - 1) == 0x80 * Weight(room - 2);
      LebLength(v / 0x80, room - 1);
    }
  }

  // ----- Arbitrary input -----

  /** The reader consumes `p` exactly when `p` is a varint, and then returns its value. */
  lemma {:induction false} ReadLebConsumes(p: bytes, rest: bytes, room: nat)
    requires 0 < |p| <= room
    requires forall i :: 0 <= i < |p| - 1 ==> p[i] >= 0x80
    requires p[|p| - 1] < 0x80
    requires |p| == room ==> p[|p| - 1] <= 1
    ensures ReadLeb(p + rest, room) == Got(LebValue(p), rest)
  {
    hide ReadLeb, LebValue;
    var b, tail := p[0], p[1..];
    assert p == [b] + tail && p + rest == [b] + (tail + rest);
    LebUnfold(b, tail, room, tail + rest);
    if |p| > 1 {
      assert tail[|tail| - 1] == p[|p| - 1];
      ReadLebConsumes(tail, rest, room - 1);
    } else {
      assert tail == [] && tail + rest == rest;
    }
  }

  lemma LebUnfold(b: byte, tail: bytes, room: nat, data: bytes)
    requires room > 0
    ensures LebValue([b] + tail) == b % 0x80 + 0x80 * LebValue(tail) && LebValue([]) == 0
    ensures b < 0x80 && (room > 1 || b <= 1) ==> ReadLeb([b] + data, room) == Got(b, data)
    ensures b >= 0x80 && ReadLeb(data, room - 1).Got? ==>
              ReadLeb([b] + data, room) == Got(b % 0x80 + 0x80 * ReadLeb(data, room - 1).value, ReadLeb(data, room - 1).rest)
  {
    assert ([b] + tail)[1..] == tail && ([b] + data)[1..] == data;
  }

  lemma {:induction false} ReadLebSplits(data: bytes, room: nat) returns (p: bytes)
    requires ReadLeb(data, room).Got?
    ensures 0 < |p| <= room
    ensures forall i :: 0 <= i < |p| - 1 ==> p[i] >= 0x80
    ensures p[|p| - 1] < 0x80
    ensures |p| == room ==> p[|p| - 1] <= 1
    ensures data == p + ReadLeb(data, room).rest && ReadLeb(data, room).value == LebValue(p)
  {
    if data[0] < 0x80 {
      p := [data[0]];
      assert LebValue(p[1..]) == 0;
    } else {
      var q := ReadLebSplits(data[1..], room - 1);
      p := [data[0]] + q;
      assert p[1..] == q;
    }
  }

  /** On any bytes at all: a read succeeds exactly when some prefix is a varint, and returns that
      prefix's value and the bytes after it. */
  lemma UvarintAccepts(data: bytes, v: u64, rest: bytes)
    ensures ReadUvarint(data) == Got(v, rest) <==>
            exists p :: IsVarint(p) && data == p + rest && v == LebValue(p)
  {
    if ReadUvarint(data) == Got(v, rest) {
      var p := ReadLebSplits(data, 10);
      assert IsVarint(p);
    }
    forall p | IsVarint(p) && data == p + rest && v == LebValue(p)
      ensures ReadUvarint(data) == Got(v, rest)
    {
      ReadLebConsumes(p, rest, 10);
    }
  }

  /** A failed read means short input that only continues, or ten bytes that overflow 64 bits. */
  lemma {:induction false} ReadLebFails(data: bytes, room: nat)
    requires ReadLeb(data, room).Bad?
    ensures ReadLeb(data, room).error == Short <==>
            |data| < room && forall i :: 0 <= i < |data| ==> data[i] >= 0x80
    ensures ReadLeb(data, room).error in {Short, BadVarint}
  {
    if room > 0 && data != [] && data[0] >= 0x80 {
      ReadLebFails(data[1..], room - 1);
      assert forall i :: 0 < i < |data| ==> data[i] == data[1..][i - 1];
    }
  }

  lemma UvarintFails(data: bytes)
    requires ReadUvarint(data).Bad?
    ensures ReadUvarint(data).error == Short <==>
            |data| < 10 && forall i :: 0 <= i < |data| ==> data[i] >= 0x80
    ensures ReadUvarint(data).error in {Short, BadVarint}
  {
    ReadLebFails(data, 10);
  }

  // ----- Runs of integers: every payload of the codec except sketch bytes is one -----

  function Encode(ws: seq<u64>): bytes {
    if ws == [] then [] else Leb(ws[0]) + Encode(ws[1..])
  }

  lemma {:induction false} EncodeConcat(a: seq<u64>, b: seq<u64>)
    ensures Encode(a + b) == Encode(a) + Encode(b)
  {
    if a == [] {
      assert a + b == b;
    } else {
      assert (a + b)[1..] == a[1..] + b;
      EncodeConcat(a[1..], b);
      assert Encode(a + b) == Leb(a[0]) + (Encode(a[1..]) + Encode(b));
    }
  }

  /** Words below 128 are written as they are. */
  lemma {:induction false} SmallWords(ws: seq<u64>)
    requires forall w :: w in ws ==> w < 0x80
    ensures Encode(ws) == ws
  {
    if ws != [] {
      assert forall w :: w in ws[1..] ==> w in ws;
      SmallWords(ws[1..]);
      assert ws[0] in ws && Leb(ws[0]) == [ws[0]];
      assert [ws[0]] + ws[1..] == ws;
    }
  }

  lemma EncodeOne(w: u64)
    ensures Encode([w]) == Leb(w)
  {
    assert [w][1..] == [];
    assert Encode([w]) == Leb(w) + [];
  }

  lemma {:induction false} EncodeLength(ws: seq<u64>)
    ensures |ws| <= |Encode(ws)| <= 10 * |ws|
  {
    if ws != [] {
      WeightOf9();
      LebLength(ws[0], 10);
      EncodeLength(ws[1..]);
    }
  }

  function ReadWords(data: bytes, n: nat): (r: Parse<seq<u64>>)
    ensures r.Got? ==> |r.value| == n && |r.rest| + n <= |data|
    decreases n
  {
    if n == 0 then Got([], data) else
    match ReadUvarint(data)
    case Bad(e) => Bad(e)
    case Got(w, rest) =>
      match ReadWords(rest, n - 1)
      case Bad(e) => Bad(e)
      case Got(ws, rest) => Got([w] + ws, rest)
  }

  lemma ReadOne(data: bytes)
    ensures ReadWords(data, 1) == match ReadUvarint(data)
                                  case Bad(e) => Bad(e)
                                  case Got(w, rest) => Got([w], rest)
  {
    if ReadUvarint(data).Got? {
      var Got(w, rest) := ReadUvarint(data);
      assert ReadWords(rest, 0) == Got([], rest);
      assert [w] + [] == [w];
    }
  }

  lemma {:induction false} WordsRoundTrip(ws: seq<u64>, rest: bytes)
    ensures ReadWords(Encode(ws) + rest, |ws|) == Got(ws, rest)
  {
    if ws == [] {
      assert Encode(ws) + rest == rest;
    } else {
      assert Encode(ws) + rest == Leb(ws[0]) + (Encode(ws[1..]) + rest);
      UvarintRoundTrip(ws[0], Encode(ws[1..]) + rest);
      WordsRoundTrip(ws[1..], rest);
      assert [ws[0]] + ws[1..] == ws;
    }
  }

  /** An integer that counts something must fit an int. */
  function ReadCount(data: bytes): (r: Parse<nat>)
    ensures r.Got? ==> |r.rest| < |data| && r.value <= MAX_INT
  {
    match ReadUvarint(data)
    case Bad(e) => Bad(e)
    case Got(v, rest) => if v > MAX_INT then Bad(Large) else Got(v, rest)
  }

  /** Reading m + n integers is reading m and then n. */
  lemma {:induction false} ReadWordsSplit(data: bytes, m: nat, n: nat)
    ensures ReadWords(data, m + n) ==
            match ReadWords(data, m) {
              case Bad(e) => Bad(e)
              case Got(a, rest) =>
                match ReadWords(rest, n)
                case Bad(e) => Bad(e)
                case Got(b, rest) => Got(a + b, rest)
            }
    decreases m
  {
    hide ReadUvarint;
    if m > 0 && ReadUvarint(data).Got? {
      var Got(w, rest) := ReadUvarint(data);
      ReadWordsSplit(rest, m - 1, n);
      if ReadWords(data, m).Got? && ReadWords(ReadWords(data, m).rest, n).Got? {
        var a := ReadWords(rest, m - 1).value;
        var b := ReadWords(ReadWords(data, m).rest, n).value;
        assert [w] + (a + b) == ([w] + a) + b;
      }
    } else if m == 0 && ReadWords(data, n).Got? {
      assert [] + ReadWords(data, n).value == ReadWords(data, n).value;
    }
  }

  /** Bytes after the ones consumed do not matter. */
  lemma {:induction false} ReadWordsExtend(data: bytes, n: nat, more: bytes)
    requires ReadWords(data, n).Got?
    ensures ReadWords(data + more, n) == Got(ReadWords(data, n).value, ReadWords(data, n).rest + more)
    decreases n
  {
    if n > 0 {
      UvarintExtend(data, more);
      ReadWordsExtend(ReadUvarint(data).rest, n - 1, more);
    }
  }

  lemma UvarintExtend(data: bytes, more: bytes)
    requires ReadUvarint(data).Got?
    ensures ReadUvarint(data + more) == Got(ReadUvarint(data).value, ReadUvarint(data).rest + more)
  {
    ReadLebExtend(data, 10, more);
  }

  lemma {:induction false} ReadLebExtend(data: bytes, room: nat, more: bytes)
    requires ReadLeb(data, room).Got?
    ensures ReadLeb(data + more, room) == Got(ReadLeb(data, room).value, ReadLeb(data, room).rest + more)
  {
    assert (data + more)[1..] == data[1..] + more;
    if data[0] >= 0x80 {
      ReadLebExtend(data[1..], room - 1, more);
    }
  }

  lemma CountExtend(data: bytes, more: bytes)
    requires ReadCount(data).Got?
    ensures ReadCount(data + more) == Got(ReadCount(data).value, ReadCount(data).rest + more)
  {
    UvarintExtend(data, more);
  }

  lemma CountRoundTrip(n: nat, rest: bytes)
    requires n <= MAX_INT
    ensures ReadCount(Leb(n) + rest) == Got(n, rest)
  {
    UvarintRoundTrip(n, rest);
  }
}
