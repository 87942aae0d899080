/** Delta and XOR coding of columns, and the reader that consumes encoded bytes with a sticky error. */
module Reader {
  import opened Words
  import opened Varint

  datatype Option<+T> = None | Some(value: T)

  // ----- Columns -----

  /** The column value before position `i`; columns start from zero. */
  function Previous(data: seq<u64>, i: nat): u64
    requires i <= |data|
  {
    if i == 0 then 0 else data[i - 1]
  }

  /** Each value minus the one before it, modulo 2^64. */
  function Deltas(data: seq<u64>): (ws: seq<u64>)
    ensures |ws| == |data|
  {
    seq(|data|, i requires 0 <= i < |data| => Sub(data[i], Previous(data, i)))
  }

  /** Running sums modulo 2^64. */
  function Undelta(ws: seq<u64>): (data: seq<u64>)
    ensures |data| == |ws|
  {
    if ws == [] then [] else
    var data := Undelta(ws[..|ws| - 1]);
    data + [Add(Previous(data, |data|), ws[|ws| - 1])]
  }

  /** Bit-reversed patterns: the form in which float bits are chained. */
  function Reversed(data: seq<u64>): (r: seq<u64>)
    ensures |r| == |data|
  {
    seq(|data|, i requires 0 <= i < |data| => Reverse64(data[i]))
  }

  /** Each reversed pattern XOR the one before it. */
  function Xors(data: seq<u64>): (ws: seq<u64>)
    ensures |ws| == |data|
  {
    var rev := Reversed(data);
    seq(|data|, i requires 0 <= i < |data| => Xor64(rev[i], Previous(rev, i)))
  }

  function UnxorReversed(ws: seq<u64>): (data: seq<u64>)
    ensures |data| == |ws|
  {
    if ws == [] then [] else
    var data := UnxorReversed(ws[..|ws| - 1]);
    data + [Xor64(Previous(data, |data|), ws[|ws| - 1])]
  }

  function Unxor(ws: seq<u64>): (data: seq<u64>)
    ensures |data| == |ws|
  {
    Reversed(UnxorReversed(ws))
  }

  /** Delta coding inverts on any column, sorted or not. */
  lemma {:induction false} DeltaRoundTrip(data: seq<u64>)
    ensures Undelta(Deltas(data)) == data
  {
    if data != [] {
      var n := |data| - 1;
      DeltaRoundTrip(data[..n]);
      assert Deltas(data)[..n] == Deltas(data[..n]);
    }
  }

  lemma {:induction false} UnxorReversedOfXors(data: seq<u64>)
    ensures UnxorReversed(Xors(data)) == Reversed(data)
  {
    if data != [] {
      hide Reverse64, Xor64, Xors, Reversed;
      var n := |data| - 1;
      XorsFront(data, n);
      UnxorReversedOfXors(data[..n]);
      XorCancels(Reverse64(data[n]), Previous(Reversed(data[..n]), n));
    }
  }

  lemma XorsFront(data: seq<u64>, n: nat)
    requires n == |data| - 1
    ensures Reversed(data) == Reversed(data[..n]) + [Reverse64(data[n])]
    ensures Xors(data) == Xors(data[..n]) + [Xor64(Reverse64(data[n]), Previous(Reversed(data[..n]), n))]
  {
    hide Reverse64, Xor64;
    assert Xors(data)[..n] == Xors(data[..n]);
    assert Reversed(data)[..n] == Reversed(data[..n]);
  }

  /** XOR coding gives back every bit of every pattern. */
  lemma XorRoundTrip(data: seq<u64>)
    ensures Unxor(Xors(data)) == data
  {
    UnxorReversedOfXors(data);
    forall i | 0 <= i < |data|
      ensures Reverse64(Reverse64(data[i])) == data[i]
    {
      Reverse64Twice(data[i]);
    }
  }

  method AppendDelta(dst: bytes, data: seq<u64>) returns (out: bytes)
    ensures out == dst + Encode(Deltas(data))
  {
    hide Encode, Leb;
    EncodeEmpty(Deltas(data)[..0]);
    out := dst;
    var prev := 0;
    for i := 0 to |data|
      invariant prev == Previous(data, i)
      invariant out == dst + Encode(Deltas(data)[..i])
    {
      out := AppendUvarint(out, Sub(data[i], prev));
      prev := data[i];
      EncodeSnoc(Deltas(data), i);
    }
    assert Deltas(data)[..|data|] == Deltas(data);
  }

  method AppendFloat(dst: bytes, v: u64, prev: u64) returns (out: bytes, current: u64)
    ensures current == Reverse64(v)
    ensures out == dst + Leb(Xor64(current, prev))
  {
    current := Reverse64(v);
    out := AppendUvarint(dst, Xor64(current, prev));
  }

  method AppendFloatXor(dst: bytes, data: seq<u64>) returns (out: bytes)
    ensures out == dst + Encode(Xors(data))
  {
    hide Encode, Leb, Xor64, Reverse64;
    EncodeEmpty(Xors(data)[..0]);
    out := dst;
    var prev := 0;
    for i := 0 to |data|
      invariant prev == Previous(Reversed(data), i)
      invariant out == dst + Encode(Xors(data)[..i])
    {
      out, prev := AppendFloat(out, data[i], prev);
      EncodeSnoc(Xors(data), i);
    }
    assert Xors(data)[..|data|] == Xors(data);
  }

  lemma EncodeEmpty(ws: seq<u64>)
    requires ws == []
    ensures Encode(ws) == []
  {
  }

  lemma EncodeSnoc(ws: seq<u64>, i: nat)
    requires i < |ws|
    ensures Encode(ws[..i + 1]) == Encode(ws[..i]) + Leb(ws[i])
  {
    assert ws[..i + 1] == ws[..i] + [ws[i]];
    EncodeConcat(ws[..i], [ws[i]]);
    EncodeOne(ws[i]);
  }

  // ----- The reader -----

  /** What a reader has left: its bytes, or the first error it met. */
  type Position = Parse<()>

  function Forget<T>(p: Parse<T>): Position {
    match p
    case Got(_, rest) => Got((), rest)
    case Bad(e) => Bad(e)
  }

  /** Reading `n` integers from a position; nothing is read once there is an error. */
  function Take(at: Position, n: nat): (r: Parse<seq<u64>>)
    ensures r.Got? ==> |r.value| == n
  {
    match at
    case Got(_, data) => ReadWords(data, n)
    case Bad(e) => Bad(e)
  }

  lemma TakeSplit(at: Position, m: nat, n: nat)
    ensures Forget(Take(at, m + n)) == Forget(Take(Forget(Take(at, m)), n))
    ensures Take(at, m + n).Got? ==>
              && Take(at, m).Got?
              && Take(at, m + n).value == Take(at, m).value + Take(Forget(Take(at, m)), n).value
  {
    if at.Got? {
      ReadWordsSplit(at.rest, m, n);
    }
  }

  class CodecReader {
    var data: bytes
    var err: Option<Error>

    constructor (data: bytes)
      ensures At() == Got((), data)
    {
      this.data := data;
      err := None;
    }

    ghost function At(): Position
      reads this
    {
      if err.None? then Got((), data) else Bad(err.value)
    }

    method Fail(e: Error)
      modifies this
      ensures At() == Bad(e) && data == old(data)
    {
      err := Some(e);
    }

    method Byte() returns (out: byte)
      modifies this
      ensures old(At()).Bad? ==> At() == old(At()) && data == old(data) && out == 0
      ensures old(At()).Got? && old(data) == [] ==> At() == Bad(Short) && out == 0
      ensures old(At()).Got? && old(data) != [] ==> At() == Got((), old(data)[1..]) && out == old(data)[0]
    {
      if err.Some? {
        return 0;
      }
      if |data| == 0 {
        err := Some(Short);
        return 0;
      }
      out := data[0];
      data := data[1..];
    }

    /** Unlike the other reads this one does not look at `err` first, so it can replace an error. */
    method Bytes(n: int) returns (out: bytes)
      modifies this
      ensures n < 0 || n > |old(data)| ==> At() == Bad(Short) && data == old(data) && out == []
      ensures 0 <= n <= |old(data)| ==>
                err == old(err) && out == old(data)[..n] && data == old(data)[n..]
    {
      if n < 0 || n > |data| {
        err := Some(Short);
        return [];
      }
      out := data[..n];
      data := data[n..];
    }

    method Uvarint() returns (v: u64)
      modifies this
      ensures old(At()).Bad? ==> data == old(data)
      ensures At() == Forget(Take(old(At()), 1))
      ensures Take(old(At()), 1).Got? ==> [v] == Take(old(At()), 1).value
      ensures Take(old(At()), 1).Bad? ==> v == 0
    {
      if err.Some? {
        return 0;
      }
      ghost var all := Resume(0, 0, data);
      ResumeStart(data);
      var x: nat, i: nat := 0, 0;
      while i < 10
        invariant i <= 10
        invariant err.None?
        invariant all == Resume(x, i, data)
      {
        ResumeStep(x, i, data);
        if |data| == 0 {
          err := Some(Short);
          return 0;
        }
        var b := data[0];
        data := data[1..];
        if b < 0x80 {
          if i == 9 && b > 1 {
            err := Some(BadVarint);
            return 0;
          }
          return x + b * Weight(i);
        }
        x := x + b % 0x80 * Weight(i);
        i := i + 1;
      }
      err := Some(BadVarint);
      v := 0;
    }

    method Count() returns (n: nat)
      modifies this
      ensures At() == if Take(old(At()), 1).Got? && Take(old(At()), 1).value[0] > MAX_INT then Bad(Large)
                      else Forget(Take(old(At()), 1))
      ensures At().Got? ==> [n] == Take(old(At()), 1).value
      ensures At().Bad? ==> n == 0
    {
      var v := Uvarint();
      if err.Some? {
        return 0;
      }
      if v > MAX_INT {
        err := Some(Large);
        return 0;
      }
      n := v;
    }

    method Delta(n: nat) returns (dst: seq<u64>)
      modifies this
      ensures |dst| == n
      ensures At() == Forget(Take(old(At()), n))
      ensures At().Got? ==> dst == Undelta(Take(old(At()), n).value)
    {
      dst := [];
      var prev := 0;
      for i := 0 to n
        invariant |dst| == i && prev == Previous(dst, i)
        invariant At() == Forget(Take(old(At()), i))
        invariant At().Got? ==> dst == Undelta(Take(old(At()), i).value)
      {
        TakeSplit(old(At()), i, 1);
        var w := Uvarint();
        prev := Add(prev, w);
        dst := dst + [prev];
      }
    }

    method FloatXor(n: nat) returns (dst: seq<u64>)
      modifies this
      ensures |dst| == n
      ensures At() == Forget(Take(old(At()), n))
      ensures At().Got? ==> dst == Unxor(Take(old(At()), n).value)
    {
      dst := [];
      var prev := 0;
      ghost var rev := [];
      for i := 0 to n
        invariant |dst| == i && |rev| == i && dst == Reversed(rev) && prev == Previous(rev, i)
        invariant At() == Forget(Take(old(At()), i))
        invariant At().Got? ==> rev == UnxorReversed(Take(old(At()), i).value)
      {
        TakeSplit(old(At()), i, 1);
        var w := Uvarint();
        prev := Xor64(prev, w);
        rev := rev + [prev];
        dst := dst + [Reverse64(prev)];
      }
    }

    method SignedVarint() returns (v: i64)
      modifies this
      ensures At() == Forget(Take(old(At()), 1))
      ensures At().Got? ==> v == Unzigzag(Take(old(At()), 1).value[0])
    {
      var u := Uvarint();
      v := Unzigzag(u);
    }

    method Float() returns (v: u64)
      modifies this
      ensures At() == Forget(Take(old(At()), 1))
      ensures At().Got? ==> v == Reverse64(Take(old(At()), 1).value[0])
    {
      var u := Uvarint();
      v := Reverse64(u);
    }

    method Done() returns (e: Option<Error>)
      ensures e == match At()
                   case Bad(e) => Some(e)
                   case Got(_, data) => if data == [] then None else Some(Long)
    {
      e := if err.Some? then err else if |data| != 0 then Some(Long) else None;
    }
  }

  /** Finishing a varint after `i` bytes worth `x` have been read. */
  ghost function Resume(x: nat, i: nat, data: bytes): Parse<nat>
    requires i <= 10
  {
    match ReadLeb(data, 10 - i)
    case Got(v, rest) => Got(x + Weight(i) * v, rest)
    case Bad(e) => Bad(e)
  }

  lemma ResumeStep(x: nat, i: nat, data: bytes)
    requires i < 10
    ensures data == [] ==> Resume(x, i, data) == Bad(Short)
    ensures data != [] && data[0] < 0x80 ==>
              Resume(x, i, data) == if i == 9 && data[0] > 1 then Bad(BadVarint)
                                    else Got(x + data[0] * Weight(i), data[1..])
    ensures data != [] && data[0] >= 0x80 ==>
              Resume(x, i, data) == Resume(x + data[0] % 0x80 * Weight(i), i + 1, data[1..])
  {
    if data != [] && data[0] >= 0x80 && ReadLeb(data[1..], 9 - i).Got? {
      WeightStep(x, i, data[0] % 0x80, ReadLeb(data[1..], 9 - i).value);
    } else if data != [] && data[0] < 0x80 {
      assert Weight(i) * data[0] == data[0] * Weight(i);
    }
  }

  lemma WeightStep(x: nat, i: nat, b: nat, v: nat)
    ensures x + Weight(i) * (b + 0x80 * v) == x + b * Weight(i) + Weight(i + 1) * v
  {
    var w := Weight(i);
    assert Weight(i + 1) == 0x80 * w;
    assert w * (b + 0x80 * v) == w * b + w * (0x80 * v);
    assert w * (0x80 * v) == 0x80 * w * v;
  }

  lemma ResumeStart(data: bytes)
    ensures Resume(0, 0, data) == ReadLeb(data, 10)
    ensures match ReadLeb(data, 10)
            case Got(v, rest) => 0 <= v < W && ReadWords(data, 1) == Got([v], rest)
            case Bad(e) => ReadWords(data, 1) == Bad(e)
  {
    if ReadUvarint(data).Got? {
      assert ReadWords(ReadUvarint(data).rest, 0) == Got([], ReadUvarint(data).rest);
      assert [ReadUvarint(data).value] + [] == [ReadUvarint(data).value];
      assert Weight(0) == 1;
    }
  }
}
