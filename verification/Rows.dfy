/** What the three kinds of series share: raw rows, times, buckets keyed by time, and compaction. */
module Rows {
  import opened Words
  import opened Sorted

  /** One raw entry: a time, a value and the tag of the write that made it. */
  datatype Row = Row(time: u64, value: u64, clock: u64, replica: u64)

  /** The start of the span-aligned bucket a time falls in. */
  function BucketOf(t: u64, span: u64): (b: u64)
    ensures b <= t
    ensures span > 0 ==> t - b < span && b % span == 0
    ensures span == 0 ==> b == t
  {
    if span == 0 then t else
    BucketBounds(t, span);
    t / span * span
  }

  lemma BucketBounds(t: nat, span: nat)
    requires span > 0
    ensures 0 <= t / span * span <= t && t - t / span * span == t % span
    ensures t / span * span % span == 0
  {
    var q := t / span;
    assert t == q * span + t % span;
    MultipleModulo(q, span);
  }

  lemma MultipleModulo(q: nat, n: nat)
    requires n > 0
    ensures q * n % n == 0
  {
    if q > 0 {
      MultipleModulo(q - 1, n);
      assert q * n == (q - 1) * n + n;
      assert ((q - 1) * n + n) % n == (q - 1) * n % n by { AddModulus((q - 1) * n, n); }
    }
  }

  lemma AddModulus(a: nat, n: nat)
    requires n > 0
    ensures (a + n) % n == a % n
  {
    var q, r := a / n, a % n;
    assert a + n == (q + 1) * n + r;
    DivUnique(a + n, n, q + 1, r);
  }

  lemma MultipleGap(p: nat, q: nat, n: nat)
    requires p < q
    ensures p * n + n <= q * n
  {
    var d := q - p - 1;
    assert q * n == (p + 1 + d) * n == (p + 1) * n + d * n;
    assert d * n >= 0;
  }

  lemma DivUnique(a: nat, n: nat, q: nat, r: nat)
    requires n > 0 && a == q * n + r && r < n
    ensures a / n == q && a % n == r
  {
    var p, s := a / n, a % n;
    var x, y := p * n, q * n;
    assert a == x + s;
    if p > q {
      MultipleGap(q, p, n);
    } else if p < q {
      MultipleGap(p, q, n);
    }
  }

  /** Buckets come in the order of the times in them. */
  lemma BucketMonotone(s: u64, t: u64, span: u64)
    requires s <= t
    ensures BucketOf(s, span) <= BucketOf(t, span)
  {
    if span > 0 {
      BucketBounds(s, span);
      BucketBounds(t, span);
      QuotientsOrdered(s, t, s / span, t / span, span);
    }
  }

  lemma QuotientsOrdered(s: nat, t: nat, p: nat, q: nat, n: nat)
    requires s <= t && p * n <= s && t < q * n + n
    ensures p * n <= q * n
  {
    if q < p {
      MultipleGap(q, p, n);
    } else if p < q {
      MultipleGap(p, q, n);
    }
  }

  // ----- Columns -----

  function Times(rows: seq<Row>): (c: seq<u64>)
    ensures |c| == |rows|
  {
    seq(|rows|, i requires 0 <= i < |rows| => rows[i].time)
  }

  function Values(rows: seq<Row>): (c: seq<u64>)
    ensures |c| == |rows|
  {
    seq(|rows|, i requires 0 <= i < |rows| => rows[i].value)
  }

  function Clocks(rows: seq<Row>): (c: seq<u64>)
    ensures |c| == |rows|
  {
    seq(|rows|, i requires 0 <= i < |rows| => rows[i].clock)
  }

  function Replicas(rows: seq<Row>): (c: seq<u64>)
    ensures |c| == |rows|
  {
    seq(|rows|, i requires 0 <= i < |rows| => rows[i].replica)
  }

  function Zip(time: seq<u64>, value: seq<u64>, clock: seq<u64>, replica: seq<u64>): (rows: seq<Row>)
    requires |time| == |value| == |clock| == |replica|
    ensures |rows| == |time|
  {
    seq(|time|, i requires 0 <= i < |time| => Row(time[i], value[i], clock[i], replica[i]))
  }

  lemma ZipColumns(rows: seq<Row>)
    ensures Zip(Times(rows), Values(rows), Clocks(rows), Replicas(rows)) == rows
  {
  }

  lemma ColumnsOfZip(time: seq<u64>, value: seq<u64>, clock: seq<u64>, replica: seq<u64>)
    requires |time| == |value| == |clock| == |replica|
    ensures Times(Zip(time, value, clock, replica)) == time
    ensures Values(Zip(time, value, clock, replica)) == value
  {
  }

  predicate Nondecreasing(rows: seq<Row>) {
    forall i, j :: 0 <= i < j < |rows| ==> rows[i].time <= rows[j].time
  }

  // ----- Maps keyed by time -----

  /** `sortedTimes`: the keys of a map in increasing order. */
  function SortedTimes<T>(m: map<u64, T>): (q: seq<u64>)
    ensures Increasing(q)
    ensures |q| == |m|
    ensures forall t :: t in q <==> t in m
  {
    var q := Ascending(m.Keys);
    assert forall i :: 0 <= i < |q| ==> q[i] in m.Keys;
    q
  }

  lemma SortedTimesUnique<T>(m: map<u64, T>, q: seq<u64>)
    requires Increasing(q)
    requires forall t: u64 :: t in q <==> t in m
    ensures q == SortedTimes(m)
  {
    forall t: int
      ensures t in q <==> t in m.Keys
    {
      if t in q {
        var i :| 0 <= i < |q| && q[i] == t;
      }
    }
    AscendingUnique(m.Keys, q);
  }

  /** The values of a map in key order. */
  function InOrder<T>(m: map<u64, T>): (s: seq<T>)
    ensures |s| == |m|
  {
    var q := SortedTimes(m);
    seq(|q|, i requires 0 <= i < |q| => assert q[i] in q; m[q[i]])
  }

  /** The map from time to entry; a later entry replaces an earlier one with the same time. */
  function ByTime<T>(s: seq<T>, time: T -> u64): map<u64, T> {
    if s == [] then map[] else ByTime(s[..|s| - 1], time)[time(s[|s| - 1]) := s[|s| - 1]]
  }

  /** Every entry sits at its own time. */
  predicate Keyed<T>(m: map<u64, T>, time: T -> u64) {
    forall t :: t in m ==> time(m[t]) == t
  }

  predicate IncreasingBy<T>(s: seq<T>, time: T -> u64) {
    forall i, j :: 0 <= i < j < |s| ==> time(s[i]) < time(s[j])
  }

  lemma {:induction false} ByTimeKeyed<T>(s: seq<T>, time: T -> u64)
    ensures Keyed(ByTime(s, time), time)
    ensures forall t :: t in ByTime(s, time) ==> ByTime(s, time)[t] in s
    ensures forall x :: x in s ==> time(x) in ByTime(s, time)
  {
    if s != [] {
      ByTimeKeyed(s[..|s| - 1], time);
      assert s == s[..|s| - 1] + [s[|s| - 1]];
    }
  }

  lemma {:induction false} ByTimeAt<T>(s: seq<T>, time: T -> u64, i: nat)
    requires IncreasingBy(s, time) && i < |s|
    ensures time(s[i]) in ByTime(s, time) && ByTime(s, time)[time(s[i])] == s[i]
  {
    var n := |s| - 1;
    if i < n {
      ByTimeAt(s[..n], time, i);
      assert time(s[i]) < time(s[n]);
    }
  }

  /** A list in time order and its map carry the same information. */
  lemma InOrderOfByTime<T>(s: seq<T>, time: T -> u64)
    requires IncreasingBy(s, time)
    ensures InOrder(ByTime(s, time)) == s
  {
    var m := ByTime(s, time);
    ByTimeKeyed(s, time);
    var q: seq<u64> := seq(|s|, i requires 0 <= i < |s| => time(s[i]));
    forall t: u64
      ensures t in q <==> t in m
    {
      if t in q {
        var i :| 0 <= i < |q| && q[i] == t;
        assert s[i] in s;
      }
      if t in m {
        var i :| 0 <= i < |s| && s[i] == m[t];
        assert q[i] == t;
      }
    }
    SortedTimesUnique(m, q);
    forall i | 0 <= i < |s|
      ensures InOrder(m)[i] == s[i]
    {
      ByTimeAt(s, time, i);
    }
  }

  lemma InOrderIncreasing<T>(m: map<u64, T>, time: T -> u64)
    requires Keyed(m, time)
    ensures IncreasingBy(InOrder(m), time)
    ensures forall i :: 0 <= i < |m| ==> SortedTimes(m)[i] in m && InOrder(m)[i] == m[SortedTimes(m)[i]]
    ensures forall x :: x in InOrder(m) ==> time(x) in m && m[time(x)] == x
  {
    var q := SortedTimes(m);
    forall i | 0 <= i < |q|
      ensures q[i] in m && InOrder(m)[i] == m[q[i]] && time(InOrder(m)[i]) == q[i]
    {
      assert q[i] in q;
    }
  }

  lemma InOrderAt<T>(m: map<u64, T>, time: T -> u64, i: nat)
    requires Keyed(m, time) && i < |m|
    ensures var t := SortedTimes(m)[i]; t in m && InOrder(m)[i] == m[t] && time(m[t]) == t
  {
    assert SortedTimes(m)[i] in SortedTimes(m);
  }

  lemma ByTimeOfInOrder<T>(m: map<u64, T>, time: T -> u64)
    requires Keyed(m, time)
    ensures ByTime(InOrder(m), time) == m
  {
    hide InOrder, ByTime, SortedTimes, Keyed, IncreasingBy;
    var s := InOrder(m);
    InOrderIncreasing(m, time);
    ByTimeKeyed(s, time);
    var back := ByTime(s, time);
    forall t: u64
      ensures t in m ==> t in back && back[t] == m[t]
      ensures t in back ==> t in m
    {
      if t in m {
        BackAt(m, time, t);
      }
      if t in back {
        assert back[t] in s;
        KeyedAt(back, time, t);
      }
    }
    assert back == m;
  }

  lemma KeyedAt<T>(m: map<u64, T>, time: T -> u64, t: u64)
    requires Keyed(m, time) && t in m
    ensures time(m[t]) == t
  {
  }

  lemma BackAt<T>(m: map<u64, T>, time: T -> u64, t: u64)
    requires Keyed(m, time) && t in m
    ensures t in ByTime(InOrder(m), time) && ByTime(InOrder(m), time)[t] == m[t]
  {
    hide InOrder, ByTime, SortedTimes, Keyed, IncreasingBy;
    InOrderIncreasing(m, time);
    assert t in SortedTimes(m);
    var i: nat :| 0 <= i < |m| && SortedTimes(m)[i] == t;
    InOrderAt(m, time, i);
    ByTimeAt(InOrder(m), time, i);
  }

  // ----- Compaction -----

  /** The rows before the cutoff, and the others. */
  function Old(rows: seq<Row>, cutoff: u64): seq<Row> {
    if rows == [] then [] else
    var r := rows[|rows| - 1];
    Old(rows[..|rows| - 1], cutoff) + if r.time < cutoff then [r] else []
  }

  function Young(rows: seq<Row>, cutoff: u64): (s: seq<Row>)
    ensures |s| <= |rows|
  {
    if rows == [] then [] else
    var r := rows[|rows| - 1];
    Young(rows[..|rows| - 1], cutoff) + if r.time < cutoff then [] else [r]
  }

  /** Adds rows to the buckets they fall in, one by one. */
  function Group<B>(m: map<u64, B>, rows: seq<Row>, span: u64, start: u64 -> B, add: (B, u64) -> B): map<u64, B> {
    if rows == [] then m else
    var before := Group(m, rows[..|rows| - 1], span, start, add);
    var r := rows[|rows| - 1];
    var k := BucketOf(r.time, span);
    before[k := add(if k in before then before[k] else start(k), r.value)]
  }

  lemma {:induction false} GroupConcat<B>(m: map<u64, B>, a: seq<Row>, b: seq<Row>, span: u64,
                                          start: u64 -> B, add: (B, u64) -> B)
    ensures Group(m, a + b, span, start, add) == Group(Group(m, a, span, start, add), b, span, start, add)
  {
    if b == [] {
      assert a + b == a;
    } else {
      assert (a + b)[..|a| + |b| - 1] == a + b[..|b| - 1];
      GroupConcat(m, a, b[..|b| - 1], span, start, add);
    }
  }

  lemma OldYoungSnoc(rows: seq<Row>, i: nat, cutoff: u64)
    requires i < |rows|
    ensures rows[i].time < cutoff ==>
              && Old(rows[..i + 1], cutoff) == Old(rows[..i], cutoff) + [rows[i]]
              && Young(rows[..i + 1], cutoff) == Young(rows[..i], cutoff)
    ensures rows[i].time >= cutoff ==>
              && Old(rows[..i + 1], cutoff) == Old(rows[..i], cutoff)
              && Young(rows[..i + 1], cutoff) == Young(rows[..i], cutoff) + [rows[i]]
  {
    assert rows[..i + 1][..i] == rows[..i];
  }

  lemma {:induction false} OldYoungElements(rows: seq<Row>, cutoff: u64)
    ensures forall r :: r in Old(rows, cutoff) <==> r in rows && r.time < cutoff
    ensures forall r :: r in Young(rows, cutoff) <==> r in rows && r.time >= cutoff
  {
    if rows != [] {
      var n := |rows| - 1;
      OldYoungElements(rows[..n], cutoff);
      assert rows == rows[..n] + [rows[n]];
    }
  }

  lemma {:induction false} OldConcat(a: seq<Row>, b: seq<Row>, cutoff: u64)
    ensures Old(a + b, cutoff) == Old(a, cutoff) + Old(b, cutoff)
    ensures Young(a + b, cutoff) == Young(a, cutoff) + Young(b, cutoff)
  {
    if b == [] {
      assert a + b == a;
    } else {
      assert (a + b)[..|a| + |b| - 1] == a + b[..|b| - 1];
      OldConcat(a, b[..|b| - 1], cutoff);
    }
  }

  lemma {:induction false} AllOld(rows: seq<Row>, cutoff: u64)
    requires forall r :: r in rows ==> r.time < cutoff
    ensures Old(rows, cutoff) == rows && Young(rows, cutoff) == []
  {
    if rows != [] {
      var n := |rows| - 1;
      assert rows == rows[..n] + [rows[n]];
      AllOld(rows[..n], cutoff);
    }
  }

  /** On rows in time order the old ones come first. */
  lemma {:induction false} OldThenYoung(rows: seq<Row>, cutoff: u64)
    requires Nondecreasing(rows)
    ensures rows == Old(rows, cutoff) + Young(rows, cutoff)
  {
    if rows == [] {
      assert Old(rows, cutoff) + Young(rows, cutoff) == [];
    }
    if rows != [] {
      hide Old, Young;
      var n := |rows| - 1;
      OldThenYoung(rows[..n], cutoff);
      OldYoungSnoc(rows, n, cutoff);
      assert rows[..n + 1] == rows == rows[..n] + [rows[n]];
      if rows[n].time < cutoff {
        AllOld(rows[..n], cutoff);
      } else {
        assert Old(rows[..n], cutoff) + (Young(rows[..n], cutoff) + [rows[n]]) == rows[..n] + [rows[n]];
      }
    }
  }

  lemma NondecreasingParts(a: seq<Row>, b: seq<Row>)
    requires Nondecreasing(a + b)
    ensures Nondecreasing(a) && Nondecreasing(b)
  {
    forall i, j | 0 <= i < j < |a| ensures a[i].time <= a[j].time { assert (a + b)[i] == a[i] && (a + b)[j] == a[j]; }
    forall i, j | 0 <= i < j < |b| ensures b[i].time <= b[j].time {
      assert (a + b)[|a| + i] == b[i] && (a + b)[|a| + j] == b[j];
    }
  }

  /** Cutting at an earlier point first selects the same rows in the same order. */
  lemma CutTwice(rows: seq<Row>, c1: u64, c2: u64)
    requires Nondecreasing(rows) && c1 <= c2
    ensures Old(rows, c2) == Old(rows, c1) + Old(Young(rows, c1), c2)
    ensures Young(rows, c2) == Young(Young(rows, c1), c2)
  {
    var a, b := Old(rows, c1), Young(rows, c1);
    OldThenYoung(rows, c1);
    OldYoungElements(rows, c1);
    OldConcat(a, b, c2);
    AllOld(a, c2);
  }

  /** Compacting in two steps adds the same rows to the same buckets in the same order. */
  lemma GroupTwice<B>(m: map<u64, B>, rows: seq<Row>, c1: u64, c2: u64, span: u64, start: u64 -> B, add: (B, u64) -> B)
    requires Nondecreasing(rows) && c1 <= c2
    ensures Group(m, Old(rows, c2), span, start, add)
         == Group(Group(m, Old(rows, c1), span, start, add), Old(Young(rows, c1), c2), span, start, add)
  {
    CutTwice(rows, c1, c2);
    GroupConcat(m, Old(rows, c1), Old(Young(rows, c1), c2), span, start, add);
  }
}
