/** Grouping a stream of entries by key while reading it, and its plain meaning. */
module Runs {
  import opened Words
  import opened Sorted

  /** How entries are grouped: the key of an entry, what adding it does to an accumulator, the fresh
      accumulator, and whether an accumulator has anything to report. */
  datatype Grouping<!E, !A> = Grouping(key: E -> u64, add: (A, E) -> A, zero: A, some: A -> bool)

  /** The loop state of a reader: what it has yielded, the key it is in, and the open accumulator. */
  datatype Run<A> = Run(out: seq<(u64, A)>, current: u64, acc: A)

  ghost predicate Laws<E(!new), A(!new)>(g: Grouping<E, A>) {
    && !g.some(g.zero)
    && (forall a, e :: g.some(a) ==> g.some(g.add(a, e)))
    && (forall e :: !g.some(g.add(g.zero, e)) ==> g.add(g.zero, e) == g.zero)
  }

  function Flush<E, A>(g: Grouping<E, A>, r: Run<A>): seq<(u64, A)> {
    if g.some(r.acc) then r.out + [(r.current, r.acc)] else r.out
  }

  /** A change of key closes the accumulator if it has anything to report. */
  function Step<E, A>(g: Grouping<E, A>, r: Run<A>, e: E): Run<A> {
    if g.some(r.acc) && g.key(e) != r.current then Run(Flush(g, r), g.key(e), g.add(g.zero, e))
    else Run(r.out, g.key(e), g.add(r.acc, e))
  }

  function RunAll<E, A>(g: Grouping<E, A>, es: seq<E>): Run<A> {
    if es == [] then Run([], 0, g.zero) else Step(g, RunAll(g, es[..|es| - 1]), es[|es| - 1])
  }

  /** Everything a reader yields for some entries. */
  function Grouped<E, A>(g: Grouping<E, A>, es: seq<E>): seq<(u64, A)> {
    Flush(g, RunAll(g, es))
  }

  // ----- The plain meaning: select by key, fold -----

  function Select<E, A>(g: Grouping<E, A>, es: seq<E>, k: u64): seq<E> {
    if es == [] then [] else
    Select(g, es[..|es| - 1], k) + if g.key(es[|es| - 1]) == k then [es[|es| - 1]] else []
  }

  function FoldAll<E, A>(g: Grouping<E, A>, es: seq<E>): A {
    if es == [] then g.zero else g.add(FoldAll(g, es[..|es| - 1]), es[|es| - 1])
  }

  function KeysOf<E, A>(g: Grouping<E, A>, es: seq<E>): set<int> {
    set i | 0 <= i < |es| :: g.key(es[i])
  }

  /** The keys that have something to report, in the order given, each with the fold of its entries. */
  function Report<E, A>(g: Grouping<E, A>, es: seq<E>, keys: seq<u64>): seq<(u64, A)> {
    if keys == [] then [] else
    var k := keys[|keys| - 1];
    var a := FoldAll(g, Select(g, es, k));
    Report(g, es, keys[..|keys| - 1]) + if g.some(a) then [(k, a)] else []
  }

  function AscendingKeys<E, A>(g: Grouping<E, A>, es: seq<E>): seq<u64> {
    var q := Ascending(KeysOf(g, es));
    assert forall i :: 0 <= i < |q| ==> q[i] in KeysOf(g, es);
    q
  }

  ghost predicate KeysInOrder<E, A>(g: Grouping<E, A>, es: seq<E>) {
    forall i, j :: 0 <= i < j < |es| ==> g.key(es[i]) <= g.key(es[j])
  }

  lemma {:induction false} FoldZero<E(!new), A(!new)>(g: Grouping<E, A>, es: seq<E>)
    requires Laws(g)
    ensures g.some(FoldAll(g, es)) || FoldAll(g, es) == g.zero
  {
    if es != [] {
      FoldZero(g, es[..|es| - 1]);
    }
  }

  lemma SelectSnoc<E, A>(g: Grouping<E, A>, es: seq<E>, e: E, k: u64)
    ensures Select(g, es + [e], k) == Select(g, es, k) + if g.key(e) == k then [e] else []
  {
    assert (es + [e])[..|es|] == es;
  }

  lemma FoldSnoc<E, A>(g: Grouping<E, A>, es: seq<E>, e: E)
    ensures FoldAll(g, es + [e]) == g.add(FoldAll(g, es), e)
    ensures FoldAll(g, []) == g.zero
  {
    assert (es + [e])[..|es|] == es;
  }

  lemma RunSnoc<E, A>(g: Grouping<E, A>, es: seq<E>, e: E)
    ensures RunAll(g, es + [e]) == Step(g, RunAll(g, es), e)
  {
    assert (es + [e])[..|es|] == es;
  }

  /** An entry of another key changes nothing in a report. */
  lemma {:induction false} ReportOther<E, A>(g: Grouping<E, A>, es: seq<E>, e: E, keys: seq<u64>)
    requires g.key(e) !in keys
    ensures Report(g, es + [e], keys) == Report(g, es, keys)
  {
    if keys != [] {
      hide Select, FoldAll;
      var n := |keys| - 1;
      assert keys[n] in keys && forall k :: k in keys[..n] ==> k in keys;
      ReportOther(g, es, e, keys[..n]);
      SelectSnoc(g, es, e, keys[n]);
      assert Select(g, es, keys[n]) + [] == Select(g, es, keys[n]);
    }
  }

  lemma {:induction false} SelectNone<E, A>(g: Grouping<E, A>, es: seq<E>, k: u64)
    requires k !in KeysOf(g, es)
    ensures Select(g, es, k) == []
  {
    if es != [] {
      assert forall i :: 0 <= i < |es| ==> g.key(es[i]) in KeysOf(g, es);
      SelectNone(g, es[..|es| - 1], k);
    }
  }

  lemma KeysSnoc<E, A>(g: Grouping<E, A>, es: seq<E>, e: E)
    ensures KeysOf(g, es + [e]) == KeysOf(g, es) + {g.key(e)}
  {
    var s := es + [e];
    assert forall i :: 0 <= i < |es| ==> s[i] == es[i];
    assert s[|es|] == e;
    forall k
      ensures k in KeysOf(g, s) <==> k in KeysOf(g, es) + {g.key(e)}
    {
      if k in KeysOf(g, es) {
        var i :| 0 <= i < |es| && g.key(es[i]) == k;
        assert s[i] == es[i];
      }
    }
  }

  /** Where the loop stands after some entries. */
  ghost predicate Standing<E, A>(g: Grouping<E, A>, es: seq<E>, r: Run<A>) {
    if es == [] then r == Run([], 0, g.zero) else
    var q := AscendingKeys(g, es);
    && q != [] && q[|q| - 1] == g.key(es[|es| - 1]) == r.current
    && r.acc == FoldAll(g, Select(g, es, r.current))
    && r.out == Report(g, es, q[..|q| - 1])
  }

  lemma SameKey<E, A>(g: Grouping<E, A>, es: seq<E>, e: E)
    requires es != [] && g.key(e) == g.key(es[|es| - 1])
    ensures AscendingKeys(g, es + [e]) == AscendingKeys(g, es)
  {
    KeysSnoc(g, es, e);
    assert g.key(es[|es| - 1]) in KeysOf(g, es);
    assert KeysOf(g, es) + {g.key(e)} == KeysOf(g, es);
  }

  lemma LargerKey<E, A>(g: Grouping<E, A>, es: seq<E>, e: E)
    requires forall i :: 0 <= i < |es| ==> g.key(es[i]) < g.key(e)
    ensures AscendingKeys(g, es + [e]) == AscendingKeys(g, es) + [g.key(e)]
    ensures g.key(e) !in AscendingKeys(g, es)
  {
    KeysSnoc(g, es, e);
    AscendingSnoc(KeysOf(g, es), g.key(e));
  }

  lemma LastKeyOnce(q: seq<u64>)
    requires Increasing(q) && q != []
    ensures q[|q| - 1] !in q[..|q| - 1]
  {
  }

  lemma StandingSame<E(!new), A(!new)>(g: Grouping<E, A>, es: seq<E>, e: E, r: Run<A>)
    requires Standing(g, es, r) && es != [] && g.key(e) == r.current
    ensures Standing(g, es + [e], Step(g, r, e))
  {
    hide Select, FoldAll, Report, AscendingKeys;
    var q := AscendingKeys(g, es);
    SameKey(g, es, e);
    SelectSnoc(g, es, e, r.current);
    FoldSnoc(g, Select(g, es, r.current), e);
    assert Increasing(q) by { KeysIncrease(g, es); }
    LastKeyOnce(q);
    ReportOther(g, es, e, q[..|q| - 1]);
  }

  lemma KeysIncrease<E, A>(g: Grouping<E, A>, es: seq<E>)
    ensures Increasing(AscendingKeys(g, es))
    ensures es == [] ==> AscendingKeys(g, es) == []
  {
    if es == [] {
      assert KeysOf(g, es) == {};
    }
  }

  lemma ReportSnoc<E, A>(g: Grouping<E, A>, es: seq<E>, q: seq<u64>)
    requires q != []
    ensures var k := q[|q| - 1];
            var a := FoldAll(g, Select(g, es, k));
            Report(g, es, q) == if g.some(a) then Report(g, es, q[..|q| - 1]) + [(k, a)] else Report(g, es, q[..|q| - 1])
  {
  }

  lemma StandingNew<E(!new), A(!new)>(g: Grouping<E, A>, es: seq<E>, e: E, r: Run<A>)
    requires Laws(g) && Standing(g, es, r)
    requires forall i :: 0 <= i < |es| ==> g.key(es[i]) < g.key(e)
    ensures Standing(g, es + [e], Step(g, r, e))
  {
    hide Select, FoldAll, Report, AscendingKeys, KeysOf;
    var k, q := g.key(e), AscendingKeys(g, es);
    LargerKey(g, es, e);
    assert (q + [k])[..|q|] == q;
    ReportOther(g, es, e, q);
    SelectSnoc(g, es, e, k);
    NoneSelected(g, es, k);
    assert [] + [e] == [e];
    FoldSnoc(g, [], e);
    if es == [] {
      KeysIncrease(g, es);
      assert Report(g, es, q) == [] by { NoReport(g, es); }
    } else {
      ReportSnoc(g, es, q);
      FoldZero(g, Select(g, es, r.current));
    }
  }

  lemma NoReport<E, A>(g: Grouping<E, A>, es: seq<E>)
    ensures Report(g, es, []) == []
  {
  }

  lemma NoneSelected<E, A>(g: Grouping<E, A>, es: seq<E>, k: u64)
    requires forall i :: 0 <= i < |es| ==> g.key(es[i]) < k
    ensures Select(g, es, k) == []
  {
    hide Select;
    assert k !in KeysOf(g, es);
    SelectNone(g, es, k);
  }

  lemma {:induction false} RunStands<E(!new), A(!new)>(g: Grouping<E, A>, es: seq<E>)
    requires Laws(g) && KeysInOrder(g, es)
    ensures Standing(g, es, RunAll(g, es))
  {
    if es != [] {
      hide Standing, Step, Laws, KeysInOrder, RunAll;
      var n := |es| - 1;
      var front, e := es[..n], es[n];
      assert es == front + [e];
      KeysGoOn(g, front, e);
      RunStands(g, front);
      RunSnoc(g, front, e);
      if n > 0 && g.key(e) == g.key(front[n - 1]) {
        CurrentKey(g, front, RunAll(g, front));
        StandingSame(g, front, e, RunAll(g, front));
      } else {
        StandingNew(g, front, e, RunAll(g, front));
      }
    }
  }

  /** The next key is the last one or behind all. */
  lemma KeysGoOn<E, A>(g: Grouping<E, A>, es: seq<E>, e: E)
    requires KeysInOrder(g, es + [e])
    ensures KeysInOrder(g, es)
    ensures es == [] || g.key(e) == g.key(es[|es| - 1]) || forall i :: 0 <= i < |es| ==> g.key(es[i]) < g.key(e)
  {
    var s := es + [e];
    assert forall i :: 0 <= i < |es| ==> s[i] == es[i];
    assert s[|es|] == e;
  }

  lemma CurrentKey<E, A>(g: Grouping<E, A>, es: seq<E>, r: Run<A>)
    requires Standing(g, es, r) && es != []
    ensures r.current == g.key(es[|es| - 1])
  {
  }

  /** On entries whose keys do not go back, the streaming loop reports exactly each key once, in
      ascending order, with the fold of all its entries. */
  lemma StreamingIsGrouping<E(!new), A(!new)>(g: Grouping<E, A>, es: seq<E>)
    requires Laws(g) && KeysInOrder(g, es)
    ensures Grouped(g, es) == Report(g, es, AscendingKeys(g, es))
  {
    assert !g.some(g.zero);
    hide Select, FoldAll, Report, AscendingKeys, Laws;
    RunStands(g, es);
    KeysIncrease(g, es);
    if es == [] {
      NoReport(g, es);
    } else {
      ReportSnoc(g, es, AscendingKeys(g, es));
    }
  }

  lemma {:induction false} SelectSome<E, A>(g: Grouping<E, A>, es: seq<E>, k: u64)
    ensures k in KeysOf(g, es) ==> Select(g, es, k) != []
    ensures forall e :: e in Select(g, es, k) ==> e in es
  {
    if es != [] {
      var front, e := es[..|es| - 1], es[|es| - 1];
      assert es == front + [e];
      SelectSome(g, front, k);
      KeysSnoc(g, front, e);
    }
  }

  /** When every key has something to report, the report lists the keys. */
  lemma {:induction false} ReportEach<E, A>(g: Grouping<E, A>, es: seq<E>, keys: seq<u64>)
    requires forall k :: k in keys ==> g.some(FoldAll(g, Select(g, es, k)))
    ensures |Report(g, es, keys)| == |keys|
    ensures forall i :: 0 <= i < |keys| ==> Report(g, es, keys)[i] == (keys[i], FoldAll(g, Select(g, es, keys[i])))
  {
    if keys != [] {
      hide Select, FoldAll;
      var n := |keys| - 1;
      assert keys[n] in keys && forall k :: k in keys[..n] ==> k in keys;
      ReportEach(g, es, keys[..n]);
    }
  }

  ghost predicate HasKey<E, A>(g: Grouping<E, A>, es: seq<E>, k: u64) { exists e :: e in es && g.key(e) == k }

  lemma {:induction false} KeysPresent<E, A>(g: Grouping<E, A>, es: seq<E>, k: u64)
    ensures k in AscendingKeys(g, es) <==> HasKey(g, es, k)
  {
    assert k in AscendingKeys(g, es) <==> k in KeysOf(g, es);
    if k in KeysOf(g, es) {
      var i :| 0 <= i < |es| && g.key(es[i]) == k;
      assert es[i] in es;
    }
    if e :| e in es && g.key(e) == k {
      var i :| 0 <= i < |es| && es[i] == e;
    }
  }

  /** What a reader yields on keys that do not go back, if every group has something to report: each key of
      an entry once, in order, with the fold of its entries. */
  lemma GroupedPairs<E(!new), A(!new)>(g: Grouping<E, A>, es: seq<E>)
    requires Laws(g) && KeysInOrder(g, es)
    requires forall e :: e in es ==> g.some(FoldAll(g, Select(g, es, g.key(e))))
    ensures var out := Grouped(g, es);
            && (forall i, j :: 0 <= i < j < |out| ==> out[i].0 < out[j].0)
            && (forall i :: 0 <= i < |out| ==> out[i].1 == FoldAll(g, Select(g, es, out[i].0)))
            && (forall i :: 0 <= i < |out| ==> HasKey(g, es, out[i].0))
            && forall e :: e in es ==> exists i :: 0 <= i < |out| && out[i].0 == g.key(e)
  {
    hide Select, FoldAll, Report, AscendingKeys, Grouped, KeysInOrder, Laws;
    var q, out := AscendingKeys(g, es), Grouped(g, es);
    StreamingIsGrouping(g, es);
    forall k | k in q
      ensures g.some(FoldAll(g, Select(g, es, k))) && HasKey(g, es, k)
    {
      KeysPresent(g, es, k);
    }
    ReportEach(g, es, q);
    KeysIncrease(g, es);
    assert |out| == |q| && forall i :: 0 <= i < |q| ==> out[i] == (q[i], FoldAll(g, Select(g, es, q[i])));
    forall i, j | 0 <= i < j < |out|
      ensures out[i].0 < out[j].0
    {
      assert q[i] < q[j];
    }
    forall i | 0 <= i < |out|
      ensures out[i].1 == FoldAll(g, Select(g, es, out[i].0))
    {
    }
    forall i | 0 <= i < |out|
      ensures HasKey(g, es, out[i].0)
    {
      assert q[i] in q && out[i].0 == q[i];
    }
    forall e | e in es
      ensures exists i :: 0 <= i < |out| && out[i].0 == g.key(e)
    {
      KeysPresent(g, es, g.key(e));
      var i :| 0 <= i < |q| && q[i] == g.key(e);
      assert out[i].0 == g.key(e);
    }
  }
}
