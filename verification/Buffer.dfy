/** The write buffer: one pending series per key, and spare ones that are used again. */
module Buffers {
  import opened Words
  import opened Reader
  import opened Rows
  import opened Pendings
  import P = SampleState
  import N = CounterState
  import K = SketchState

  type Key = string

  class Buffer {
    var items: map<Key, Pending>
    var spare: seq<Pending>

    ghost function Samples(): set<P.SampleData>
      reads this
    {
      (set k | k in items :: items[k].samples) + (set q | q in spare :: q.samples)
    }

    ghost function Counters(): set<N.CounterData>
      reads this
    {
      (set k | k in items :: items[k].counters) + (set q | q in spare :: q.counters)
    }

    ghost function Sketches(): set<K.SketchData>
      reads this
    {
      (set k | k in items :: items[k].sketches) + (set q | q in spare :: q.sketches)
    }

    ghost predicate Valid()
      reads this, Samples(), Counters(), Sketches()
    {
      && Unshared(items, spare)
      && (forall k :: k in items ==> items[k].Valid())
      && (forall i :: 0 <= i < |spare| ==> spare[i].Valid() && spare[i].View() == EMPTY)
    }

    /** What is buffered under each key. */
    ghost function View(): map<Key, State>
      reads this, Samples(), Counters(), Sketches()
      requires Valid()
    {
      map k | k in items :: items[k].View()
    }

    constructor ()
      ensures Valid() && View() == map[]
    {
      items, spare := map[], [];
    }

    /** Hands out everything that is buffered and starts anew. */
    method Flush() returns (out: map<Key, Pending>)
      requires Valid()
      modifies `items
      ensures Valid() && View() == map[] && spare == old(spare)
      ensures out == old(items) && forall k :: k in out ==> Apart(out[k], map[], spare)
    {
      out := items;
      items := map[];
    }

    /** A spare series if there is one, else a new one. */
    method Get() returns (q: Pending)
      requires Valid()
      modifies `spare
      ensures Valid() && items == old(items)
      ensures q.Valid() && q.View() == EMPTY && Apart(q, items, spare)
      ensures q in old(spare) || (fresh(q) && fresh(q.samples) && fresh(q.counters) && fresh(q.sketches))
    {
      var n := |spare|;
      if n == 0 {
        q := new Pending();
        return;
      }
      q := spare[n - 1];
      TakeUnshared(items, spare);
      spare := spare[..n - 1];
    }

    /** The series of a key, an empty one if the key is new. */
    method Series(key: Key) returns (q: Pending)
      requires Valid()
      modifies this
      ensures Valid() && key in items && q == items[key]
      ensures View() == if key in old(items) then old(View()) else old(View())[key := EMPTY]
      ensures q.samples in old(Samples()) || fresh(q.samples)
      ensures q.counters in old(Counters()) || fresh(q.counters)
      ensures q.sketches in old(Sketches()) || fresh(q.sketches)
    {
      hide Pending.View, Pending.Valid, Unshared, Apart, Separate;
      if key !in items {
        ghost var before := View();
        var next := Get();
        StillUnshared(items, spare, key, next);
        items := items[key := next];
        assert View() == before[key := EMPTY];
      }
      q := items[key];
    }

    method AddSample(key: Key, at: u64, value: u64, clock: u64, replica: u64)
      requires Valid()
      modifies this, Samples()
      ensures Valid()
      ensures var d := if key in old(View()) then old(View())[key] else EMPTY;
              View() == old(View())[key := WithSample(d, Row(at, value, clock, replica))]
    {
      hide Pending.View, Pending.Valid, WithSample, Unshared;
      var q := Series(key);
      ghost var before, others := View(), spare;
      OthersApart(items, spare, key);
      q.AddSample(at, value, clock, replica);
      forall k | k in items && k != key ensures items[k].Valid() && items[k].View() == before[k] { assert Separate(q, items[k]); }
      forall i | 0 <= i < |others| ensures others[i].Valid() && others[i].View() == EMPTY { assert Separate(q, others[i]); }
      Replaced(old(View()), before, View(), key, WithSample(before[key], Row(at, value, clock, replica)));
    }

    method AddCounter(key: Key, at: u64, replica: u64, clock: u64, value: u64)
      requires Valid()
      modifies this, Counters()
      ensures Valid()
      ensures var d := if key in old(View()) then old(View())[key] else EMPTY;
              View() == old(View())[key := WithCounter(d, Row(at, value, clock, replica))]
    {
      hide Pending.View, Pending.Valid, WithCounter, Unshared;
      var q := Series(key);
      ghost var before, others := View(), spare;
      OthersApart(items, spare, key);
      q.AddCounter(at, replica, clock, value);
      forall k | k in items && k != key ensures items[k].Valid() && items[k].View() == before[k] { assert Separate(q, items[k]); }
      forall i | 0 <= i < |others| ensures others[i].Valid() && others[i].View() == EMPTY { assert Separate(q, others[i]); }
      Replaced(old(View()), before, View(), key, WithCounter(before[key], Row(at, value, clock, replica)));
    }

    method AddSketch(key: Key, at: u64, value: u64, clock: u64, replica: u64)
      requires Valid()
      modifies this, Sketches()
      ensures Valid()
      ensures var d := if key in old(View()) then old(View())[key] else EMPTY;
              View() == old(View())[key := WithSketch(d, Row(at, value, clock, replica))]
    {
      hide Pending.View, Pending.Valid, WithSketch, Unshared;
      var q := Series(key);
      ghost var before, others := View(), spare;
      OthersApart(items, spare, key);
      q.AddSketch(at, value, clock, replica);
      forall k | k in items && k != key ensures items[k].Valid() && items[k].View() == before[k] { assert Separate(q, items[k]); }
      forall i | 0 <= i < |others| ensures others[i].Valid() && others[i].View() == EMPTY { assert Separate(q, others[i]); }
      Replaced(old(View()), before, View(), key, WithSketch(before[key], Row(at, value, clock, replica)));
    }

    /** A copy of what is buffered under a key, if there is such a key. */
    method Clone(key: Key) returns (d: Option<State>)
      requires Valid()
      ensures d == if key in View() then Some(View()[key]) else None
    {
      if key !in items {
        return None;
      }
      var p := items[key].Clone();
      d := Some(p);
    }

    /** Takes back a series that was handed out, emptied. */
    method Recycle(q: Pending)
      requires Valid() && Apart(q, items, spare)
      modifies `spare, q.samples, q.counters, q.sketches
      ensures Valid() && View() == old(View()) && items == old(items)
      ensures spare == old(spare) + [q]
    {
      hide Pending.View, Pending.Valid, Unshared;
      ghost var before := View();
      GiveUnshared(items, spare, q);
      q.Reset();
      assert forall k :: k in items ==> items[k].View() == before[k];
      spare := spare + [q];
    }
  }

  lemma Replaced(m: map<Key, State>, before: map<Key, State>, after: map<Key, State>, key: Key, d: State)
    requires before == if key in m then m else m[key := EMPTY]
    requires after.Keys == before.Keys && after[key] == d
    requires forall k :: k in after && k != key ==> after[k] == before[k]
    ensures after == m[key := d] && before[key] == if key in m then m[key] else EMPTY
  {
  }

  /** Two series have no part in common. */
  predicate Separate(q: Pending, r: Pending) {
    q.samples != r.samples && q.counters != r.counters && q.sketches != r.sketches
  }

  /** The series is neither in use nor spare, and shares nothing with those that are. */
  ghost predicate Apart(q: Pending, items: map<Key, Pending>, spare: seq<Pending>) {
    (forall k :: k in items ==> Separate(q, items[k])) && forall i :: 0 <= i < |spare| ==> Separate(q, spare[i])
  }

  /** No two series in use or spare have a part in common. */
  ghost predicate Unshared(items: map<Key, Pending>, spare: seq<Pending>) {
    && (forall j, k :: j in items && k in items && j != k ==> Separate(items[j], items[k]))
    && (forall i, j :: 0 <= i < j < |spare| ==> Separate(spare[i], spare[j]))
    && (forall k, i :: k in items && 0 <= i < |spare| ==> Separate(items[k], spare[i]))
  }

  lemma StillUnshared(items: map<Key, Pending>, spare: seq<Pending>, key: Key, q: Pending)
    requires Unshared(items, spare) && Apart(q, items, spare) && key !in items
    ensures Unshared(items[key := q], spare)
  {
  }

  lemma TakeUnshared(items: map<Key, Pending>, spare: seq<Pending>)
    requires Unshared(items, spare) && spare != []
    ensures Unshared(items, spare[..|spare| - 1]) && Apart(spare[|spare| - 1], items, spare[..|spare| - 1])
  {
  }

  lemma GiveUnshared(items: map<Key, Pending>, spare: seq<Pending>, q: Pending)
    requires Unshared(items, spare) && Apart(q, items, spare)
    ensures Unshared(items, spare + [q])
  {
  }

  lemma OthersApart(items: map<Key, Pending>, spare: seq<Pending>, key: Key)
    requires Unshared(items, spare) && key in items
    ensures forall k :: k in items && k != key ==> Separate(items[key], items[k])
    ensures forall i :: 0 <= i < |spare| ==> Separate(items[key], spare[i])
  {
  }
}
