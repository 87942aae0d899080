/** Which rows compactions have folded into which bucket. */
module Provenance {
  import opened Words
  import opened Rows

  /** By bucket time, the rows that were folded into the bucket, in that order. */
  type Origins = map<u64, seq<Row>>

  function From(w: Origins, k: u64): seq<Row> { if k in w then w[k] else [] }

  function Taken(w: Origins, rows: seq<Row>, span: u64): Origins {
    if rows == [] then w else
    var before, r := Taken(w, rows[..|rows| - 1], span), rows[|rows| - 1];
    before[BucketOf(r.time, span) := From(before, BucketOf(r.time, span)) + [r]]
  }

  lemma TakenSnoc(w: Origins, rows: seq<Row>, r: Row, span: u64)
    ensures var before, k := Taken(w, rows, span), BucketOf(r.time, span);
            Taken(w, rows + [r], span) == before[k := From(before, k) + [r]]
  {
    assert (rows + [r])[..|rows|] == rows;
  }

  lemma ValuesSnoc(rows: seq<Row>, r: Row)
    ensures Values(rows + [r]) == Values(rows) + [r.value]
  {
  }

  /** No bucket is without rows, and every row that was folded is one of these. */
  ghost predicate FoldedFrom(w: Origins, all: set<Row>) {
    forall t :: t in w ==> w[t] != [] && forall r :: r in w[t] ==> r in all && t <= r.time
  }

  lemma {:induction false} TakenFrom(w: Origins, rows: seq<Row>, span: u64, all: set<Row>)
    requires FoldedFrom(w, all) && forall r :: r in rows ==> r in all
    ensures FoldedFrom(Taken(w, rows, span), all)
  {
    if rows != [] {
      var front, r := rows[..|rows| - 1], rows[|rows| - 1];
      assert rows == front + [r];
      TakenFrom(w, front, span, all);
      TakenSnoc(w, front, r, span);
    }
  }
}
