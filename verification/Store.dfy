/** Loading and compacting one stored series. */
module Stores {
  import opened Words
  import opened Varint
  import opened Reader
  import opened FloatModel
  import opened Pendings
  import opened Blocks
  import opened Segments
  import opened Marshalling
  import opened Appending
  import opened Database
  import opened LatestWrites

  /** What `load` may return: the stored bytes as they lie, or a merge with what is buffered, or an error. */
  ghost predicate LoadsTo(F: Floats, raw: bytes, tail: Option<State>, r: Result<bytes>) {
    if raw != [] && raw[0] != VERSION then r == Err(Version)
    else if tail.None? then r == Ok(raw)
    else if Decoded(raw).Err? then r == Err(Decoded(raw).error)
    else r.Ok? && exists m :: MergesTo(F, Decoded(raw).value, tail.value, m, r.value)
  }

  /** `load`: the stored bytes as they lie, or merged with a copy of what is buffered. */
  method Load(F: Floats, raw: bytes, tail: Option<State>) returns (r: Result<bytes>)
    requires tail.Some? && Decoded(raw).Ok? ==> Room(F, Decoded(raw).value, tail.value)
    ensures LoadsTo(F, raw, tail, r)
    ensures r == Err(Version) || (raw == [] || raw[0] == 4)
    ensures tail.None? && (raw == [] || raw[0] == 4) ==> r == Ok(raw)
    ensures tail.Some? && Decoded(raw).Err? ==> r.Err?
  {
    hide Decoded;
    if |raw| > 0 && raw[0] != VERSION {
      return Err(Version);
    }
    if tail.None? {
      return Ok(raw);
    }
    var p := Decode(raw);
    if p.Err? {
      return Err(p.error);
    }
    var current := new Pending.Of(p.value);
    current.Merge(F, tail.value);
    ghost var m := current.View();
    MergeAppendable(F, p.value, tail.value, m);
    MergeFits(F, p.value, tail.value, m);
    hide Marshalled, Appendable;
    r := Marshal(F, current);
    assert MergesTo(F, p.value, tail.value, m, r.value);
  }

  /** On the store and the buffer of a run this is what a load of the run may return: the buffer has an entry
      for the key exactly when something is buffered. */
  lemma LoadIsLoads(F: Floats, db: Db, tail: Option<State>, r: Result<bytes>)
    requires tail == if Size(db.buffer) == 0 then None else Some(db.buffer)
    requires r.Ok? && LoadsTo(F, db.store, tail, r)
    ensures Loads(F, db, r.value)
  {
    hide Decoded, MergedInto, Appendable, Fits;
  }

  /** What the update of `compact` may store: the compacted state encoded, or without a span the state as it
      is encoded again. */
  ghost predicate CompactsTo(F: Floats, stored: bytes, cutoff: u64, span: i64, r: Result<bytes>)
    requires Decoded(stored).Ok? && span > 0 ==> Compactable(F, Decoded(stored).value, cutoff, span / SECOND)
  {
    match Decoded(stored)
    case Err(e) => r == Err(e)
    case Ok(p) =>
      var q := if span > 0 then Compacted(F, p, cutoff, span / SECOND) else p;
      Fits(q) && r.Ok? && MarshalsTo(F, q, r.value)
  }

  /** The state fits a machine before and after it is compacted. */
  ghost predicate Roomy(F: Floats, p: State, cutoff: u64, span: i64) {
    && (span > 0 ==> Compactable(F, p, cutoff, span / SECOND))
    && var q := if span > 0 then Compacted(F, p, cutoff, span / SECOND) else p;
       Fits(q) && (Appendable(q) || Room(F, EMPTY, q))
  }

  /** The update of `compact`: decode, compact, encode. */
  method Compact(F: Floats, stored: bytes, cutoff: u64, span: i64) returns (r: Result<bytes>)
    requires Decoded(stored).Ok? ==> Roomy(F, Decoded(stored).value, cutoff, span)
    ensures CompactsTo(F, stored, cutoff, span, r)
    ensures Decoded(stored).Err? ==> r == Err(Decoded(stored).error)
  {
    hide Decoded, Room, Appendable, Compacted, Compactable, Fits, MarshalsTo;
    var p := Decode(stored);
    if p.Err? {
      return Err(p.error);
    }
    var current := new Pending.Of(p.value);
    current.Compact(F, cutoff, span);
    r := Marshal(F, current);
  }

  /** Without a span nothing is folded: what is stored decodes to the state that was there. */
  lemma NoSpanKeeps(F: Floats, stored: bytes, cutoff: u64, span: i64, r: Result<bytes>)
    requires span <= 0 && Decoded(stored).Ok? && CompactsTo(F, stored, cutoff, span, r)
    requires Appendable(Decoded(stored).value) && AllFinite(Decoded(stored).value.sketches.rows)
    ensures r.Ok? && Decoded(r.value) == Decoded(stored)
  {
    hide Decoded, Appendable, Compactable, Fits, AllFinite, Marshalled;
    MarshalRoundTrip(Decoded(stored).value);
  }

  /** On a series of a run these are the steps of the run. */
  lemma CompactIsStep(F: Floats, a: Db, cutoff: u64, span: i64, r: Result<bytes>)
    requires span > 0 && Decoded(a.store).Ok? && Compactable(F, Decoded(a.store).value, cutoff, span / 1_000_000_000)
    requires CompactsTo(F, a.store, cutoff, span, r)
    ensures r.Ok? && var b := a.(store := r.value, cutoff := if cutoff > a.cutoff then cutoff else a.cutoff);
                     Compacts(F, a, b, cutoff, span / 1_000_000_000)
  {
    hide Decoded, Appendable, Compacted, Compactable, Fits, MarshalsTo;
  }
}
