# trend: the storage engine, modelled and verified

`trend` keeps time series of three families under each key: samples (last write wins), counters (sets of
adds) and sketches (approximate distributions). This project models its storage engine (the byte codec,
the mergeable state, compaction, the quantile sketch and the readers) and proves what these layers
promise together.

How the files fit:

- **Bytes.** `Words`, `Varint`, `Reader`, `Blocks`, `BlockCodec`, `Segments`, `Marshal`, `WireFormat`: unsigned
  LEB128 (section 7.6 of DWARF Version 5) capped at 64 bits, delta and XOR columns, six kinds of segments, scans
  of arbitrary bytes, encoding and decoding of whole states, and the bytes of an example of each kind.
- **Sketch.** `Floats`, `Float64`, `FloatLaws`, `Keys`, `Sorted`, `Histograms`, `Sketches`, `SketchValue`,
  `SketchCodec`, `SketchBytes`, `Observations`, `Quantiles`, `QuantileError`, `SketchQueries`,
  `SketchAcceptance`, `SketchAccuracy`: log-spaced bins, eviction to 1024 bins, merging of encoded sketches, and quantiles of
  encoded bins with the exact condition for their error bound.
- **State.** `Rows`, `SampleState`, `CounterState`, `SketchState`, `SketchMerges`, `Pending`, `Buffer`,
  `Provenance`, `MergedBuckets`: the objects that are updated in place, each proved against functions on values, the
  algebra of those, and which rows are behind a stored bucket.
- **Append.** `Append`, `AppendLaws`, `FastPath`, `Repetition`: the append that merges, the append that only
  puts bytes behind, and when they mean the same.
- **Readers.** `Runs`, `Streams`, `Agg`, `Interleavings`, `SampleReaders`, `SampleMemory`, `CounterReaders`,
  `SketchReaders`, `SketchPaths`: streaming over segments, cursors over decoded state, and their agreement.
- **Answers.** `Answers`, `SampleAnswers`, `CounterAnswers`, `SketchAnswers`: what the readers yield, said of the
  values, adds and observations that were written.
- **Runs.** `Database`, `LatestWrites`, `Store`, `SketchRuns`, `AlignedFolds`, `AlignedReads`,
  `AlignedCounters`, `AlignedSketches`, `LayeredStates`, `PunctualRuns`, `ReadRuns`: whole runs of writes, buffer
  swaps, deltas of other replicas, merges and compactions, and what is read from them.

Conventions. Go's `uint64` is a number below 2^64 with `Add` and `Sub` modulo 2^64; `int` is 64 bits wide.
Floats are 64-bit patterns; what float hardware does is the parameter `F: Floats`, and a result that
needs a law of addition says so in its `requires` (`FloatLaws` shows an arithmetic on positive and negative
numbers that has all of them; `Float64` reads patterns as float64 does).
Bin keys are defined over the reals by `GAMMA^(key-1) < |x| <= GAMMA^key`. Methods carry the loops and
the field updates of the program; each is tied to a function, and the laws are proved of the function.
Where the iteration order of a Go map shows (entries with the same time), a contract is a relation, and
results are stated on sets or multisets.

Quantiles are meant to be within 1 % of the true value (sketches_test.go:691; the bins of sketch_state.go:20
use 0.009999). The code does not keep this for every input. When zero lies between the least and the
greatest observation, the answer for a nonzero one is within 1 % if and only if observations fall into fewer than
1024 bins above its own, and is 0 otherwise (`SketchAccuracy.OnePercentExactly`;
`SketchAccuracy.WithinExactly` covers observations of one sign and every bound). Of 0 and 1025 powers of two
the second smallest, 0.5, is answered with 0 (`SketchAccuracy.SmallestLost`). Up to 1024 bins in all,
every answer is within 1 % (`SketchAccuracy.FewBins`).

The append that only puts bytes behind counts an add twice that a delta repeats (`Repetition.CountedAgain`).
No run of the database makes such a delta, as its clocks only go up (`SketchRuns.RunFastAppends`).

## Model

| member | source | states |
|---|---|---|
| `Varint.UvarintRoundTrip` | codec.go:275-281 | An appended integer followed by any bytes reads back, and exactly those bytes are left |
| `Varint.UvarintAccepts` | codec.go:339-362 | On any bytes a read succeeds exactly when a prefix is a varint of 1 to 10 bytes below 2^64, and returns its value and the rest |
| `Varint.UvarintFails` | codec.go:339-362 | A failed read means fewer than ten bytes that all continue (short), or an overflow; nothing else |
| `Varint.AppendUvarint` | codec.go:275-281 | The loop writes the LEB128 form of any 64-bit value |
| `Reader.CodecReader.Uvarint` | codec.go:339-362 | The loop with the sticky error reads one integer or records the first error and keeps the rest |
| `Reader.CodecReader.Bytes` | codec.go:301-309 | Unlike the other reads, it ignores an earlier error, succeeds or replaces it |
| `Reader.CodecReader.Count` | codec.go:311-321 | A count must fit an int, else the reader fails |
| `Reader.DeltaRoundTrip` | block.go:98-105 | Delta coding modulo 2^64 inverts on every column, sorted or not |
| `Reader.XorRoundTrip` | block.go:107-115 | XOR chaining of bit-reversed floats returns every bit of every pattern |
| `Reader.CodecReader.Delta` | codec.go:323-329 | Reads n steps as their running sums modulo 2^64 |
| `Reader.CodecReader.FloatXor` | codec.go:331-337 | Reads n chained float patterns |
| `Words.ZigzagRoundTrip` | sketch_state.go:400-402 | Zigzag is a bijection between int64 and uint64, in both directions |
| `Blocks.BlockRoundTrip` | block.go:84-297 | Each of the six payload kinds decodes to the block it was made of, bit for bit; only a raw sketch value whose pattern without the sign bit is 0x7FF0000000000000 or more is refused |
| `Blocks.FiniteBits` | block.go:193-197 | A value is refused exactly when its pattern without the sign bit is 0x7FF0000000000000 or more |
| `Blocks.NegationAlike` | block.go:193-197 | A value and its negation are accepted alike |
| `Blocks.PrefixAgrees` | block.go:205-235 | On any bytes the full decoder accepts, the decoders of the front read the same times and values |
| `BlockCodec.DecodeSampleValues` | block.go:214-219 | The loop reads two columns and does not look at what follows |
| `BlockCodec.AppendSampleBuckets` | block.go:117-131 | The loop chains seven words per bucket from the bucket before it |
| `BlockCodec.DecodeSampleBuckets` | block.go:237-260 | The inverse loop, on any bytes |
| `BlockCodec.AppendSketchBuckets` | block.go:143-152 | Time step, length and bytes for each bucket |
| `BlockCodec.ScanSketchBuckets` | block.go:283-297 | Yields the buckets one by one up to the first error |
| `BlockCodec.ItemsWhole` | block.go:273-297 | What it yields without an error is all the payload holds, and its error is that of reading the payload as a whole |
| `BlockCodec.DecodeSketchBuckets` | block.go:273-281 | Reads the buckets back or returns the first error |
| `BlockCodec.EncodeBlock` | block.go:12-82 | Each block kind is written by its own encoder |
| `Segments.ReadWritten` | codec.go:259-268 | A written segment reads back whatever follows it |
| `Segments.ScanExtend` | codec.go:192-227 | Scanning bytes put behind a sound series goes on where it ended |
| `Segments.ScanKinds` | codec.go:192-227 | Whatever is scanned: every yielded segment has a known kind, ordered bounds and 1 to 1024 entries |
| `Segments.DecodeWritten` | codec.go:131-154 | A series of good blocks decodes to the entries of all of them, or is refused for a sketch value with such a pattern |
| `Segments.GoodBounds` | codec.go:259-268 | The bounds written in a segment are the least and greatest times of its entries |
| `Marshalling.BlocksAbsorbed` | block.go:12-82 | Cutting all six columns into 1024-entry pieces loses and reorders nothing |
| `Segments.CutPieces` | block.go:12-82 | The pieces of a column have 1024 entries each but for the last one |
| `Marshalling.MarshalRoundTrip` | codec.go:60-62 | Decoding an encoded, appendable state returns it field by field and bit for bit over any number of segments, exactly when no raw sketch value has a pattern of 0x7FF0000000000000 or more without the sign bit |
| `WireFormat.PointBytes` | block.go:84-96 | Two points with a negative value as bytes: times, values, clocks, replicas |
| `WireFormat.AddBytes` | block.go:133-141 | Two adds as bytes: times, values, replicas, clocks |
| `WireFormat.BucketBytes` | block.go:117-131 | Two sample buckets as bytes: time, count, sum, least, greatest, first, last |
| `WireFormat.BinnedSketchBytes` | sketch_state.go:372-402 | A binned sketch as bytes: kind 2, count, sum, least, greatest, zero, negative bins and then positive ones, each with a zigzag first key |
| `WireFormat.ExactSketchBytes` | sketch_state.go:367-370 | An exact sketch as bytes: kind 1, count, sum, least, greatest, values |
| `WireFormat.ServedBytes` | sketch_state.go:438-480 | An exact sketch is served with its chained values, as kind 3 |
| `WireFormat.StateBytes` | codec.go:156-172 | A state of all six families as bytes: version 4, then samples, counters and sketches with kinds 1 to 6, buckets before raw entries |
| `WireFormat.NothingWritten` | codec.go:60-66 | Of an empty state nothing is written |
| `Appending.NextSegment` | codec.go:192-227 | One turn of the scan reads one segment or its error, from any bytes, and always consumes input |
| `Appending.Validate` | codec.go:104-106 | A series is valid exactly when its scan meets no error |
| `Appending.MaxTime` | codec.go:118-129 | The greatest `to` of the segments before the first error |
| `Appending.CanAppend` | codec.go:95-102 | True exactly when every entry of the delta is later than every segment |
| `Appending.Decode` | codec.go:131-154 | The scan loop decodes all segments or returns the first error |
| `Appending.AppendSegment` | codec.go:259-268 | Header and payload of one segment |
| `Appending.AppendRun` | block.go:12-82 | The loop writes one segment for each run of at most 1024 entries, with its first and last time |
| `Appending.AppendTo` | codec.go:156-172 | Buckets before raw entries, family by family, behind a version byte |
| `Appending.Append` | codec.go:64-93 | Every path of append (nothing to add, first write, fast path, decode and merge, each error), and that the mutual recursion with marshal ends |
| `Appending.AppendCases` | codec.go:64-93 | The fast path leaves the stored bytes in place and is taken for at least 1024 entries in order that are later than every stored segment; anything else that is not empty is merged |
| `Appending.Marshal` | codec.go:60-62 | An appendable state is encoded as it is, another one after a merge into an empty state |
| `Pendings.MergeAppendable` | series.go:50-77 | A merge is appendable whatever it was made of, which ends the recursion of append and marshal |
| `Pendings.Pending.Merge` | series.go:50-57 | The three families merge on their own, in place |
| `Pendings.Pending.Compact` | series.go:90-97 | All families are compacted with the span in whole seconds; no span, no change |
| `Pendings.Pending.Count` | series.go:65-70 | The number of raw entries and buckets of all families |
| `Pendings.IsAppendable` | series.go:72-77 | True exactly when samples and all buckets strictly increase and other raw times do not decrease |
| `Pendings.MinTime` | series.go:79-88 | The least of all entry times, or none |
| `AppendLaws.DecodeAppended` | codec.go:83-92 | Blocks put behind any series that scans decode to the two states concatenated |
| `AppendLaws.MarshalledBacked` | codec.go:156-172 | An encoded state has the layout: true bounds, times in order, no bucket out of place, everything readable |
| `FastPaths.FastPathMerges` | codec.go:83-92 | Putting a later delta behind gives what a merge may give if and only if no add and no sketch tag repeats in it |
| `FastPaths.FastAppendRefines` | codec.go:83-92 | Under that condition the bytes of the fast path decode to what any merge of both holds, up to the order of entries with the same time |
| `Repetition.CountedAgain` | codec.go:83-92 | Without it the fast path is wrong: behind a nonempty series with the layout, append accepts 1024 copies of one add that is later than all of it, the bytes decode to all of them, every merge holds the add once, and unless the add is 0 the totals differ modulo 2^64 |
| `FastPaths.AppendKeeps` | codec.go:64-93 | Appending to a series with the layout succeeds and gives one with the layout that holds both states, merged or put together |
| `FastPaths.MergeNormal` | series.go:50-57 | Whatever deltas are merged in, the result is normal: distinct adds and tags, ordered times, sketches that re-encode to themselves |
| `FastPaths.CompactKeepsNormal` | series.go:90-97 | Compaction keeps a state normal |
| `FastPaths.CanonicalReencodes` | sketch_state.go:136-154 | Stored sketch buckets decoded and encoded again come out the same bytes |
| `Keys.BinValueError` | sketch_state.go:345-347 | The value of a bin is within (gamma-1)/(gamma+1) of every magnitude in it, relative to the magnitude |
| `Keys.KeyBounds` | sketch_state.go:222-239 | The key of a positive number is the one k with gamma^(k-1) < x <= gamma^k |
| `Keys.GammaRatio` | sketch_state.go:19-24 | The ends of neighbouring bins are a factor (1 + 0.009999) / (1 - 0.009999) apart |
| `Histograms.TopIsTop` | sketch_state.go:252-264 | The survivors are as many as the cap allows and each above every evicted bin, by key and then negative before positive |
| `Histograms.LeastGivenUp` | sketch_state.go:252-264 | Of more than 1024 bins exactly 1024 stay, as they were, and the others count as zero; no evicted bin has a greater key than one that stays, and of two bins with one key the negative one goes first |
| `Histograms.TopOfTop` | sketch_state.go:252-264 | A bin that was evicted once never returns to the top |
| `Histograms.CollapseShape` | sketch_state.go:252-264 | Collapsing keeps every observation, leaves at most 1024 bins, none empty, and is settled after once |
| `Histograms.CollapseOfPlus` | sketch_state.go:252-264 | collapse(collapse(A) + B) = collapse(A + B), bin by bin and in the zero count |
| `Histograms.CollapseOfParts` | sketch_state.go:277-319 | Both parts may be collapsed early |
| `SketchValues.SketchValue.Collapse` | sketch_state.go:252-264 | The loop that deletes the lowest bin while there are too many ends in exactly the top 1024 |
| `SketchValues.MinKey` | sketch_state.go:266-275 | Finds the least key of a map, or that there is none |
| `SketchValues.SketchValue.AddExact` | sketch_state.go:207-214 | Keeps one more exact value and updates count, sum and extremes |
| `SketchValues.SketchValue.AddApprox` | sketch_state.go:216-239 | Bins one observation and evicts right after |
| `SketchValues.SketchValue.AddBin` | sketch_state.go:222-239 | Adds n observations of a value to its bin: zero, negative or positive |
| `SketchValues.SketchValue.Approximate` | sketch_state.go:241-250 | Bins all exact values, then evicts |
| `SketchValues.SketchValue.MergeBytes` | sketch_state.go:277-319 | All branches of merging bytes: undecodable, empty on either side, exact into exact, and binned |
| `SketchValues.SketchValue.EncodeApprox` | sketch_state.go:340-343 | The bytes of the approximated sketch |
| `Sketches.AddApproxRepresents` | sketch_state.go:216-239 | Evicting after every observation leaves the top bins of the full histogram of all observations |
| `Sketches.ApproximateRepresents` | sketch_state.go:241-250 | After approximating, the bins are the full histogram collapsed once, whatever came before |
| `Sketches.MergeRepresents` | sketch_state.go:277-319 | Merging two sketches is sketching the observations of both: count, sum, extremes and bins |
| `Sketches.CountedOnce` | sketch_state.go:193-319 | count = exact values + zero + all bins, in every sketch however it was built |
| `Sketches.SketchesAgree` | sketch_state.go:193-319 | Two sketches of the same multiset of observations are the same once approximated |
| `SketchBytes.PlansAgree` | sketch_state.go:277-319 | Mergeable summaries: any order, partition and nesting of exact adds, binned adds and byte merges ends in the same stored bins, and in the same bytes when addition is exact |
| `SketchBytes.ApproxRoundTrip` | sketch_state.go:372-436 | A stored approximate sketch decodes to itself, for keys over all of int64 |
| `SketchBytes.NextKeyOfWord` | sketch_state.go:383-398 | Modular key steps return the next key even across a distance of 2^63 and more |
| `SketchBytes.ExactRoundTrip` | sketch_state.go:367-370 | A stored exact sketch decodes to itself, bit for bit |
| `SketchBytes.DecodedShape` | sketch_state.go:404-436 | Any bytes that decode have at most 1024 bins, none empty; they account for their count exactly when they are not an empty claim: a first byte 0 before a count that is not 0 |
| `SketchBytes.BareHeaderDecodes` | sketch_state.go:404-436 | Such bytes exist: five bytes with kind 0 decode to a count of 1 that nothing backs |
| `SketchBytes.Storage` | sketch_state.go:340-343 | A sketch of fewer than 2^64 float observations can always be stored, and reads back |
| `SketchCodec.AppendSketchBins` | sketch_state.go:383-398 | Bins in key order: count, zigzag first key, key steps |
| `SketchCodec.AppendSketchExact` | sketch_state.go:367-370 | Header and chained values of an exact sketch |
| `SketchCodec.DecodeSketch` | sketch_state.go:404-436 | The decoder on any bytes: every error, the bare header, exact and approximate payloads |
| `SketchCodec.SketchBins` | sketch_state.go:504-535 | The loop over encoded bins fills a map or fails |
| `SketchQueries.ServeStored` | sketch_state.go:438-480 | Checks stored bytes without decoding them and serves the payload as it lies, or returns the error of the first check that fails, in the order of the program |
| `SketchQueries.ResultIsSketch` | sketch_state.go:438-480 | Counting bins while skipping over them accepts exactly the bytes whose listed bins are few enough and add up to the count, and serves the payload as it lies |
| `SketchAcceptance.ServedIsDecoded` | sketch_state.go:404-480 | On any bytes serving and decoding accept alike if and only if the bytes are not empty, are no header of kind 0, hold no more exact values than an int counts, and no key is listed twice; with a key listed twice, if and only if neither total fits the count, or a multiple of 2^64 is overwritten in a list of at most 1024 bins |
| `SketchAcceptance.RepeatedKey` | sketch_state.go:504-535 | They do differ: a key listed twice with counts of one is served under a count of two, where decoding fails, and decodes under a count of one, where serving fails |
| `Quantiles.ApproximateQuantile` | sketches.go:164-199 | The rank query on the encoded bins of any bytes, with its two readers, running counts and errors |
| `Quantiles.ApproximateAnswers` | sketches.go:164-199 | On a payload that parses, it finds the bin whose running count reaches the rank, from the negative end |
| `SketchQueries.Quantile` | sketches.go:106-132 | Any quantile: none outside 0..1 or without observations, the extremes at the ends, and otherwise the answer at the least rank that is not below q times the count |
| `SketchQueries.AnsweredWithin` | sketches.go:106-132 | No answer for an empty sketch or outside 0..1, the extremes at 0 and 1, and never an answer beyond the extremes |
| `SketchQueries.RankQuantile` | sketches.go:115-132 | From the rank on: the three encodings, not-a-number for payloads that do not parse, clamping |
| `SketchQueries.ExactQuantile` | sketches.go:134-140 | The value in the place of the rank, or none if there is no such place |
| `WireFormat.LittleFirst` | sketches.go:157-162 | Values encoded for reading take eight bytes each, the low byte first |
| `SketchQueries.ExactXorQuantile` | sketches.go:142-155 | Decodes, sorts and indexes; fails on a count or payload that does not fit |
| `QuantileError.AnswerAccurate` | sketches.go:164-199 | For every multiset of observations and rank, the bins answer within the relative bound of the true ranked observation if its bin survived, and 0 otherwise |
| `SketchQueries.StoredQuantileAccurate` | sketches.go:106-132 | The same through collapse, bytes, serving, query and clamping |
| `SketchAccuracy.SurvivesExactly` | sketch_state.go:252-264 | The bin of an observation survives the cap if and only if observations fall into fewer than 1024 bins above it |
| `SketchAccuracy.WithinExactly` | sketches.go:106-132 | The stored answer is within any bound from 0.009999 up to 1 of the true ranked observation if and only if that is zero, or fewer than 1024 bins lie above its bin, or all observations have one sign and the one nearest to zero is within the bound |
| `SketchAccuracy.OnePercentExactly` | sketches.go:106-132 | When zero lies in [min, max], the answer for a nonzero observation is within 1 % if and only if fewer than 1024 bins lie above, and 0 otherwise |
| `SketchAccuracy.FewBins` | sketches.go:106-132 | Observations in at most 1024 bins are answered within 1 % at every rank |
| `SketchAccuracy.QuantileWithin` | sketches.go:106-132 | The same condition for a quantile, whose ends are answered exactly |
| `SketchAccuracy.SmallestLost` | sketch_state.go:252-264 | The 1 % fail: 0 and 1025 powers of two, on float64 patterns however addition rounds; the second smallest is 0.5 and is answered with 0 |
| `Float64.Float64Ranged` | sketch_state.go:222-239 | Every nonzero finite float64 has a magnitude from 2^-1074 to 2^1024, which is what keeps bin keys in int64 |
| `SketchQueries.ExactAnswers` | sketches.go:134-140 | While observations are exact, every rank is answered exactly |
| `SketchQueries.SortedRank` | sketches.go:134-155 | Sorting puts the true rank-th smallest observation at its index |
| `SketchQueries.StoredReadsAgree` | sketch_state.go:438-480 | Serving a stored sketch and merging it into an empty one and encoding that give the same count, sum, extremes and quantiles |
| `SampleState.SampleData.Merge` | sample_state.go:62-83 | The in-place merge of points and buckets through maps |
| `SampleState.SampleData.Compact` | sample_state.go:128-172 | The keep-index loop moves young points down and folds old ones into buckets |
| `SampleState.MergeSampleBuckets` | sample_state.go:89-107 | Buckets of both sides by time, combined where both have one |
| `SampleState.ApplyKeepsNewest` | sample_state.go:62-87 | After any writes, each time holds one of them, and no other has a greater clock, or the same clock and a greater replica |
| `Answers.CombinedCame` | sample_state.go:109-126 | Two buckets of one time together hold count, sum, least, greatest, first and last of both lists of values, one list behind the other |
| `Answers.NothingCombined` | sample_state.go:109-115 | A bucket nothing was folded into changes nothing, on either side |
| `MergedBuckets.MergedCame` | sample_state.go:89-107 | Merged buckets are at the times of both sides, each with the aggregates of all rows folded into it on either side |
| `SampleState.MergeBatches` | sample_state.go:62-83 | Merging writes one at a time or in any batches ends in the same state |
| `SampleState.JoinAssociative` | sample_state.go:62-87 | Last-write-wins is associative |
| `SampleState.JoinIdempotent` | sample_state.go:62-87 | And idempotent |
| `SampleState.JoinCommutes` | sample_state.go:85-87 | And commutes if and only if a (clock, replica) tag determines the point at a time |
| `SampleState.MergeIsJoin` | sample_state.go:62-83 | Merging normal states is that join of their points |
| `SampleState.CompactTwice` | sample_state.go:128-172 | Compacting at c1 and then at c2 >= c1 is compacting at c2 |
| `SampleState.CompactIdempotent` | sample_state.go:128-172 | Compacting again at the same cutoff changes nothing |
| `SampleState.CompactLayered` | sample_state.go:128-172 | With nondecreasing cutoffs and one span every bucket stays before every raw point |
| `CounterState.CounterData.Merge` | counters_state.go:62-87 | The union of the adds, each once, in time order; same-time order is the map's |
| `CounterState.CounterData.Compact` | counters_state.go:105-131 | The keep-index loop, with bucket sums modulo 2^64 |
| `CounterState.MergesAgree` | counters_state.go:81-85 | A merge is determined up to the order of adds with the same time |
| `CounterState.MergeCommutes` | counters_state.go:62-103 | Merging in the other order gives the same adds and buckets |
| `CounterState.MergeAssociates` | counters_state.go:62-87 | Merging in either nesting gives the same adds and the same bucket sums modulo 2^64 |
| `CounterState.MergeIdempotent` | counters_state.go:62-87 | Merging the same raw adds again adds nothing |
| `CounterState.MergeConserves` | counters_state.go:62-103 | Merging disjoint adds counts both sides, modulo 2^64 |
| `CounterState.CompactConserves` | counters_state.go:105-131 | Compaction counts nothing twice and loses nothing |
| `CounterState.CompactTwice` | counters_state.go:105-131 | Two compactions with ordered cutoffs are the later one |
| `SketchState.SketchData.Merge` | sketch_state.go:105-134 | Observations by tag, the larger pattern staying; encoded buckets merged by time |
| `SketchState.SketchData.Compact` | sketch_state.go:156-191 | The keep-index loop, with buckets decoded into sketches and encoded again |
| `SketchMerges.JoinLaws` | sketch_state.go:105-134 | Per-tag maxima are commutative, associative and idempotent |
| `SketchMerges.MergeKeepsLargest` | sketch_state.go:105-134 | A merge holds every observation of either side once by time, clock and replica, with the largest pattern a side has for it, in time order, and nothing else |
| `MergedBuckets.MergedHeld` | sketch_state.go:136-154 | Merged sketch buckets are at the times of both sides, each a sketch of all rows folded into it on either side |
| `SketchMerges.MergeIsJoin` | sketch_state.go:105-134 | A merge holds the join of the observations of both sides |
| `SketchMerges.MergesAgree` | sketch_state.go:128-132 | A merge is determined up to the order of observations with the same time |
| `SketchMerges.MergeBatches` | sketch_state.go:105-134 | Batches do not matter |
| `SketchMerges.CompactTwice` | sketch_state.go:156-191 | Two compactions, with the sketches encoded and decoded in between, store byte for byte what the later one does |
| `Rows.CutTwice` | counters_state.go:105-131 | Cutting time-sorted rows at two cutoffs selects the same rows in the same order |
| `Rows.OldYoungElements` | counters_state.go:105-131 | Exactly the rows before the cutoff are folded, and exactly those at or after it stay |
| `Aggregates.Accumulator.Add` | agg.go:28-41 | One value more |
| `Aggregates.Accumulator.Merge` | agg.go:43-59 | One bucket more; an empty one changes nothing |
| `Aggregates.FoldedMeans` | agg.go:28-81 | The fold of any values is their number, sum, mean, first, last and extremes |
| `Answers.FoldMeets` | agg.go:61-81 | The reported aggregate is, for each of the seven, the one of the values behind it: a least or greatest member, the first, the last, their number, their sum or their mean |
| `Answers.FoldJoins` | agg.go:43-59 | Merging a bucket into the open fold puts the values behind the bucket behind those of the fold |
| `Runs.StreamingIsGrouping` | samples.go:108-191 | On keys that do not go back, the loop that closes a group when the key changes reports each key once, in order, with the fold of all its entries |
| `Streams.SkippingLosesNothing` | samples.go:61-63 | Skipping segments outside the window loses no entry of the window |
| `Streams.CursorsSelect` | samples.go:193-216 | On ordered entries the two cursors select exactly the window |
| `Interleavings.VisitedWindow` | samples.go:193-273 | What the cursors visit are the buckets and the rows from the first to the last second of the window, each in stored order and none twice |
| `Interleavings.StreamIsMemory` | samples.go:218-273 | On a series with the layout, the streamed order is the cursors' order if and only if it does not go back in time |
| `SampleReaders.SampleRange` | samples.go:108-191 | The streaming loop on any bytes: what it yields and its error; with span 0 it reads as without one |
| `SampleReaders.SampleValues` | samples.go:52-106 | The same without a span |
| `SampleMemory.RangeValues` | samples.go:218-273 | The two-cursor loop over decoded state, or with span 0 the one without a span |
| `SampleMemory.ReadValues` | samples.go:193-216 | The two-cursor loop that ends behind the window |
| `SampleMemory.SampleOrder` | samples.go:108-273 | Stored samples stream in the cursors' order exactly when their times do not decrease |
| `SampleMemory.SampleRangesAgree` | samples.go:108-273 | Then streaming, cursors and the plain selection, grouped and folded, are one and the same for every window and span |
| `SampleAnswers.SampleRangeAnswers` | samples.go:108-191 | What streaming reports on a series that flows: one pair for each output bucket with an entry of the window, in time order, with the aggregate (any of the seven) of the values in it; a stored bucket stands for the values that were folded into it |
| `SampleAnswers.MemoryRangeAnswers` | samples.go:218-273 | The cursors over decoded state report the same |
| `SampleAnswers.SampleValuesAnswers` | samples.go:52-106 | Without a span every entry of the window is shown: a point as it is, a stored bucket as the mean of the values that were folded into it |
| `SampleAnswers.MemoryValuesAnswers` | samples.go:193-216 | And so by the cursors |
| `CounterReaders.CounterValues` | counters.go:52-131 | The streaming loop that sums adds of one time modulo 2^64 |
| `CounterReaders.CounterRange` | counters.go:133-216 | The streaming loop by bucket, or with span 0 the one by time |
| `CounterReaders.ReadValues` | counters.go:218-264 | The two-cursor loop that sums by time |
| `CounterReaders.RangeValues` | counters.go:266-314 | The two-cursor loop by bucket, or with span 0 the one by time |
| `CounterReaders.CounterOrder` | counters.go:133-314 | Stored counters stream in the cursors' order exactly when their times do not decrease |
| `CounterReaders.CounterRangesAgree` | counters.go:52-314 | Then all four readers and the plain selection, grouped and summed, agree |
| `CounterAnswers.CounterValuesAnswers` | counters.go:52-131 | One pair for each time of the window with an add or a bucket, in order, with the float of the integer sum of them modulo 2^64 |
| `CounterAnswers.MemoryValuesAnswers` | counters.go:218-264 | The cursors over decoded state report the same |
| `CounterAnswers.AllCounted` | counters.go:52-131 | Over all times the sums behind the pairs add up to what the state has counted, modulo 2^64 |
| `CounterAnswers.CounterRangeAnswers` | counters.go:133-216 | One pair for each output bucket, with the aggregate of the adds and bucket sums in it |
| `CounterAnswers.MemoryRangeAnswers` | counters.go:266-314 | And so by the cursors |
| `SketchReaders.SketchRange` | sketches.go:201-228 | The choice of the read path, and on any bytes what the chosen path yields and its error |
| `SketchReaders.SketchRawRange` | sketches.go:230-326 | The streaming loop over raw observations on any bytes; with an error, it has yielded every bucket but the last one begun |
| `SketchReaders.SketchBucketValues` | sketches.go:328-374 | The loop that serves stored buckets one by one up to the first error of the scan, a segment or a sketch, and which one that is |
| `SketchReaders.SketchMixedRange` | sketches.go:376-446 | The loop that merges everything by bucket; with an error, which is the first one met, it yields nothing |
| `SketchPaths.RawPathAgrees` | sketches.go:230-326 | In a window without stored buckets the raw path yields what the mixed path would, and no error |
| `SketchPaths.StoredPathAgrees` | sketches.go:328-374 | In a window without raw observations the served buckets have the times, counts, sums, extremes and all quantiles of the mixed path |
| `SketchPaths.RangeIsMixed` | sketches.go:201-228 | Whichever path is chosen on a series with the layout, it yields what merging everything by bucket would: the same error, times, counts, sums, extremes and quantiles |
| `SketchAnswers.MixedAnswers` | sketches.go:376-446 | What a mixed read yields: one sketch for each output bucket with observations, in time order, that counts exactly the raw observations of the window and those folded into its stored buckets, has their extremes and sum, and answers every rank, exactly if nothing was folded and else within a bound if and only if the observations allow it |
| `SketchAnswers.RangeAnswers` | sketches.go:201-228 | And so whichever path is chosen |
| `AlignedFolds.CompactUnseen` | series.go:90-97 | For any family of buckets that absorb rows: folding old rows into buckets changes no fold over a window and span on boundaries of the compaction span |
| `AlignedReads.SamplesCompactUnseen` | sample_state.go:128-172 | Compaction changes no aggregate of any aligned read of samples |
| `AlignedCounters.CountersCompactUnseen` | counters_state.go:105-131 | Nor any aligned sum of counters |
| `AlignedSketches.SketchesCompactUnseen` | sketch_state.go:156-191 | Nor any aligned approximated sketch |
| `LayeredStates.GrowsLayered` | codec.go:64-93 | Appends that are not older than the last cutoff keep buckets before raw entries, in all families |
| `LayeredStates.CompactLayered` | series.go:90-97 | And so do compactions with nondecreasing cutoffs |
| `LayeredStates.SketchesFlow` | sketches.go:376-446 | The mixed read of such a series meets the stored buckets of the window and then its raw observations |
| `PunctualRuns.RunFlows` | db.go:91-161 | At every step of a run in which nothing is stored behind the last cutoff, the stored bytes stream in time order, so all readers agree |
| `PunctualRuns.RunSketchPaths` | sketches.go:201-228 | And at every step of it every sketch read yields what merging everything by bucket would |
| `PunctualRuns.PunctualIsRun` | db.go:91-161 | Such a run is a run of the database, so all that holds of runs holds of it |
| `PunctualRuns.CompactionUnseen` | compact.go:35-42 | And every compaction of such a run leaves all aligned reads of the stored bytes as they were: samples, counter sums, approximated sketches |
| `Buffers.Buffer.AddSample` | db.go:220-224 | One write in the buffer; all other keys untouched, nothing shared |
| `Buffers.Buffer.AddCounter` | db.go:226-230 | The same for an add |
| `Buffers.Buffer.AddSketch` | db.go:232-236 | The same for an observation |
| `Buffers.Buffer.Flush` | db.go:212-218 | Hands out everything and leaves an empty buffer |
| `Buffers.Buffer.Recycle` | db.go:261-266 | Takes a series back, emptied, without touching what is buffered |
| `Buffers.Buffer.Clone` | db.go:238-242 | A copy of what is buffered under a key, or nothing if the key is not buffered |
| `Stores.Load` | db.go:171-194 | The stored bytes, or the merge of store and buffer, with every error |
| `Stores.LoadIsLoads` | db.go:171-194 | What the method returns is a load of the run, so it shows what `LoadShowsLatest` says |
| `Stores.Compact` | compact.go:35-42 | Decode, compact, encode, with the error of undecodable bytes |
| `Stores.CompactIsStep` | compact.go:35-42 | What the method stores is a step of the run |
| `Stores.NoSpanKeeps` | compact.go:35-42 | Without a span what is stored decodes to the state that was there |
| `Database.NextKeeps` | db.go:91-161 | Every step, among them deltas that other replicas bring to the same store, keeps the layout of the stored bytes and conserves every count |
| `Database.RunConserves` | db.go:91-161 | Over any run, stored adds + bucket sums + deltas in flight + buffered adds are all adds modulo 2^64, and the stored bytes decode |
| `SketchRuns.RunObservations` | db.go:91-161 | Over any run every accepted observation is held exactly once: raw in the store, in flight or buffered, or folded into the one stored bucket whose sketch represents the list of its observations; no tag repeats, and the stored state is normal |
| `SketchRuns.BucketAnswers` | sketches.go:106-132 | The bytes of every such bucket answer a rank within a bound under exactly the condition of `WithinExactly` on the observations folded into it |
| `SketchRuns.RunFastAppends` | codec.go:83-92 | At every step of a run, what the fast path decodes to after appending a delta in flight is a merge, up to the order of entries with the same time |
| `LatestWrites.LoadShowsLatest` | db.go:118-194 | Over any run of several replicas on one store, with nothing in flight, a load shows at every sample time that was not compacted away exactly one value: the one written with the greatest clock and, on equal clocks, the greatest replica |
| `ReadRuns.RunSamples` | db.go:91-161 | Over any run every stored sample bucket holds the aggregates of values that were written |
| `ReadRuns.RunSampleReads` | samples.go:108-191 | At every step of a punctual run, every aggregate that is streamed is that of written values, the folded ones included |
| `ReadRuns.RunSampleValues` | samples.go:52-106 | And without a span every written value is shown, or the mean of those that were folded together |
| `ReadRuns.RunCounterReads` | counters.go:52-131 | At every step of a punctual run, each time shows the sum of its adds, and all of them add up to what is stored |
| `ReadRuns.RunSketchReads` | sketches.go:201-228 | At every step of any run, every sketch that is read answers for accepted observations, and every accepted one is behind exactly one place |
| `Database.AcceptedNumbers` | sketches.go:24-30 | An observation is accepted exactly when the exponent bits are not all ones, negative numbers like positive ones |
| `FloatLaws.LawsHold` | sketch_state.go:193-205 | Some arithmetic on patterns has every law of addition that a result here asks for |
| `FloatLaws.NumbersAdd` | sketch_state.go:193-205 | In it, patterns stand for numbers of both signs and add as those do while the sum fits |

## Left out

- Appending.AppendTo: asks that counts of sample buckets and of sketches stay below 2^64 and encoded sketches
  below 2^50 bytes (`Fits`, `Roomy`); the program's counts would wrap around there.
- Appending.Append: asks the same of the delta and of its merge with the stored state.
- Appending.Marshal: asks the same of the state and of its merge into an empty one.
- Stores.Load: asks the same of the merge of store and buffer.
- Stores.Compact: asks the same of the compacted state.
- SketchState.SketchData.Merge: asks that counts of merged sketches stay below 2^64 and their keys in int64, as
  counts and keys here are unbounded numbers; the order of same-time observations is that of a Go map and is
  left open.
- SketchState.SketchData.Compact: asks the same of the sketches that take old observations.
- Pendings.Pending.Merge: asks the same of its sketches.
- Pendings.Pending.Compact: asks the same of its sketches.
- SketchValues.SketchValue.EncodeApprox: asks the same of the sketch.
- SketchReaders.SketchMixedRange: asks the same of the sketches it merges.
- SketchReaders.SketchRange: asks the same, for the mixed path.
- SketchValues.SketchValue.AddExact: the model's count is unbounded; it is written modulo 2^64 only where bytes
  are, and so it is for `AddApprox` and `AddBin`.
- SketchQueries.Quantile: q times the count is not rounded, as floating point rounds it.
- CounterState.CounterData.Merge: the order of same-time adds is the order of a Go map and is left open.
- AlignedCounters.CountersCompactUnseen: asks that the sums do not wrap around, since the readers turn each sum
  into a float.
- FloatLaws.LawsHold: nothing is claimed of real float64 addition, which rounds; not-a-number and signed zeros
  are not modelled, and neither are the rounding of `math.Log` and `math.Pow` in bin keys and bin values.
- Appending.AppendRun: one generic loop stands for the six loops of block.go, which differ only in column and
  kind.
- Segment compression is the identity: the S2 library is not part of this model.
- Iterators that stop early: yielded entries are collected to the end.
- Columns of one family with different lengths (the shape error of the validity check) cannot be written down,
  since rows are records here.
- Failed flushes and reads while a flush is in flight.
- One series per run: `Database` follows a single key, `Buffers` covers many.
- Leases, storage adapters, the read cache, options, machine ids, timers and pools: I/O or plumbing.
- Replaying a delta across a compaction, which adds to buckets twice, and clocks that restart at 0.
