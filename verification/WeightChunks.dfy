/** The byte-level half of weight streaming: cutting weights into chunks, laying chunks out in
    buckets and gluing chunks back into weights (verl/checkpoint_engine/base.py and the packing
    rule shared by the NCCL and NIXL senders).  */
module WeightChunks {
  import opened Outcomes

  newtype Byte = x: int | 0 <= x < 256

  /** Shape and dtype enter the protocol only through the byte count `nbytes`. */
  datatype TensorMeta = TensorMeta(
    name: string, nbytes: nat, chunkOffset: nat, chunkSize: nat, offset: Option<nat>)

  datatype Chunk = Chunk(meta: TensorMeta, data: seq<Byte>) {
    /** The data of a chunk is a buffer view of the size its metadata states. */
    ghost predicate IsView() { |data| == meta.chunkSize }
  }

  datatype Weight = Weight(name: string, bytes: seq<Byte>)

  function Min(a: nat, b: nat): nat { if a < b then a else b }

  // ---------------------------------------------------------------- splitting

  /** The chunks of `w` from byte `from` on. */
  function ChunksFrom(w: Weight, bucketSize: nat, from: nat): seq<Chunk>
    requires 0 < bucketSize && from <= |w.bytes|
    decreases |w.bytes| - from
  {
    if from == |w.bytes| then []
    else
      var size := Min(bucketSize, |w.bytes| - from);
      [Chunk(TensorMeta(w.name, |w.bytes|, from, size, None), w.bytes[from..from + size])]
      + ChunksFrom(w, bucketSize, from + size)
  }

  function Split(weights: seq<Weight>, bucketSize: nat): seq<Chunk>
    requires 0 < bucketSize
  {
    if weights == [] then []
    else ChunksFrom(weights[0], bucketSize, 0) + Split(weights[1..], bucketSize)
  }

  lemma {:induction false} SplitAppend(weights: seq<Weight>, w: Weight, bucketSize: nat)
    requires 0 < bucketSize
    ensures Split(weights + [w], bucketSize) == Split(weights, bucketSize) + ChunksFrom(w, bucketSize, 0)
  {
    var all, last := weights + [w], ChunksFrom(w, bucketSize, 0);
    if weights == [] {
      assert all[1..] == [] && all[0] == w;
      assert last + [] == [] + last;
    } else {
      SplitAppend(weights[1..], w, bucketSize);
      assert all[1..] == weights[1..] + [w] && all[0] == weights[0];
      var first, rest := ChunksFrom(weights[0], bucketSize, 0), Split(weights[1..], bucketSize);
      assert first + (rest + last) == first + rest + last;
    }
  }

  method SplitWeightChunks(weights: seq<Weight>, bucketSize: nat) returns (chunks: seq<Chunk>)
    requires 0 < bucketSize
    ensures chunks == Split(weights, bucketSize)
  {
    chunks := [];
    for i := 0 to |weights|
      invariant chunks == Split(weights[..i], bucketSize)
    {
      var name, buffer := weights[i].name, weights[i].bytes;
      ghost var before := chunks;
      var chunkOffset := 0;
      while chunkOffset < |buffer|
        invariant chunkOffset <= |buffer|
        invariant chunks + ChunksFrom(weights[i], bucketSize, chunkOffset)
               == before + ChunksFrom(weights[i], bucketSize, 0)
      {
        var chunkSize := Min(bucketSize, |buffer| - chunkOffset);
        var meta := TensorMeta(name, |buffer|, chunkOffset, chunkSize, None);
        chunks := chunks + [Chunk(meta, buffer[chunkOffset..chunkOffset + chunkSize])];
        chunkOffset := chunkOffset + chunkSize;
      }
      SplitAppend(weights[..i], weights[i], bucketSize);
      assert weights[..i + 1] == weights[..i] + [weights[i]];
    }
    assert weights[..|weights|] == weights;
  }

  /** The bytes of a weight from `at` on, as many as a bucket holds or are left. */
  ghost predicate IsChunk(c: Chunk, w: Weight, bucketSize: nat, at: nat) {
    && at < |w.bytes| && c.meta == TensorMeta(w.name, |w.bytes|, at, |c.data|, None)
    && |c.data| == (if at + bucketSize <= |w.bytes| then bucketSize else |w.bytes| - at)
    && c.data == w.bytes[at..at + |c.data|]
  }

  /** Chunk number k of a weight starts k full buckets on, if there is anything left there. */
  lemma {:induction false} ChunkAt(w: Weight, bucketSize: nat, from: nat, k: nat, at: nat)
    requires 0 < bucketSize && from <= |w.bytes| && at == from + k * bucketSize
    ensures k < |ChunksFrom(w, bucketSize, from)| <==> at < |w.bytes|
    ensures k < |ChunksFrom(w, bucketSize, from)| ==> IsChunk(ChunksFrom(w, bucketSize, from)[k], w, bucketSize, at)
    decreases k
  {
    FirstChunk(w, bucketSize, from);
    hide ChunksFrom, IsChunk;
    if k > 0 {
      OneBucketMore(k, bucketSize);
      if from + bucketSize <= |w.bytes| {
        ChunkAt(w, bucketSize, from + bucketSize, k - 1, at);
      }
    }
  }

  lemma FirstChunk(w: Weight, bucketSize: nat, from: nat)
    requires 0 < bucketSize && from <= |w.bytes|
    ensures ChunksFrom(w, bucketSize, from) == [] <==> from == |w.bytes|
    ensures from < |w.bytes| ==> IsChunk(ChunksFrom(w, bucketSize, from)[0], w, bucketSize, from)
    ensures from + bucketSize <= |w.bytes| ==>
      && ChunksFrom(w, bucketSize, from)[1..] == ChunksFrom(w, bucketSize, from + bucketSize)
      && |ChunksFrom(w, bucketSize, from)| == 1 + |ChunksFrom(w, bucketSize, from + bucketSize)|
    ensures from < |w.bytes| < from + bucketSize ==> |ChunksFrom(w, bucketSize, from)| == 1
  {
    if from < |w.bytes| < from + bucketSize {
      assert ChunksFrom(w, bucketSize, |w.bytes|) == [];
    }
  }

  lemma OneBucketMore(k: nat, bucketSize: nat)
    requires k > 0
    ensures k * bucketSize == (k - 1) * bucketSize + bucketSize >= bucketSize
  {
  }

  // ---------------------------------------------------------------- packing

  /** Chunk with its place in the bucket filled in. */
  function Place(c: Chunk, offset: nat): Chunk {
    Chunk(c.meta.(offset := Some(offset)), c.data)
  }

  /** Chunk without its place. */
  function Strip(c: Chunk): Chunk {
    Chunk(c.meta.(offset := None), c.data)
  }

  function StripAll(cs: seq<Chunk>): seq<Chunk> {
    seq(|cs|, k requires 0 <= k < |cs| => Strip(cs[k]))
  }

  function Size(group: seq<Chunk>): nat {
    if group == [] then 0 else Size(group[..|group| - 1]) + group[|group| - 1].meta.chunkSize
  }

  /** Buckets already handed over, and the bucket being filled. */
  datatype Packing = Packing(closed: seq<seq<Chunk>>, open: seq<Chunk>)

  /** What one more chunk does: it goes behind the open bucket's contents, or, when it would
      overflow, closes that bucket and opens the next. */
  function PackStep(p: Packing, c: Chunk, bucketSize: nat): Packing {
    if Size(p.open) + c.meta.chunkSize > bucketSize
    then Packing(p.closed + [p.open], [Place(c, 0)])
    else Packing(p.closed, p.open + [Place(c, Size(p.open))])
  }

  function Pack(cs: seq<Chunk>, bucketSize: nat): Packing {
    if cs == [] then Packing([], [])
    else PackStep(Pack(cs[..|cs| - 1], bucketSize), cs[|cs| - 1], bucketSize)
  }

  /** The chunk groups of the buckets, in the order they are sent. */
  function Groups(cs: seq<Chunk>, bucketSize: nat): seq<seq<Chunk>> {
    var p := Pack(cs, bucketSize);
    p.closed + [p.open]
  }

  function Flatten(groups: seq<seq<Chunk>>): seq<Chunk> {
    if groups == [] then [] else Flatten(groups[..|groups| - 1]) + groups[|groups| - 1]
  }

  ghost predicate DistinctNames(group: seq<Chunk>) {
    forall i, j :: 0 <= i < j < |group| ==> group[i].meta.name != group[j].meta.name
  }

  /** No assert of the packing loop fires: every chunk fits a bucket, no bucket repeats a name. */
  ghost predicate Packable(cs: seq<Chunk>, bucketSize: nat) {
    && (forall c <- cs :: c.meta.chunkSize <= bucketSize)
    && (forall g <- Groups(cs, bucketSize) :: DistinctNames(g))
  }

  lemma PackableIff(cs: seq<Chunk>, bucketSize: nat)
    ensures var p := Pack(cs, bucketSize);
            Packable(cs, bucketSize) <==>
              && (forall k :: 0 <= k < |cs| ==> cs[k].meta.chunkSize <= bucketSize)
              && NoClash(p)
  {
    var p, gs := Pack(cs, bucketSize), Groups(cs, bucketSize);
    assert gs == p.closed + [p.open];
    if NoClash(p) {
      forall g | g in gs ensures DistinctNames(g) {
        var k :| 0 <= k < |gs| && gs[k] == g;
      }
    }
    if forall g <- gs :: DistinctNames(g) {
      forall k | 0 <= k < |p.closed| ensures DistinctNames(p.closed[k]) {
        assert gs[k] in gs;
      }
      assert gs[|p.closed|] in gs;
    }
  }

  /** `data` is a bucket's memory with every chunk of `group` at the place its metadata names. */
  ghost predicate Holds(data: seq<Byte>, group: seq<Chunk>) {
    forall k :: 0 <= k < |group| ==> Held(data, group[k])
  }

  ghost predicate Held(data: seq<Byte>, c: Chunk) {
    && c.meta.offset.Some?
    && c.meta.offset.value + c.meta.chunkSize <= |data|
    && data[c.meta.offset.value..c.meta.offset.value + c.meta.chunkSize] == c.data
  }

  function Metas(group: seq<Chunk>): seq<TensorMeta> {
    seq(|group|, k requires 0 <= k < |group| => group[k].meta)
  }

  // --- facts about packing

  lemma {:induction false} FlattenAppend(gs: seq<seq<Chunk>>, g: seq<Chunk>)
    ensures Flatten(gs + [g]) == Flatten(gs) + g
  {
    assert (gs + [g])[..|gs|] == gs;
  }

  lemma SizeAppend(g: seq<Chunk>, c: Chunk)
    ensures Size(g + [c]) == Size(g) + c.meta.chunkSize
  {
    assert (g + [c])[..|g|] == g;
  }

  lemma PackNext(cs: seq<Chunk>, i: nat, bucketSize: nat)
    requires i < |cs|
    ensures Pack(cs[..i + 1], bucketSize) == PackStep(Pack(cs[..i], bucketSize), cs[i], bucketSize)
  {
    assert cs[..i + 1][..i] == cs[..i];
  }

  lemma FlattenPackStep(p: Packing, c: Chunk, bucketSize: nat) returns (placed: Chunk)
    ensures Strip(placed) == Strip(c)
    ensures var q := PackStep(p, c, bucketSize); Flatten(q.closed) + q.open == Flatten(p.closed) + p.open + [placed]
  {
    if Size(p.open) + c.meta.chunkSize > bucketSize {
      FlattenAppend(p.closed, p.open);
      placed := Place(c, 0);
    } else {
      placed := Place(c, Size(p.open));
      assert Flatten(p.closed) + (p.open + [placed]) == Flatten(p.closed) + p.open + [placed];
    }
  }

  lemma StripLast(cs: seq<Chunk>, c: Chunk)
    ensures StripAll(cs + [c]) == StripAll(cs) + [Strip(c)]
  {
  }

  lemma PackLast(cs: seq<Chunk>, bucketSize: nat)
    requires cs != []
    ensures var n := |cs| - 1;
            cs == cs[..n] + [cs[n]] && Pack(cs, bucketSize) == PackStep(Pack(cs[..n], bucketSize), cs[n], bucketSize)
  {
  }

  lemma FlattenGroups(cs: seq<Chunk>, bucketSize: nat)
    ensures var p := Pack(cs, bucketSize); Flatten(Groups(cs, bucketSize)) == Flatten(p.closed) + p.open
  {
    var p := Pack(cs, bucketSize);
    FlattenAppend(p.closed, p.open);
  }

  /** Packing loses, adds and reorders nothing. */
  lemma {:induction false} GroupsKeepTheStream(cs: seq<Chunk>, bucketSize: nat)
    ensures StripAll(Flatten(Groups(cs, bucketSize))) == StripAll(cs)
  {
    FlattenGroups(cs, bucketSize);
    if cs != [] {
      hide Pack, PackStep, Flatten, Groups, StripAll, Strip;
      var n := |cs| - 1;
      PackLast(cs, bucketSize);
      FlattenGroups(cs[..n], bucketSize);
      GroupsKeepTheStream(cs[..n], bucketSize);
      var placed := FlattenPackStep(Pack(cs[..n], bucketSize), cs[n], bucketSize);
      StripLast(Flatten(Groups(cs[..n], bucketSize)), placed);
      StripLast(cs[..n], cs[n]);
    }
  }

  /** Places in a bucket: chunk after chunk, without gaps, inside the bucket. */
  ghost predicate LaidOut(g: seq<Chunk>) {
    forall k :: 0 <= k < |g| ==> g[k].meta.offset == Some(Size(g[..k]))
  }

  ghost predicate GoodGroup(g: seq<Chunk>, bucketSize: nat) {
    LaidOut(g) && Size(g) <= bucketSize
  }

  lemma {:induction false} LaidOutAppend(g: seq<Chunk>, c: Chunk)
    requires LaidOut(g)
    ensures LaidOut(g + [Place(c, Size(g))])
  {
    var h := g + [Place(c, Size(g))];
    forall k | 0 <= k < |h| ensures h[k].meta.offset == Some(Size(h[..k])) {
      if k < |g| {
        assert h[..k] == g[..k];
      } else {
        assert h[..k] == g;
      }
    }
  }

  ghost predicate GoodPacking(p: Packing, bucketSize: nat) {
    && (forall k :: 0 <= k < |p.closed| ==> p.closed[k] != [] && GoodGroup(p.closed[k], bucketSize))
    && GoodGroup(p.open, bucketSize)
  }

  lemma PackStepFits(p: Packing, c: Chunk, bucketSize: nat)
    requires GoodPacking(p, bucketSize) && c.meta.chunkSize <= bucketSize
    ensures GoodPacking(PackStep(p, c, bucketSize), bucketSize) && PackStep(p, c, bucketSize).open != []
  {
    if Size(p.open) + c.meta.chunkSize > bucketSize {
      LaidOutAppend([], c);
      SizeAppend([], Place(c, 0));
      assert [] + [Place(c, 0)] == [Place(c, 0)];
    } else {
      LaidOutAppend(p.open, c);
      SizeAppend(p.open, Place(c, Size(p.open)));
    }
  }

  /** No bucket overflows, places are contiguous, and every closed bucket carries something. */
  lemma {:induction false} GroupsFit(cs: seq<Chunk>, bucketSize: nat)
    requires forall k :: 0 <= k < |cs| ==> cs[k].meta.chunkSize <= bucketSize
    ensures GoodPacking(Pack(cs, bucketSize), bucketSize)
    ensures cs != [] ==> Pack(cs, bucketSize).open != []
  {
    if cs != [] {
      var init, c := cs[..|cs| - 1], cs[|cs| - 1];
      GroupsFit(init, bucketSize);
      PackStepFits(Pack(init, bucketSize), c, bucketSize);
    }
  }

  /** The bucket after closed bucket k. */
  function BucketAfter(p: Packing, k: nat): seq<Chunk>
    requires k < |p.closed|
  {
    if k + 1 < |p.closed| then p.closed[k + 1] else p.open
  }

  ghost predicate Overflows(group: seq<Chunk>, next: seq<Chunk>, bucketSize: nat) {
    next != [] && Size(group) + next[0].meta.chunkSize > bucketSize
  }

  /** A bucket is closed only when the next chunk would overflow it. */
  ghost predicate FullBuckets(p: Packing, bucketSize: nat) {
    forall k :: 0 <= k < |p.closed| ==> Overflows(p.closed[k], BucketAfter(p, k), bucketSize)
  }

  lemma FullBucketsStep(p: Packing, c: Chunk, bucketSize: nat)
    requires FullBuckets(p, bucketSize)
    ensures FullBuckets(PackStep(p, c, bucketSize), bucketSize)
  {
    hide Size;
    var q := PackStep(p, c, bucketSize);
    forall k | 0 <= k < |q.closed| ensures Overflows(q.closed[k], BucketAfter(q, k), bucketSize) {
      if k < |p.closed| {
        assert Overflows(p.closed[k], BucketAfter(p, k), bucketSize);
      }
    }
  }

  lemma {:induction false} GroupsAreFull(cs: seq<Chunk>, bucketSize: nat)
    ensures FullBuckets(Pack(cs, bucketSize), bucketSize)
  {
    hide Size, PackStep, FullBuckets;
    if cs != [] {
      GroupsAreFull(cs[..|cs| - 1], bucketSize);
      FullBucketsStep(Pack(cs[..|cs| - 1], bucketSize), cs[|cs| - 1], bucketSize);
    } else {
      NothingPacked(bucketSize);
    }
  }

  lemma NothingPacked(bucketSize: nat)
    ensures FullBuckets(Packing([], []), bucketSize)
  {
  }

  /** Packing only ever adds: the buckets closed after a prefix stay, the open one only grows. */
  lemma {:induction false} PackMonotone(cs: seq<Chunk>, n: nat, bucketSize: nat)
    requires n <= |cs|
    ensures var p, q := Pack(cs[..n], bucketSize), Pack(cs, bucketSize);
            && p.closed <= q.closed
            && (if |p.closed| == |q.closed| then p.open <= q.open else p.open <= q.closed[|p.closed|])
    decreases |cs|
  {
    if n == |cs| {
      assert cs[..n] == cs;
    } else {
      var init := cs[..|cs| - 1];
      PackMonotone(init, n, bucketSize);
      assert init[..n] == cs[..n];
    }
  }

  lemma GroupsPrefix(cs: seq<Chunk>, n: nat, bucketSize: nat)
    requires n <= |cs|
    ensures var p := Pack(cs[..n], bucketSize);
            && p.closed <= Groups(cs, bucketSize)
            && |p.closed| < |Groups(cs, bucketSize)|
            && p.open <= Groups(cs, bucketSize)[|p.closed|]
  {
    PackMonotone(cs, n, bucketSize);
  }

  // ---------------------------------------------------------------- merging

  /** The merger is between weights, or has the first bytes of one that spans several buckets. */
  datatype Merger = Idle | Gathering(name: string, nbytes: nat, bytes: seq<Byte>)

  function Prepend(ws: seq<Weight>, r: Result<seq<Weight>>): Result<seq<Weight>> {
    match r
    case Ok(rest) => Ok(ws + rest)
    case AssertionFailed => AssertionFailed
  }

  /** One chunk: the new state and what is yielded, or a failing assert. */
  function MergeStep(st: Merger, c: Chunk, bucketSize: nat): Result<(Merger, seq<Weight>)> {
    if c.meta.nbytes <= bucketSize then
      if st.Idle? && |c.data| == c.meta.nbytes
      then Ok((Idle, [Weight(c.meta.name, c.data)]))
      else AssertionFailed
    else if st.Idle? && c.meta.chunkOffset != 0 then AssertionFailed
    else
      var st1 := if st.Idle? then Gathering(c.meta.name, c.meta.nbytes, []) else st;
      if c.meta.name != st1.name || |st1.bytes| != c.meta.chunkOffset || c.meta.nbytes != st1.nbytes
         || c.meta.chunkOffset + c.meta.chunkSize > c.meta.nbytes || |c.data| != c.meta.chunkSize
      then AssertionFailed
      else
        var bytes := st1.bytes + c.data;
        if |bytes| == c.meta.nbytes then Ok((Idle, [Weight(st1.name, bytes)]))
        else Ok((Gathering(st1.name, st1.nbytes, bytes), []))
  }

  function Merge(st: Merger, cs: seq<Chunk>, bucketSize: nat): Result<seq<Weight>>
    decreases cs
  {
    if cs == [] then Ok([])
    else
      match MergeStep(st, cs[0], bucketSize)
      case AssertionFailed => AssertionFailed
      case Ok((st', out)) => Prepend(out, Merge(st', cs[1..], bucketSize))
  }

  /** The merging loop, writing into a weight-sized buffer in place. */
  method MergeWeightChunks(chunks: seq<Chunk>, bucketSize: nat) returns (r: Result<seq<Weight>>)
    ensures r == Merge(Idle, chunks, bucketSize)
  {
    var out: seq<Weight> := [];
    var mergeName: Option<string> := None;
    var mergeBuffer := new Byte[0];
    var mergeOffset := 0;
    ghost var st := Idle;
    PrependNothing(Merge(Idle, chunks, bucketSize));
    assert chunks[0..] == chunks;
    for i := 0 to |chunks|
      invariant fresh(mergeBuffer)
      invariant Merge(Idle, chunks, bucketSize) == Prepend(out, Merge(st, chunks[i..], bucketSize))
      invariant mergeName.None? <==> st.Idle?
      invariant st.Gathering? ==>
        && mergeName == Some(st.name) && mergeBuffer.Length == st.nbytes
        && mergeOffset == |st.bytes| <= st.nbytes && mergeBuffer[..mergeOffset] == st.bytes
    {
      var meta, chunk := chunks[i].meta, chunks[i].data;
      ghost var step := MergeStep(st, chunks[i], bucketSize);
      ghost var oldOut := out;
      assert chunks[i..][0] == chunks[i] && chunks[i..][1..] == chunks[i + 1..];
      if meta.nbytes <= bucketSize {
        if mergeName.Some? || |chunk| != meta.nbytes { return AssertionFailed; }
        out := out + [Weight(meta.name, chunk)];
      } else {
        if mergeName.None? {
          if meta.chunkOffset != 0 { return AssertionFailed; }
          mergeName := Some(meta.name);
          mergeBuffer := new Byte[meta.nbytes];
          mergeOffset := 0;
          st := Gathering(meta.name, meta.nbytes, []);
        }
        if meta.name != mergeName.value || mergeOffset != meta.chunkOffset
           || meta.nbytes != mergeBuffer.Length || meta.chunkOffset + meta.chunkSize > meta.nbytes
           || |chunk| != meta.chunkSize {
          return AssertionFailed;
        }
        forall k | 0 <= k < meta.chunkSize {
          mergeBuffer[meta.chunkOffset + k] := chunk[k];
        }
        mergeOffset := mergeOffset + meta.chunkSize;
        assert mergeBuffer[..mergeOffset] == st.bytes + chunk;
        st := Gathering(st.name, st.nbytes, st.bytes + chunk);
        if meta.chunkOffset + meta.chunkSize == meta.nbytes {
          assert mergeBuffer[..] == mergeBuffer[..mergeOffset];
          out := out + [Weight(mergeName.value, mergeBuffer[..])];
          mergeName, mergeOffset := None, 0;
          st := Idle;
        }
      }
      assert step.Ok? && step.value.0 == st && oldOut + step.value.1 == out;
      PrependTwice(oldOut, step.value.1, Merge(st, chunks[i + 1..], bucketSize));
    }
    r := Ok(out);
    assert chunks[|chunks|..] == [];
    assert out + [] == out;
  }

  lemma PrependNothing(r: Result<seq<Weight>>)
    ensures Prepend([], r) == r
  {
    if r.Ok? {
      assert [] + r.value == r.value;
    }
  }

  lemma PrependTwice(a: seq<Weight>, b: seq<Weight>, r: Result<seq<Weight>>)
    ensures Prepend(a, Prepend(b, r)) == Prepend(a + b, r)
  {
    if r.Ok? {
      assert a + (b + r.value) == a + b + r.value;
    }
  }

  // ---------------------------------------------------------------- the round trip

  /** A weight of no bytes produces no chunk, so it never arrives. */
  function NonEmpty(ws: seq<Weight>): seq<Weight> {
    if ws == [] then []
    else (if ws[0].bytes == [] then [] else [ws[0]]) + NonEmpty(ws[1..])
  }

  /** The merger after the first `from` bytes of a weight. */
  function MergerAt(w: Weight, from: nat): Merger
    requires from <= |w.bytes|
  {
    if from == 0 then Idle else Gathering(w.name, |w.bytes|, w.bytes[..from])
  }

  lemma MergeOneChunk(w: Weight, from: nat, bucketSize: nat)
    requires 0 < bucketSize && from < |w.bytes|
    requires |w.bytes| <= bucketSize ==> from == 0
    ensures var to := from + Min(bucketSize, |w.bytes| - from);
            MergeStep(MergerAt(w, from), ChunksFrom(w, bucketSize, from)[0], bucketSize)
            == Ok(if to == |w.bytes| then (Idle, [w]) else (MergerAt(w, to), []))
  {
    var to := from + Min(bucketSize, |w.bytes| - from);
    assert w.bytes[..from] + w.bytes[from..to] == w.bytes[..to];
    if to == |w.bytes| {
      assert w.bytes[..to] == w.bytes;
    }
    if from == 0 {
      assert [] + w.bytes[0..to] == w.bytes[..to];
    }
  }

  lemma {:induction false} MergeOneWeight(w: Weight, from: nat, rest: seq<Chunk>, bucketSize: nat)
    requires 0 < bucketSize && from < |w.bytes|
    requires |w.bytes| <= bucketSize ==> from == 0
    ensures Merge(MergerAt(w, from), ChunksFrom(w, bucketSize, from) + rest, bucketSize)
            == Prepend([w], Merge(Idle, rest, bucketSize))
    decreases |w.bytes| - from
  {
    var cs := ChunksFrom(w, bucketSize, from);
    var to := from + Min(bucketSize, |w.bytes| - from);
    var tail := ChunksFrom(w, bucketSize, to);
    MergeOneChunk(w, from, bucketSize);
    assert (cs + rest)[1..] == tail + rest;
    if to == |w.bytes| {
      assert tail + rest == rest;
    } else {
      MergeOneWeight(w, to, rest, bucketSize);
      PrependNothing(Prepend([w], Merge(Idle, rest, bucketSize)));
    }
  }

  /** Merging undoes splitting, for every weight list and every bucket size. */
  lemma {:induction false} MergeUndoesSplit(ws: seq<Weight>, bucketSize: nat)
    requires 0 < bucketSize
    ensures Merge(Idle, Split(ws, bucketSize), bucketSize) == Ok(NonEmpty(ws))
  {
    if ws == [] {
    } else {
      MergeUndoesSplit(ws[1..], bucketSize);
      if ws[0].bytes == [] {
        assert [] + Split(ws[1..], bucketSize) == Split(ws[1..], bucketSize);
        assert [] + NonEmpty(ws[1..]) == NonEmpty(ws[1..]);
      } else {
        MergeOneWeight(ws[0], 0, Split(ws[1..], bucketSize), bucketSize);
      }
    }
  }

  /** The merger never looks at bucket places. */
  lemma {:induction false} MergeIgnoresPlaces(st: Merger, cs: seq<Chunk>, bucketSize: nat)
    ensures Merge(st, StripAll(cs), bucketSize) == Merge(st, cs, bucketSize)
    decreases cs
  {
    if cs == [] {
    } else {
      var step := MergeStep(st, cs[0], bucketSize);
      assert StripAll(cs)[1..] == StripAll(cs[1..]);
      assert MergeStep(st, Strip(cs[0]), bucketSize) == step;
      if step.Ok? {
        MergeIgnoresPlaces(step.value.0, cs[1..], bucketSize);
      }
    }
  }

  /** Split, pack, flatten the buckets in order, merge: the original weights that have bytes. */
  lemma {:induction false} BucketRoundTrip(ws: seq<Weight>, bucketSize: nat)
    requires 0 < bucketSize
    ensures Merge(Idle, Flatten(Groups(Split(ws, bucketSize), bucketSize)), bucketSize) == Ok(NonEmpty(ws))
  {
    var cs := Split(ws, bucketSize);
    var sent := Flatten(Groups(cs, bucketSize));
    MergeUndoesSplit(ws, bucketSize);
    GroupsKeepTheStream(cs, bucketSize);
    MergeIgnoresPlaces(Idle, sent, bucketSize);
    MergeIgnoresPlaces(Idle, cs, bucketSize);
  }

  /** Nothing is lost exactly when no weight is empty. */
  lemma {:induction false} NonEmptyIsIdentity(ws: seq<Weight>)
    ensures NonEmpty(ws) == ws <==> forall w <- ws :: w.bytes != []
    ensures |NonEmpty(ws)| <= |ws|
  {
    if ws == [] {
    } else {
      NonEmptyIsIdentity(ws[1..]);
      assert ws == [ws[0]] + ws[1..];
      if ws[0].bytes != [] {
        assert NonEmpty(ws)[1..] == NonEmpty(ws[1..]);
      } else {
        assert NonEmpty(ws) == NonEmpty(ws[1..]);
        assert |NonEmpty(ws)| < |ws|;
      }
    }
  }

  // ---------------------------------------------------------------- distinct names never clash

  ghost predicate DistinctWeightNames(ws: seq<Weight>) {
    forall i, j :: 0 <= i < j < |ws| ==> ws[i].name != ws[j].name
  }

  /** Chunks are of 1 to `bucketSize` bytes, and only full ones are followed by one of their name. */
  ghost predicate FullBeforeRepeat(cs: seq<Chunk>, bucketSize: nat) {
    && (forall i :: 0 <= i < |cs| ==> 1 <= cs[i].meta.chunkSize <= bucketSize)
    && (forall i, j :: 0 <= i < j < |cs| && cs[i].meta.name == cs[j].meta.name ==> cs[i].meta.chunkSize == bucketSize)
  }

  lemma {:induction false} ChunksFromShape(w: Weight, bucketSize: nat, from: nat)
    requires 0 < bucketSize && from <= |w.bytes|
    ensures FullBeforeRepeat(ChunksFrom(w, bucketSize, from), bucketSize)
    ensures forall c <- ChunksFrom(w, bucketSize, from) :: c.meta.name == w.name && c.IsView()
    decreases |w.bytes| - from
  {
    if from < |w.bytes| {
      ChunksFromShape(w, bucketSize, from + Min(bucketSize, |w.bytes| - from));
    }
  }

  lemma FullBeforeRepeatJoin(a: seq<Chunk>, b: seq<Chunk>, bucketSize: nat)
    requires FullBeforeRepeat(a, bucketSize) && FullBeforeRepeat(b, bucketSize)
    requires forall i, j :: 0 <= i < |a| && 0 <= j < |b| ==> a[i].meta.name != b[j].meta.name
    ensures FullBeforeRepeat(a + b, bucketSize)
  {
  }

  lemma {:induction false} SplitNames(ws: seq<Weight>, bucketSize: nat, c: Chunk)
    requires 0 < bucketSize && c in Split(ws, bucketSize)
    ensures exists i :: 0 <= i < |ws| && ws[i].name == c.meta.name
  {
    if c in ChunksFrom(ws[0], bucketSize, 0) {
      ChunksFromShape(ws[0], bucketSize, 0);
    } else {
      SplitNames(ws[1..], bucketSize, c);
      var i :| 0 <= i < |ws[1..]| && ws[1..][i].name == c.meta.name;
      assert ws[i + 1].name == c.meta.name;
    }
  }

  lemma {:induction false} SplitShape(ws: seq<Weight>, bucketSize: nat)
    requires 0 < bucketSize && DistinctWeightNames(ws)
    ensures FullBeforeRepeat(Split(ws, bucketSize), bucketSize)
  {
    if ws != [] {
      var first, rest := ChunksFrom(ws[0], bucketSize, 0), Split(ws[1..], bucketSize);
      ChunksFromShape(ws[0], bucketSize, 0);
      SplitShape(ws[1..], bucketSize);
      forall x, y | 0 <= x < |first| && 0 <= y < |rest| ensures first[x].meta.name != rest[y].meta.name {
        SplitNames(ws[1..], bucketSize, rest[y]);
        var i :| 0 <= i < |ws[1..]| && ws[1..][i].name == rest[y].meta.name;
        assert ws[1..][i] == ws[i + 1];
      }
      FullBeforeRepeatJoin(first, rest, bucketSize);
    }
  }

  /** Every chunk fits an empty bucket and carries something, whatever the names. */
  lemma {:induction false} SplitSizes(ws: seq<Weight>, bucketSize: nat)
    requires 0 < bucketSize
    ensures forall k :: 0 <= k < |Split(ws, bucketSize)| ==>
              Split(ws, bucketSize)[k].IsView() && 1 <= Split(ws, bucketSize)[k].meta.chunkSize <= bucketSize
  {
    if ws != [] {
      ChunksFromShape(ws[0], bucketSize, 0);
      SplitSizes(ws[1..], bucketSize);
    }
  }

  lemma {:induction false} SizeAtLeast(g: seq<Chunk>, k: nat)
    requires k < |g|
    ensures g[k].meta.chunkSize <= Size(g)
  {
    if k < |g| - 1 {
      SizeAtLeast(g[..|g| - 1], k);
    }
  }

  /** The open bucket is the end of the stream so far. */
  ghost predicate OpenIsSuffix(cs: seq<Chunk>, open: seq<Chunk>) {
    && |open| <= |cs|
    && forall k :: 0 <= k < |open| ==> Strip(open[k]) == Strip(cs[|cs| - |open| + k])
  }

  ghost predicate NoClash(p: Packing) {
    && (forall k :: 0 <= k < |p.closed| ==> DistinctNames(p.closed[k]))
    && DistinctNames(p.open)
  }

  /** A repeated name is that of a full chunk, which leaves no room: the repeat opens a new bucket. */
  lemma NoClashStep(cs: seq<Chunk>, p: Packing, c: Chunk, bucketSize: nat)
    requires FullBeforeRepeat(cs + [c], bucketSize) && NoClash(p) && OpenIsSuffix(cs, p.open)
    ensures NoClash(PackStep(p, c, bucketSize)) && OpenIsSuffix(cs + [c], PackStep(p, c, bucketSize).open)
  {
    var all := cs + [c];
    forall k | 0 <= k < |p.open| && p.open[k].meta.name == c.meta.name
      ensures Size(p.open) + c.meta.chunkSize > bucketSize
    {
      var at := |cs| - |p.open| + k;
      assert Strip(p.open[k]) == Strip(cs[at]) && all[at] == cs[at] && all[|cs|] == c;
      SizeAtLeast(p.open, k);
    }
    var q := PackStep(p, c, bucketSize);
    forall k | 0 <= k < |q.open| ensures Strip(q.open[k]) == Strip(all[|all| - |q.open| + k]) {
      if k < |q.open| - 1 {
        assert Strip(p.open[k]) == Strip(cs[|cs| - |p.open| + k]);
      }
    }
  }

  lemma {:induction false} NoNameClash(cs: seq<Chunk>, bucketSize: nat)
    requires FullBeforeRepeat(cs, bucketSize)
    ensures NoClash(Pack(cs, bucketSize))
    ensures OpenIsSuffix(cs, Pack(cs, bucketSize).open)
  {
    if cs != [] {
      var init, c := cs[..|cs| - 1], cs[|cs| - 1];
      NoNameClash(init, bucketSize);
      assert cs == init + [c];
      NoClashStep(init, Pack(init, bucketSize), c, bucketSize);
    }
  }

  /** With distinct weight names, whatever the sizes, no assert of the packing loop fires. */
  lemma DistinctNamesPack(ws: seq<Weight>, bucketSize: nat)
    requires 0 < bucketSize && DistinctWeightNames(ws)
    ensures Packable(Split(ws, bucketSize), bucketSize)
  {
    SplitShape(ws, bucketSize);
    NoNameClash(Split(ws, bucketSize), bucketSize);
    PackableIff(Split(ws, bucketSize), bucketSize);
  }
}
