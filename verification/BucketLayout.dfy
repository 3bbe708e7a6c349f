/** The memory of a bucket while chunks are written behind one another into it. */
module BucketLayout {
  import opened Outcomes
  import opened WeightChunks

  lemma SliceOfPrefix(a: seq<Byte>, n: nat, from: nat, to: nat)
    requires from <= to <= n <= |a|
    ensures a[..n][from..to] == a[from..to]
  {
  }

  lemma HeldAfter(before: seq<Byte>, after: seq<Byte>, n: nat, c: Chunk)
    requires n <= |before| == |after| && after[..n] == before[..n]
    requires Held(before, c) && c.meta.offset.value + c.meta.chunkSize <= n
    ensures Held(after, c)
  {
    SliceOfPrefix(before, n, c.meta.offset.value, c.meta.offset.value + c.meta.chunkSize);
    SliceOfPrefix(after, n, c.meta.offset.value, c.meta.offset.value + c.meta.chunkSize);
  }

  lemma HoldsAppend(before: seq<Byte>, after: seq<Byte>, g: seq<Chunk>, c: Chunk)
    requires |after| == |before| && LaidOut(g) && Holds(before, g)
    requires Size(g) + c.meta.chunkSize <= |before|
    requires after[..Size(g)] == before[..Size(g)]
    requires after[Size(g)..Size(g) + c.meta.chunkSize] == c.data && c.IsView()
    ensures Holds(after, g + [Place(c, Size(g))])
  {
    forall k | 0 <= k < |g| ensures Held(after, g[k]) {
      assert Held(before, g[k]);
      SizeOfPrefix(g, k);
      HeldAfter(before, after, Size(g), g[k]);
    }
    assert Held(after, Place(c, Size(g)));
  }

  lemma {:induction false} SizeOfPrefix(g: seq<Chunk>, k: nat)
    requires k < |g|
    ensures Size(g[..k]) + g[k].meta.chunkSize <= Size(g)
    decreases |g|
  {
    if k < |g| - 1 {
      SizeOfPrefix(g[..|g| - 1], k);
      assert g[..|g| - 1][..k] == g[..k];
    }
  }

  lemma MetasAppend(g: seq<Chunk>, c: Chunk)
    ensures Metas(g + [c]) == Metas(g) + [c.meta]
  {
  }

  /** A bucket that repeats a name after some prefix of the stream still repeats it at the end. */
  lemma ClashStays(cs: seq<Chunk>, n: nat, bucketSize: nat)
    requires n <= |cs| && !DistinctNames(Pack(cs[..n], bucketSize).open)
    ensures !Packable(cs, bucketSize)
  {
    GroupsPrefix(cs, n, bucketSize);
    var open := Pack(cs[..n], bucketSize).open;
    var g := Groups(cs, bucketSize)[|Pack(cs[..n], bucketSize).closed|];
    var i, j :| 0 <= i < j < |open| && open[i].meta.name == open[j].meta.name;
    assert g[i] == open[i] && g[j] == open[j];
    assert g in Groups(cs, bucketSize);
  }

  /** The bucket being filled: metadata, write position and memory agree with the open group. */
  ghost predicate Filling(data: seq<Byte>, metas: seq<TensorMeta>, offset: nat, open: seq<Chunk>) {
    && metas == Metas(open) && offset == Size(open) <= |data|
    && LaidOut(open) && DistinctNames(open) && Holds(data, open)
  }

  lemma FillingNothing(data: seq<Byte>)
    ensures Filling(data, [], 0, [])
  {
  }

  lemma FillingAppend(before: seq<Byte>, after: seq<Byte>, metas: seq<TensorMeta>, offset: nat, c: Chunk, open: seq<Chunk>)
    requires Filling(before, metas, offset, open) && |before| == |after| && c.IsView()
    requires offset + c.meta.chunkSize <= |before| && after[..offset] == before[..offset]
    requires after[offset..offset + c.meta.chunkSize] == c.data
    requires forall k :: 0 <= k < |open| ==> open[k].meta.name != c.meta.name
    ensures Filling(after, metas + [c.meta.(offset := Some(offset))], offset + c.meta.chunkSize, open + [Place(c, offset)])
  {
    HoldsAppend(before, after, open, c);
    MetasAppend(open, Place(c, offset));
    SizeAppend(open, Place(c, offset));
    LaidOutAppend(open, c);
  }
}
