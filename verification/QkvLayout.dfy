/** The fused query-key-value layout: fusing per group (scripts/converter_hf_to_mcore.py), splitting it
    again (verl/model_merger/megatron_model_merger.py) and merging tensor-parallel shards of it
    (scripts/legacy_model_merger.py). Rows are whatever one index of dimension 0 selects. */
module QkvLayout {
  import opened Outcomes
  import opened Arithmetic

  datatype Qkv<R> = Qkv(q: seq<R>, k: seq<R>, v: seq<R>)

  /** n groups of w rows. */
  function Rows(n: nat, w: nat): nat { n * w }

  lemma OneMore(n: nat, w: nat)
    requires n > 0
    ensures Rows(n, w) == Rows(n - 1, w) + w
  {
  }

  ghost predicate Sized<R>(x: Qkv<R>, qRows: nat, d: nat, groups: nat) {
    |x.q| == Rows(groups, qRows) && |x.k| == |x.v| == Rows(groups, d)
  }

  /** All groups but the last. */
  function Less<R>(x: Qkv<R>, qRows: nat, d: nat, groups: nat): Qkv<R>
    requires groups > 0 && Sized(x, qRows, d, groups)
    ensures Sized(Less(x, qRows, d, groups), qRows, d, groups - 1)
  {
    OneMore(groups, qRows);
    OneMore(groups, d);
    Qkv(x.q[..Rows(groups - 1, qRows)], x.k[..Rows(groups - 1, d)], x.v[..Rows(groups - 1, d)])
  }

  /** The last group. */
  function LastGroup<R>(x: Qkv<R>, qRows: nat, d: nat, groups: nat): (r: Qkv<R>)
    requires groups > 0 && Sized(x, qRows, d, groups)
    ensures |r.q| == qRows && |r.k| == |r.v| == d && Append(Less(x, qRows, d, groups), r) == x
  {
    OneMore(groups, qRows);
    OneMore(groups, d);
    Qkv(x.q[Rows(groups - 1, qRows)..], x.k[Rows(groups - 1, d)..], x.v[Rows(groups - 1, d)..])
  }

  function Append<R>(x: Qkv<R>, y: Qkv<R>): Qkv<R> { Qkv(x.q + y.q, x.k + y.k, x.v + y.v) }

  /** Group by group: qRows rows of q, d rows of k, d rows of v. */
  function Fuse<R>(x: Qkv<R>, qRows: nat, d: nat, groups: nat): (t: seq<R>)
    requires Sized(x, qRows, d, groups)
    ensures |t| == Rows(groups, qRows + 2 * d)
    decreases groups
  {
    if groups == 0 then []
    else
      var last := LastGroup(x, qRows, d, groups);
      OneMore(groups, qRows + 2 * d);
      Fuse(Less(x, qRows, d, groups), qRows, d, groups - 1) + (last.q + last.k + last.v)
  }

  function SplitGroup<R>(t: seq<R>, qRows: nat, d: nat): Qkv<R>
    requires |t| == qRows + 2 * d
  {
    Qkv(t[..qRows], t[qRows..qRows + d], t[qRows + d..])
  }

  /** The q, k and v rows of a fused tensor. */
  function Unfuse<R>(t: seq<R>, qRows: nat, d: nat, groups: nat): (x: Qkv<R>)
    requires |t| == Rows(groups, qRows + 2 * d)
    ensures Sized(x, qRows, d, groups)
    decreases groups
  {
    if groups == 0 then Qkv([], [], [])
    else
      var a := Rows(groups - 1, qRows + 2 * d);
      OneMore(groups, qRows + 2 * d);
      OneMore(groups, qRows);
      OneMore(groups, d);
      Append(Unfuse(t[..a], qRows, d, groups - 1), SplitGroup(t[a..], qRows, d))
  }

  /** Splitting undoes fusing. */
  lemma {:induction false} UnfuseFuse<R>(x: Qkv<R>, qRows: nat, d: nat, groups: nat)
    requires Sized(x, qRows, d, groups)
    ensures Unfuse(Fuse(x, qRows, d, groups), qRows, d, groups) == x
    decreases groups
  {
    hide Rows;
    if groups > 0 {
      var less, last := Less(x, qRows, d, groups), LastGroup(x, qRows, d, groups);
      UnfuseFuse(less, qRows, d, groups - 1);
      OneMore(groups, qRows + 2 * d);
      var t, a := Fuse(x, qRows, d, groups), Rows(groups - 1, qRows + 2 * d);
      assert t[..a] == Fuse(less, qRows, d, groups - 1) && t[a..] == last.q + last.k + last.v;
      assert SplitGroup(t[a..], qRows, d) == last;
    } else {
      EmptyQkv(x, qRows, d);
    }
  }

  lemma EmptyQkv<R>(x: Qkv<R>, qRows: nat, d: nat)
    requires Sized(x, qRows, d, 0)
    ensures x == Qkv([], [], [])
  {
  }

  lemma AppendSplits<R>(x: Qkv<R>, y: Qkv<R>, qRows: nat, d: nat, groups: nat)
    requires groups > 0 && Sized(x, qRows, d, groups - 1) && |y.q| == qRows && |y.k| == |y.v| == d
    ensures Sized(Append(x, y), qRows, d, groups)
    ensures Less(Append(x, y), qRows, d, groups) == x && LastGroup(Append(x, y), qRows, d, groups) == y
  {
    OneMore(groups, qRows);
    OneMore(groups, d);
    hide Rows;
    assert (x.q + y.q)[..|x.q|] == x.q && (x.k + y.k)[..|x.k|] == x.k && (x.v + y.v)[..|x.v|] == x.v;
    assert (x.q + y.q)[|x.q|..] == y.q && (x.k + y.k)[|x.k|..] == y.k && (x.v + y.v)[|x.v|..] == y.v;
  }

  lemma FuseStep<R>(x: Qkv<R>, y: Qkv<R>, qRows: nat, d: nat, groups: nat)
    requires groups > 0 && Sized(x, qRows, d, groups - 1) && |y.q| == qRows && |y.k| == |y.v| == d
    ensures Sized(Append(x, y), qRows, d, groups)
    ensures Fuse(Append(x, y), qRows, d, groups) == Fuse(x, qRows, d, groups - 1) + (y.q + y.k + y.v)
  {
    hide Rows, Less, LastGroup, Sized;
    AppendSplits(x, y, qRows, d, groups);
  }

  lemma SplitGroupRows<R>(t: seq<R>, qRows: nat, d: nat)
    requires |t| == qRows + 2 * d
    ensures var x := SplitGroup(t, qRows, d);
            |x.q| == qRows && |x.k| == |x.v| == d && x.q + x.k + x.v == t
  {
  }

  lemma NothingFused<R>(t: seq<R>, qRows: nat, d: nat)
    requires |t| == Rows(0, qRows + 2 * d)
    ensures Fuse(Unfuse(t, qRows, d, 0), qRows, d, 0) == t
  {
  }

  /** Fusing undoes splitting. */
  lemma {:induction false} FuseUnfuse<R>(t: seq<R>, qRows: nat, d: nat, groups: nat)
    requires |t| == Rows(groups, qRows + 2 * d)
    ensures Fuse(Unfuse(t, qRows, d, groups), qRows, d, groups) == t
    decreases groups
  {
    hide Rows, Less, LastGroup, Sized, Unfuse, Fuse, SplitGroup, Append;
    if groups == 0 {
      NothingFused(t, qRows, d);
    } else {
      var rest, last := UnfuseStep(t, qRows, d, groups);
      FuseUnfuse(rest, qRows, d, groups - 1);
      SplitGroupRows(last, qRows, d);
      FuseStep(Unfuse(rest, qRows, d, groups - 1), SplitGroup(last, qRows, d), qRows, d, groups);
    }
  }

  // ---------------------------------------------------------------- row by row

  /** The rows of t from `at` on are the q rows of x from a on, then its k and then its v rows from b on. */
  ghost predicate RowsAt<R>(x: Qkv<R>, a: nat, b: nat, t: seq<R>, at: nat, qRows: nat, d: nat) {
    && at + qRows + 2 * d <= |t| && a + qRows <= |x.q| && b + d <= |x.k| && |x.k| == |x.v|
    && x.q[a..a + qRows] == t[at..at + qRows]
    && x.k[b..b + d] == t[at + qRows..at + qRows + d]
    && x.v[b..b + d] == t[at + qRows + d..at + qRows + 2 * d]
  }

  /** Group i of x is what group g of the fused rows t holds. */
  ghost predicate GroupAt<R>(x: Qkv<R>, i: nat, t: seq<R>, g: nat, qRows: nat, d: nat) {
    RowsAt(x, i * qRows, i * d, t, g * (qRows + 2 * d), qRows, d)
  }

  lemma RowsAtAppend<R>(x: Qkv<R>, y: Qkv<R>, a: nat, b: nat, t: seq<R>, last: seq<R>, at: nat, qRows: nat, d: nat)
    requires RowsAt(x, a, b, t, at, qRows, d) && |y.k| == |y.v|
    ensures RowsAt(Append(x, y), a, b, t + last, at, qRows, d)
  {
    var z := Append(x, y);
    assert z.q[a..a + qRows] == x.q[a..a + qRows];
    assert z.k[b..b + d] == x.k[b..b + d];
    assert z.v[b..b + d] == x.v[b..b + d];
    assert (t + last)[at..at + qRows] == t[at..at + qRows];
    assert (t + last)[at + qRows..at + qRows + d] == t[at + qRows..at + qRows + d];
    assert (t + last)[at + qRows + d..at + qRows + 2 * d] == t[at + qRows + d..at + qRows + 2 * d];
  }

  lemma LastRowsAt<R>(x: Qkv<R>, t: seq<R>, last: seq<R>, qRows: nat, d: nat)
    requires |x.k| == |x.v| && |last| == qRows + 2 * d
    ensures RowsAt(Append(x, SplitGroup(last, qRows, d)), |x.q|, |x.k|, t + last, |t|, qRows, d)
  {
    var y := SplitGroup(last, qRows, d);
    SplitGroupRows(last, qRows, d);
    TailOf(t, last, 0, qRows);
    TailOf(t, last, qRows, qRows + d);
    TailOf(t, last, qRows + d, qRows + 2 * d);
    TailOf(x.q, y.q, 0, qRows);
    TailOf(x.k, y.k, 0, d);
    TailOf(x.v, y.v, 0, d);
  }

  lemma TailOf<R>(a: seq<R>, b: seq<R>, from: nat, to: nat)
    requires from <= to <= |b|
    ensures (a + b)[|a| + from..|a| + to] == b[from..to]
    ensures from == 0 && to == |b| ==> b[from..to] == b
  {
  }

  lemma LastGroupAt<R>(x: Qkv<R>, g: nat, t: seq<R>, last: seq<R>, qRows: nat, d: nat)
    requires |t| == Rows(g, qRows + 2 * d) && Sized(x, qRows, d, g) && |last| == qRows + 2 * d
    ensures GroupAt(Append(x, SplitGroup(last, qRows, d)), g, t + last, g, qRows, d)
  {
    LastRowsAt(x, t, last, qRows, d);
    hide RowsAt, SplitGroup, Append;
  }

  lemma EarlierGroupAt<R>(x: Qkv<R>, y: Qkv<R>, t: seq<R>, last: seq<R>, g: nat, qRows: nat, d: nat)
    requires GroupAt(x, g, t, g, qRows, d) && |y.k| == |y.v|
    ensures GroupAt(Append(x, y), g, t + last, g, qRows, d)
  {
    hide RowsAt, Append;
    RowsAtAppend(x, y, g * qRows, g * d, t, last, g * (qRows + 2 * d), qRows, d);
  }

  /** Splitting takes the rows of every group apart, in place. */
  lemma {:induction false} UnfuseAt<R>(t: seq<R>, qRows: nat, d: nat, groups: nat, g: nat)
    requires |t| == Rows(groups, qRows + 2 * d) && g < groups
    ensures GroupAt(Unfuse(t, qRows, d, groups), g, t, g, qRows, d)
    decreases groups
  {
    hide Rows, Unfuse, GroupAt, SplitGroup, Append;
    var rest, last := UnfuseStep(t, qRows, d, groups);
    SplitGroupRows(last, qRows, d);
    if g == groups - 1 {
      LastGroupAt(Unfuse(rest, qRows, d, groups - 1), g, rest, last, qRows, d);
    } else {
      UnfuseAt(rest, qRows, d, groups - 1, g);
      EarlierGroupAt(Unfuse(rest, qRows, d, groups - 1), SplitGroup(last, qRows, d), rest, last, g, qRows, d);
    }
  }

  /** Fusing puts the rows of every group there. */
  lemma FuseAt<R>(x: Qkv<R>, qRows: nat, d: nat, groups: nat, g: nat)
    requires Sized(x, qRows, d, groups) && g < groups
    ensures GroupAt(x, g, Fuse(x, qRows, d, groups), g, qRows, d)
  {
    hide Rows, Unfuse, Fuse, GroupAt;
    UnfuseFuse(x, qRows, d, groups);
    UnfuseAt(Fuse(x, qRows, d, groups), qRows, d, groups, g);
  }

  // ---------------------------------------------------------------- chunks

  /** Pieces of the given size, the last one shorter if need be. */
  function Pieces<R>(t: seq<R>, size: nat): (ps: seq<seq<R>>)
    requires size > 0 || t == []
    ensures |ps| > 0
    decreases |t|
  {
    if |t| <= size then [t] else [t[..size]] + Pieces(t[size..], size)
  }

  /** `tensor.chunk(parts)`. */
  function Chunk<R>(t: seq<R>, parts: nat): seq<seq<R>>
    requires parts > 0
  {
    if t == [] then [t] else RoundUp(|t|, parts); Pieces(t, CeilDiv(|t|, parts))
  }

  ghost predicate AllOf<R>(ps: seq<seq<R>>, size: nat) { forall i :: 0 <= i < |ps| ==> |ps[i]| == size }

  function UnfusePieces<R>(ps: seq<seq<R>>, qRows: nat, d: nat): Qkv<R>
    requires AllOf(ps, qRows + 2 * d)
  {
    if ps == [] then Qkv([], [], [])
    else Append(SplitGroup(ps[0], qRows, d), UnfusePieces(ps[1..], qRows, d))
  }

  lemma UnfuseStep<R>(t: seq<R>, qRows: nat, d: nat, groups: nat) returns (rest: seq<R>, last: seq<R>)
    requires groups > 0 && |t| == Rows(groups, qRows + 2 * d)
    ensures t == rest + last && |rest| == Rows(groups - 1, qRows + 2 * d) && |last| == qRows + 2 * d
    ensures Unfuse(t, qRows, d, groups) == Append(Unfuse(rest, qRows, d, groups - 1), SplitGroup(last, qRows, d))
  {
    OneMore(groups, qRows + 2 * d);
    rest, last := t[..Rows(groups - 1, qRows + 2 * d)], t[Rows(groups - 1, qRows + 2 * d)..];
  }

  lemma UnfuseAdd<R>(t: seq<R>, last: seq<R>, qRows: nat, d: nat, groups: nat)
    requires |t| == Rows(groups, qRows + 2 * d) && |last| == qRows + 2 * d
    ensures |t + last| == Rows(groups + 1, qRows + 2 * d)
    ensures Unfuse(t + last, qRows, d, groups + 1) == Append(Unfuse(t, qRows, d, groups), SplitGroup(last, qRows, d))
  {
    OneMore(groups + 1, qRows + 2 * d);
    assert (t + last)[..|t|] == t && (t + last)[|t|..] == last;
  }

  lemma AppendAssoc<R>(x: Qkv<R>, y: Qkv<R>, z: Qkv<R>)
    ensures Append(Append(x, y), z) == Append(x, Append(y, z))
  {
    assert x.q + y.q + z.q == x.q + (y.q + z.q);
    assert x.k + y.k + z.k == x.k + (y.k + z.k);
    assert x.v + y.v + z.v == x.v + (y.v + z.v);
  }

  lemma UnfuseNone<R>(x: Qkv<R>, qRows: nat, d: nat)
    ensures Rows(0, qRows + 2 * d) == 0
    ensures Append(x, Unfuse([], qRows, d, 0)) == x && Append(Unfuse([], qRows, d, 0), x) == x
  {
  }

  /** Splitting a concatenation of whole groups. */
  lemma {:induction false} UnfuseConcat<R>(s: seq<R>, t: seq<R>, qRows: nat, d: nat, m: nat, n: nat)
    requires |s| == Rows(m, qRows + 2 * d) && |t| == Rows(n, qRows + 2 * d)
    ensures |s + t| == Rows(m + n, qRows + 2 * d)
    ensures Unfuse(s + t, qRows, d, m + n) == Append(Unfuse(s, qRows, d, m), Unfuse(t, qRows, d, n))
    decreases n
  {
    hide Rows, SplitGroup, Unfuse, Append;
    RowsAdd(m, n, qRows + 2 * d);
    if n == 0 {
      UnfuseNone(Unfuse(s, qRows, d, m), qRows, d);
      assert s + t == s && t == [];
    } else {
      var rest, last := UnfuseStep(t, qRows, d, n);
      UnfuseConcat(s, rest, qRows, d, m, n - 1);
      UnfuseAdd(s + rest, last, qRows, d, m + n - 1);
      AppendAssoc(Unfuse(s, qRows, d, m), Unfuse(rest, qRows, d, n - 1), SplitGroup(last, qRows, d));
      assert s + rest + last == s + t;
    }
  }

  lemma RowsAdd(m: nat, n: nat, w: nat)
    ensures Rows(m + n, w) == Rows(m, w) + Rows(n, w)
  {
  }

  /** Chunking whole groups gives the groups. */
  lemma {:induction false} PiecesAreGroups<R>(t: seq<R>, qRows: nat, d: nat, groups: nat)
    requires qRows + 2 * d > 0 && groups > 0 && |t| == Rows(groups, qRows + 2 * d)
    ensures AllOf(Pieces(t, qRows + 2 * d), qRows + 2 * d)
    ensures UnfusePieces(Pieces(t, qRows + 2 * d), qRows, d) == Unfuse(t, qRows, d, groups)
    decreases groups
  {
    hide Rows, SplitGroup, Unfuse, Append, UnfusePieces;
    var w := qRows + 2 * d;
    if groups == 1 {
      OneGroup(t, qRows, d);
    } else {
      PeelGroup(t, qRows, d, groups);
      PiecesAreGroups(t[w..], qRows, d, groups - 1);
      UnfuseFirst(t[..w], Pieces(t[w..], w), qRows, d);
      OneGroup(t[..w], qRows, d);
      UnfuseConcat(t[..w], t[w..], qRows, d, 1, groups - 1);
      assert t[..w] + t[w..] == t;
    }
  }

  lemma OneGroup<R>(t: seq<R>, qRows: nat, d: nat)
    requires |t| == Rows(1, qRows + 2 * d) || |t| == qRows + 2 * d
    ensures |t| == Rows(1, qRows + 2 * d) == qRows + 2 * d
    ensures Unfuse(t, qRows, d, 1) == SplitGroup(t, qRows, d) == UnfusePieces([t], qRows, d)
  {
    NoRows(qRows + 2 * d);
    OneMore(1, qRows + 2 * d);
    assert t[..0] == [] && t[0..] == t;
    assert [t][1..] == [];
  }

  lemma PeelGroup<R>(t: seq<R>, qRows: nat, d: nat, groups: nat)
    requires qRows + 2 * d > 0 && groups > 1 && |t| == Rows(groups, qRows + 2 * d)
    ensures var w := qRows + 2 * d;
            |t| > w && |t[w..]| == Rows(groups - 1, w) && Pieces(t, w) == [t[..w]] + Pieces(t[w..], w)
  {
    OneMore(groups, qRows + 2 * d);
    OneMore(groups - 1, qRows + 2 * d);
  }

  lemma UnfuseFirst<R>(p: seq<R>, ps: seq<seq<R>>, qRows: nat, d: nat)
    requires |p| == qRows + 2 * d && AllOf(ps, qRows + 2 * d)
    ensures AllOf([p] + ps, qRows + 2 * d)
    ensures UnfusePieces([p] + ps, qRows, d) == Append(SplitGroup(p, qRows, d), UnfusePieces(ps, qRows, d))
  {
    assert ([p] + ps)[1..] == ps;
  }

  lemma NoRows(w: nat)
    ensures Rows(0, w) == 0
  {
  }

  lemma ChunksAreGroups<R>(t: seq<R>, qRows: nat, d: nat, groups: nat)
    requires groups > 0 && |t| == Rows(groups, qRows + 2 * d)
    ensures AllOf(Chunk(t, groups), qRows + 2 * d)
    ensures UnfusePieces(Chunk(t, groups), qRows, d) == Unfuse(t, qRows, d, groups)
  {
    hide Unfuse, UnfusePieces, SplitGroup;
    if qRows + 2 * d == 0 {
      assert t == [] by { NoRowsAtAll(groups); }
      EmptyChunk(t, groups);
    } else {
      ChunkSize(t, groups, qRows + 2 * d);
      PiecesAreGroups(t, qRows, d, groups);
    }
  }

  lemma NoRowsAtAll(n: nat)
    ensures Rows(n, 0) == 0
  {
  }

  lemma EmptyChunk<R>(t: seq<R>, groups: nat)
    requires groups > 0 && t == [] && Rows(groups, 0) == 0
    ensures Chunk(t, groups) == [t] && AllOf([t], 0) && UnfusePieces([t], 0, 0) == Unfuse(t, 0, 0, groups)
  {
    var x := Unfuse(t, 0, 0, groups);
    assert Sized(x, 0, 0, groups);
    assert x == Qkv([], [], []);
    assert SplitGroup(t, 0, 0) == Qkv([], [], []) && [t][1..] == [];
  }

  lemma ChunkSize<R>(t: seq<R>, groups: nat, w: nat)
    requires groups > 0 && w > 0 && |t| == Rows(groups, w)
    ensures Chunk(t, groups) == Pieces(t, w)
  {
    MulMono(1, groups, w);
    DivUnique(groups * w + groups - 1, groups, w, groups - 1);
  }

  // ---------------------------------------------------------------- the mergers

  /** Splits every chunk of a shard into q, k and v rows and appends them; `chunk.split` raises when the
      sizes do not add up. */
  method AppendChunks<R>(chunks: seq<seq<R>>, qRows: nat, d: nat, before: Qkv<R>) returns (r: Result<Qkv<R>>)
    ensures r.Ok? <==> AllOf(chunks, qRows + 2 * d)
    ensures r.Ok? ==> r.value == Append(before, UnfusePieces(chunks, qRows, d))
  {
    hide SplitGroup;
    var x := before;
    for i := 0 to |chunks|
      invariant AllOf(chunks[..i], qRows + 2 * d)
      invariant AllOf(chunks[i..], qRows + 2 * d) && AllOf(chunks, qRows + 2 * d) ==>
        Append(x, UnfusePieces(chunks[i..], qRows, d)) == Append(before, UnfusePieces(chunks, qRows, d))
    {
      if |chunks[i]| != qRows + 2 * d { return AssertionFailed; }
      assert chunks[i..][1..] == chunks[i + 1..];
      x := Append(x, SplitGroup(chunks[i], qRows, d));
    }
    return Ok(x);
  }

  function Concat<R>(shards: seq<seq<R>>): seq<R> {
    if shards == [] then [] else Concat(shards[..|shards| - 1]) + shards[|shards| - 1]
  }

  /** Rows of q per group for this head count. */
  function QRows(heads: nat, kvHeads: nat, d: nat): nat
    requires kvHeads > 0
  {
    heads / kvHeads * d
  }

  /** Shards of whole groups with d rows per k and v head. */
  ghost predicate GroupAligned<R>(shards: seq<seq<R>>, heads: nat, kvHeads: nat, d: nat) {
    && kvHeads > 0 && shards != [] && heads % kvHeads == 0 && kvHeads % |shards| == 0
    && AllOf(shards, Rows(kvHeads / |shards|, QRows(heads, kvHeads, d) + 2 * d))
  }

  lemma ShardSizes(n: nat, groups: nat, d: nat, rows: nat)
    requires groups > 0 && rows == Rows(groups, n * d + 2 * d)
    ensures rows % (n + 2) == 0 && rows / (n + 2) == groups * d
    ensures rows / (n + 2) * n / groups == n * d && rows / (n + 2) / groups == d
  {
    assert rows == groups * d * (n + 2) + 0 by {
      assert n * d + 2 * d == d * (n + 2);
      assert groups * (d * (n + 2)) == groups * d * (n + 2);
    }
    DivUnique(rows, n + 2, groups * d, 0);
    assert groups * d * n == n * d * groups + 0;
    DivUnique(groups * d * n, groups, n * d, 0);
    DivUnique(groups * d, groups, d, 0);
  }

  /** How many groups of w rows there are. */
  function GroupsIn(rows: nat, w: nat): nat { if w == 0 then 0 else rows / w }

  ghost predicate WholeGroupsOf(rows: nat, w: nat) { rows == Rows(GroupsIn(rows, w), w) }

  lemma GroupsUnique(rows: nat, groups: nat, w: nat)
    requires rows == Rows(groups, w)
    ensures WholeGroupsOf(rows, w) && (w > 0 ==> GroupsIn(rows, w) == groups)
  {
    if w > 0 {
      DivUnique(rows, w, groups, 0);
    } else {
      NoRowsAtAll(groups);
    }
  }

  lemma GroupsAdd(a: nat, b: nat, w: nat)
    requires WholeGroupsOf(a, w) && WholeGroupsOf(b, w)
    ensures WholeGroupsOf(a + b, w) && GroupsIn(a + b, w) == GroupsIn(a, w) + GroupsIn(b, w)
  {
    RowsAdd(GroupsIn(a, w), GroupsIn(b, w), w);
    GroupsUnique(a + b, GroupsIn(a, w) + GroupsIn(b, w), w);
  }

  /** A shard falls into chunks of exactly w rows: the size of a chunk is w, and no shorter one is left. */
  ghost predicate FitsChunks(rows: nat, parts: nat, w: nat)
    requires parts > 0
  {
    CeilDiv(rows, parts) == w && (w > 0 ==> rows % w == 0)
  }

  lemma {:induction false} PiecesFit<R>(t: seq<R>, size: nat, w: nat)
    requires 0 < size <= |t|
    ensures AllOf(Pieces(t, size), w) <==> size == w && |t| % w == 0
    decreases |t|
  {
    if |t| == size {
      assert Pieces(t, size)[0] == t;
      OnePiece(|t|, size);
    } else {
      PeelPiece(t, size, w);
      LessOne(|t|, size);
      if |t| - size < size {
        assert Pieces(t[size..], size)[0] == t[size..];
        OnePiece(|t| - size, size);
      } else {
        PiecesFit(t[size..], size, w);
      }
    }
  }

  lemma PeelPiece<R>(t: seq<R>, size: nat, w: nat)
    requires 0 < size < |t|
    ensures AllOf(Pieces(t, size), w) <==> size == w && AllOf(Pieces(t[size..], size), w)
  {
    var ps, rest := Pieces(t, size), Pieces(t[size..], size);
    assert ps[0] == t[..size] && forall i :: 0 <= i < |rest| ==> ps[i + 1] == rest[i];
  }

  lemma LessOne(rows: nat, w: nat)
    requires rows > w > 0
    ensures (rows - w) % w == 0 <==> rows % w == 0
  {
    var q, r := (rows - w) / w, (rows - w) % w;
    assert (q + 1) * w == q * w + w;
    DivUnique(rows, w, q + 1, r);
  }

  lemma OnePiece(rows: nat, w: nat)
    requires 0 < rows <= w
    ensures rows % w == 0 <==> rows == w
  {
    if rows < w {
      DivUnique(rows, w, 0, rows);
    } else {
      DivUnique(rows, w, 1, 0);
    }
  }

  /** Exactly when `chunk.split` accepts all chunks of a shard. */
  lemma ChunksFitIff<R>(t: seq<R>, parts: nat, w: nat)
    requires parts > 0
    ensures AllOf(Chunk(t, parts), w) <==> FitsChunks(|t|, parts, w)
  {
    if t == [] {
      DivUnique(parts - 1, parts, 0, parts - 1);
      assert Chunk(t, parts)[0] == [];
    } else {
      CeilAtMost(|t|, parts);
      hide CeilDiv;
      PiecesFit(t, CeilDiv(|t|, parts), w);
    }
  }

  /** Such a shard is whole groups, and its chunks are split as these groups are. */
  lemma ChunksUnfuse<R>(t: seq<R>, parts: nat, qRows: nat, d: nat)
    requires parts > 0 && FitsChunks(|t|, parts, qRows + 2 * d)
    ensures WholeGroupsOf(|t|, qRows + 2 * d) && AllOf(Chunk(t, parts), qRows + 2 * d)
    ensures UnfusePieces(Chunk(t, parts), qRows, d) == Unfuse(t, qRows, d, GroupsIn(|t|, qRows + 2 * d))
  {
    var w := qRows + 2 * d;
    hide Unfuse, UnfusePieces, SplitGroup;
    ChunksFitIff(t, parts, w);
    RoundUp(|t|, parts);
    hide CeilDiv, Pieces;
    if w == 0 {
      assert t == [];
      NoRowsAtAll(0);
      EmptyUnfuse(t);
    } else {
      assert |t| == GroupsIn(|t|, w) * w;
      assert t != [] by { CeilNone(parts); }
      PiecesAreGroups(t, qRows, d, GroupsIn(|t|, w));
    }
  }

  lemma CeilNone(parts: nat)
    requires parts > 0
    ensures CeilDiv(0, parts) == 0
  {
    DivUnique(parts - 1, parts, 0, parts - 1);
  }

  lemma EmptyUnfuse<R>(t: seq<R>)
    requires t == [] && Rows(0, 0) == 0
    ensures AllOf([t], 0) && UnfusePieces([t], 0, 0) == Unfuse(t, 0, 0, 0)
  {
    assert SplitGroup(t, 0, 0) == Qkv([], [], []) && [t][1..] == [];
  }

  /** The first i shards, merged. */
  ghost predicate MergedUpTo<R>(x: Qkv<R>, shards: seq<seq<R>>, i: nat, qRows: nat, d: nat)
    requires i <= |shards|
  {
    var t, w := Concat(shards[..i]), qRows + 2 * d;
    WholeGroupsOf(|t|, w) && x == Unfuse(t, qRows, d, GroupsIn(|t|, w))
  }

  lemma MergeOneMore<R>(x: Qkv<R>, shards: seq<seq<R>>, i: nat, qRows: nat, d: nat, groups: nat)
    requires groups > 0 && i < |shards| && FitsChunks(|shards[i]|, groups, qRows + 2 * d)
    requires MergedUpTo(x, shards, i, qRows, d)
    ensures AllOf(Chunk(shards[i], groups), qRows + 2 * d)
    ensures MergedUpTo(Append(x, UnfusePieces(Chunk(shards[i], groups), qRows, d)), shards, i + 1, qRows, d)
  {
    hide Rows, Unfuse, Append, UnfusePieces, Chunk, GroupsIn;
    var w, before := qRows + 2 * d, Concat(shards[..i]);
    ChunksUnfuse(shards[i], groups, qRows, d);
    GroupsAdd(|before|, |shards[i]|, w);
    assert shards[..i + 1][..i] == shards[..i];
    UnfuseConcat(before, shards[i], qRows, d, GroupsIn(|before|, w), GroupsIn(|shards[i]|, w));
  }

  /** The rows per chunk that the sizes of the first shard add up to. */
  function ChunkRows(rows: nat, n: nat, groups: nat): nat
    requires groups > 0
  {
    Div(Div(rows, n + 2) * n, groups) + 2 * Div(Div(rows, n + 2), groups)
  }

  /** The asserts hold, every shard has a group, and all shards fall into chunks of the same size. */
  ghost predicate CanMerge<R>(shards: seq<seq<R>>, heads: nat, kvHeads: nat)
    requires shards != [] && kvHeads > 0
  {
    var groups := Div(kvHeads, |shards|);
    && Divides(|shards[0]|, heads, kvHeads) && groups > 0
    && forall i :: 0 <= i < |shards| ==> FitsChunks(|shards[i]|, groups, ChunkRows(|shards[0]|, Div(heads, kvHeads), groups))
  }

  /** The unsharded tensor, split into groups of the sizes of the first shard. */
  ghost predicate MergeOf<R>(x: Qkv<R>, shards: seq<seq<R>>, heads: nat, kvHeads: nat)
    requires shards != [] && kvHeads >= |shards|
  {
    AtLeastOne(kvHeads, |shards|);
    var t, n, groups := Concat(shards), Div(heads, kvHeads), Div(kvHeads, |shards|);
    var qRows, kRows := Div(Div(|shards[0]|, n + 2) * n, groups), Div(Div(|shards[0]|, n + 2), groups);
    WholeGroupsOf(|t|, qRows + 2 * kRows) && x == Unfuse(t, qRows, kRows, GroupsIn(|t|, qRows + 2 * kRows))
  }

  lemma {:induction false} ConcatAt<R>(shards: seq<seq<R>>, r: nat)
    requires r < |shards|
    ensures var at := |Concat(shards[..r])|;
            at + |shards[r]| <= |Concat(shards)| && Concat(shards)[at..at + |shards[r]|] == shards[r]
    decreases |shards|
  {
    var n := |shards| - 1;
    var before := Concat(shards[..n]);
    if r < n {
      ConcatAt(shards[..n], r);
      assert shards[..n][..r] == shards[..r];
      var at := |Concat(shards[..r])|;
      assert (before + shards[n])[at..at + |shards[r]|] == before[at..at + |shards[r]|];
    }
  }

  lemma RowsShifted<R>(x: Qkv<R>, a: nat, b: nat, t: seq<R>, base: nat, shard: seq<R>, at: nat, qRows: nat, d: nat)
    requires RowsAt(x, a, b, t, base + at, qRows, d) && at + qRows + 2 * d <= |shard|
    requires base + |shard| <= |t| && t[base..base + |shard|] == shard
    ensures RowsAt(x, a, b, shard, at, qRows, d)
  {
    SubSlice(t, base, shard, at, at + qRows);
    SubSlice(t, base, shard, at + qRows, at + qRows + d);
    SubSlice(t, base, shard, at + qRows + d, at + qRows + 2 * d);
  }

  lemma SubSlice<R>(t: seq<R>, base: nat, part: seq<R>, a: nat, b: nat)
    requires a <= b <= |part| && base + |part| <= |t| && t[base..base + |part|] == part
    ensures part[a..b] == t[base + a..base + b]
  {
    forall k | 0 <= k < b - a ensures part[a..b][k] == t[base + a..base + b][k] {
      assert part[a + k] == t[base..base + |part|][a + k];
    }
  }

  lemma GroupShifted<R>(x: Qkv<R>, r: nat, per: nat, i: nat, t: seq<R>, base: nat, shard: seq<R>, g: nat, qRows: nat, d: nat)
    requires i == r * per + g && g < per && |shard| == per * (qRows + 2 * d) && base == r * |shard|
    requires GroupAt(x, i, t, i, qRows, d) && base + |shard| <= |t| && t[base..base + |shard|] == shard
    ensures GroupAt(x, i, shard, g, qRows, d)
  {
    hide RowsAt;
    GroupPlace(r, per, g, qRows + 2 * d);
    RowsShifted(x, i * qRows, i * d, t, base, shard, g * (qRows + 2 * d), qRows, d);
  }

  lemma GroupPlace(r: nat, per: nat, g: nat, w: nat)
    requires g < per
    ensures (r * per + g) * w == r * (per * w) + g * w && g * w + w <= per * w
  {
    MulMono(g + 1, per, w);
    assert (g + 1) * w == g * w + w;
    assert r * (per * w) == r * per * w;
  }

  /** Group g of shard r is group number r * per + g of x. */
  ghost predicate ShardRow<R>(x: Qkv<R>, shards: seq<seq<R>>, per: nat, r: nat, g: nat, qRows: nat, d: nat)
    requires r < |shards|
  {
    GroupAt(x, r * per + g, shards[r], g, qRows, d)
  }

  ghost predicate ShardRows<R>(x: Qkv<R>, shards: seq<seq<R>>, per: nat, qRows: nat, d: nat) {
    forall r, g :: 0 <= r < |shards| && 0 <= g < per ==> ShardRow(x, shards, per, r, g, qRows, d)
  }

  lemma ShardPlace<R>(shards: seq<seq<R>>, per: nat, w: nat, r: nat, g: nat)
    requires AllOf(shards, Rows(per, w)) && r < |shards| && g < per
    ensures |shards[r]| == per * w && |Concat(shards[..r])| == r * |shards[r]| && r * per + g < per * |shards|
  {
    ConcatLength(shards[..r], Rows(per, w));
    MulMono(r + 1, |shards|, per);
    assert (r + 1) * per == r * per + per;
  }

  lemma ShardGroup<R>(shards: seq<seq<R>>, per: nat, qRows: nat, d: nat, groups: nat, r: nat, g: nat)
    requires groups == per * |shards| && AllOf(shards, Rows(per, qRows + 2 * d)) && r < |shards| && g < per
    requires |Concat(shards)| == Rows(groups, qRows + 2 * d)
    ensures ShardRow(Unfuse(Concat(shards), qRows, d, groups), shards, per, r, g, qRows, d)
  {
    hide Rows, Unfuse, GroupAt, Concat, AllOf;
    ShardPlace(shards, per, qRows + 2 * d, r, g);
    ConcatAt(shards, r);
    GroupOf(shards, qRows, d, groups, |Concat(shards[..r])|, r, per, r * per + g, g);
  }

  lemma GroupOf<R>(shards: seq<seq<R>>, qRows: nat, d: nat, groups: nat, base: nat, r: nat, per: nat, i: nat, g: nat)
    requires |Concat(shards)| == Rows(groups, qRows + 2 * d) && i < groups && r < |shards|
    requires i == r * per + g && g < per && |shards[r]| == per * (qRows + 2 * d) && base == r * |shards[r]|
    requires base + |shards[r]| <= |Concat(shards)| && Concat(shards)[base..base + |shards[r]|] == shards[r]
    ensures GroupAt(Unfuse(Concat(shards), qRows, d, groups), i, shards[r], g, qRows, d)
  {
    hide Rows, Unfuse, GroupAt, Concat;
    UnfuseAt(Concat(shards), qRows, d, groups, i);
    GroupShifted(Unfuse(Concat(shards), qRows, d, groups), r, per, i, Concat(shards), base, shards[r], g, qRows, d);
  }

  lemma AllShardRows<R>(shards: seq<seq<R>>, heads: nat, kvHeads: nat, d: nat)
    requires GroupAligned(shards, heads, kvHeads, d) && |Concat(shards)| == Rows(kvHeads, QRows(heads, kvHeads, d) + 2 * d)
    ensures ShardRows(Unfuse(Concat(shards), QRows(heads, kvHeads, d), d, kvHeads), shards, kvHeads / |shards|,
                      QRows(heads, kvHeads, d), d)
  {
    Aligned(shards, heads, kvHeads, d);
    assert Div(kvHeads, |shards|) == kvHeads / |shards|;
    hide Rows, Unfuse, GroupAligned, QRows, Divides, ShardRow, AllOf, Concat, Div;
    var per := kvHeads / |shards|;
    forall r, g | 0 <= r < |shards| && 0 <= g < per
      ensures ShardRow(Unfuse(Concat(shards), QRows(heads, kvHeads, d), d, kvHeads), shards, per, r, g, QRows(heads, kvHeads, d), d)
    {
      ShardGroup(shards, per, QRows(heads, kvHeads, d), d, kvHeads, r, g);
    }
  }

  /** Merging succeeds exactly on shards of whole groups, and then it equals splitting the unsharded
      tensor; in particular for the head counts that the shards were made with. */
  method MergeAcrossTp<R>(shards: seq<seq<R>>, heads: nat, kvHeads: nat, ghost d: nat) returns (r: Result<Qkv<R>>)
    requires shards != [] && kvHeads > 0
    ensures r.Ok? <==> CanMerge(shards, heads, kvHeads)
    ensures r.Ok? ==> kvHeads >= |shards| && MergeOf(r.value, shards, heads, kvHeads)
    ensures GroupAligned(shards, heads, kvHeads, d) ==>
      && |Concat(shards)| == Rows(kvHeads, QRows(heads, kvHeads, d) + 2 * d)
      && r == Ok(Unfuse(Concat(shards), QRows(heads, kvHeads, d), d, kvHeads))
      && ShardRows(r.value, shards, kvHeads / |shards|, heads / kvHeads * d, d)
    ensures AllOf(shards, |shards[0]|) ==>
      (r.Ok? <==> && Divides(|shards[0]|, heads, kvHeads) && kvHeads >= |shards|
                  && Div(|shards[0]|, Div(heads, kvHeads) + 2) % Div(kvHeads, |shards|) == 0)
  {
    NoGroups(kvHeads, |shards|);
    EqualShards(shards, heads, kvHeads);
    CanMergeIs(shards, heads, kvHeads);
    hide Rows, Unfuse, GroupAligned, QRows, Div, Divides, FitsChunks, GroupsIn, WholeGroupsOf, AllOf, CanMerge, MergeOf, Concat, ShardRows;
    if GroupAligned(shards, heads, kvHeads, d) {
      AlignedShards(shards, heads, kvHeads, d);
    }
    if !Divides(|shards[0]|, heads, kvHeads) { return AssertionFailed; }
    var n := Div(heads, kvHeads);
    var kvSize := Div(|shards[0]|, n + 2);
    var groups := Div(kvHeads, |shards|);
    if groups == 0 { return AssertionFailed; }
    r := MergeShards(shards, groups, Div(kvSize * n, groups), Div(kvSize, groups));
    if r.Ok? {
      MergeOfIs(r.value, shards, heads, kvHeads);
      if GroupAligned(shards, heads, kvHeads, d) {
        AlignedResult(r.value, shards, heads, kvHeads, d);
      }
    }
  }

  lemma AlignedResult<R>(x: Qkv<R>, shards: seq<seq<R>>, heads: nat, kvHeads: nat, d: nat)
    requires GroupAligned(shards, heads, kvHeads, d) && kvHeads >= |shards| && MergeOf(x, shards, heads, kvHeads)
    ensures |Concat(shards)| == Rows(kvHeads, QRows(heads, kvHeads, d) + 2 * d)
    ensures x == Unfuse(Concat(shards), QRows(heads, kvHeads, d), d, kvHeads)
    ensures ShardRows(x, shards, kvHeads / |shards|, heads / kvHeads * d, d)
  {
    hide Rows, Unfuse, MergeOf, ShardRows, Concat;
    AlignedValue(x, shards, heads, kvHeads, d);
    AllShardRows(shards, heads, kvHeads, d);
  }

  lemma CanMergeIs<R>(shards: seq<seq<R>>, heads: nat, kvHeads: nat)
    requires shards != [] && kvHeads > 0
    ensures CanMerge(shards, heads, kvHeads) <==>
      var n, groups := Div(heads, kvHeads), Div(kvHeads, |shards|);
      && Divides(|shards[0]|, heads, kvHeads) && groups > 0
      && forall i :: 0 <= i < |shards| ==>
           FitsChunks(|shards[i]|, groups, Div(Div(|shards[0]|, n + 2) * n, groups) + 2 * Div(Div(|shards[0]|, n + 2), groups))
  {
    hide FitsChunks, Divides, Div;
  }

  lemma MergeOfIs<R>(x: Qkv<R>, shards: seq<seq<R>>, heads: nat, kvHeads: nat)
    requires shards != [] && kvHeads >= |shards|
    ensures Div(kvHeads, |shards|) > 0
    ensures MergeOf(x, shards, heads, kvHeads) <==>
      var t, n, groups := Concat(shards), Div(heads, kvHeads), Div(kvHeads, |shards|);
      var qRows, kRows := Div(Div(|shards[0]|, n + 2) * n, groups), Div(Div(|shards[0]|, n + 2), groups);
      WholeGroupsOf(|t|, qRows + 2 * kRows) && x == Unfuse(t, qRows, kRows, GroupsIn(|t|, qRows + 2 * kRows))
  {
    hide WholeGroupsOf, Div, GroupsIn, Unfuse, Concat;
    AtLeastOne(kvHeads, |shards|);
  }

  lemma AtLeastOne(kvHeads: nat, tp: nat)
    requires kvHeads >= tp > 0
    ensures Div(kvHeads, tp) > 0
  {
    assert kvHeads == kvHeads / tp * tp + kvHeads % tp;
  }

  lemma AlignedShards<R>(shards: seq<seq<R>>, heads: nat, kvHeads: nat, d: nat)
    requires GroupAligned(shards, heads, kvHeads, d)
    ensures CanMerge(shards, heads, kvHeads) && kvHeads >= |shards|
    ensures |Concat(shards)| == Rows(kvHeads, QRows(heads, kvHeads, d) + 2 * d)
  {
    NoGroups(kvHeads, |shards|);
    Aligned(shards, heads, kvHeads, d);
    hide Rows, Unfuse, GroupAligned, QRows, Div, Divides, FitsChunks, GroupsIn, WholeGroupsOf, AllOf, Concat;
    AlignedMerge(shards, Div(kvHeads, |shards|), QRows(heads, kvHeads, d), d, kvHeads);
  }

  lemma AlignedValue<R>(x: Qkv<R>, shards: seq<seq<R>>, heads: nat, kvHeads: nat, d: nat)
    requires GroupAligned(shards, heads, kvHeads, d) && kvHeads >= |shards| && MergeOf(x, shards, heads, kvHeads)
    ensures |Concat(shards)| == Rows(kvHeads, QRows(heads, kvHeads, d) + 2 * d)
    ensures x == Unfuse(Concat(shards), QRows(heads, kvHeads, d), d, kvHeads)
  {
    MergeOfIs(x, shards, heads, kvHeads);
    Aligned(shards, heads, kvHeads, d);
    hide MergeOf, Rows, Unfuse, GroupAligned, QRows, Div, Divides, FitsChunks, GroupsIn, WholeGroupsOf, AllOf, Concat;
    AlignedMerge(shards, Div(kvHeads, |shards|), QRows(heads, kvHeads, d), d, kvHeads);
  }

  /** Shards of one size: all fall into chunks exactly when the first one's sizes divide. */
  lemma EqualShards<R>(shards: seq<seq<R>>, heads: nat, kvHeads: nat)
    requires shards != [] && kvHeads > 0
    ensures kvHeads >= |shards| ==> Div(kvHeads, |shards|) > 0
    ensures AllOf(shards, |shards[0]|) ==>
      (CanMerge(shards, heads, kvHeads) <==>
        && Divides(|shards[0]|, heads, kvHeads) && kvHeads >= |shards|
        && Div(|shards[0]|, Div(heads, kvHeads) + 2) % Div(kvHeads, |shards|) == 0)
  {
    NoGroups(kvHeads, |shards|);
    if kvHeads >= |shards| {
      AtLeastOne(kvHeads, |shards|);
    }
    hide FitsChunks;
    if Divides(|shards[0]|, heads, kvHeads) && kvHeads >= |shards| {
      FirstFitsIff(shards[0], Div(heads, kvHeads), Div(kvHeads, |shards|));
    }
  }

  lemma FirstFitsIff<R>(t: seq<R>, n: nat, groups: nat)
    requires groups > 0 && |t| % (n + 2) == 0
    ensures FitsChunks(|t|, groups, ChunkRows(|t|, n, groups)) <==> |t| / (n + 2) % groups == 0
  {
    var kv := |t| / (n + 2);
    assert |t| == kv * (n + 2);
    ChunksFitIff(t, groups, ChunkRows(|t|, n, groups));
    if kv % groups == 0 {
      DivisibleFits(|t|, n, groups);
      AlignedFits(|t|, groups, ChunkRows(|t|, n, groups));
    } else {
      BrokenGroups(t, n, groups, kv);
    }
  }

  lemma DivisibleFits(rows: nat, n: nat, groups: nat)
    requires groups > 0 && rows % (n + 2) == 0 && rows / (n + 2) % groups == 0
    ensures rows == Rows(groups, ChunkRows(rows, n, groups))
  {
    var kv, d := rows / (n + 2), rows / (n + 2) / groups;
    assert kv == d * groups;
    assert rows == d * groups * (n + 2) == groups * (n * d + 2 * d) by {
      assert n * d + 2 * d == d * (n + 2);
      assert groups * (d * (n + 2)) == d * groups * (n + 2);
    }
    assert d * groups * n == n * d * groups + 0;
    DivUnique(d * groups * n, groups, n * d, 0);
  }

  lemma AlignedFits(rows: nat, groups: nat, w: nat)
    requires groups > 0 && rows == Rows(groups, w)
    ensures FitsChunks(rows, groups, w)
  {
    assert rows + groups - 1 == w * groups + (groups - 1);
    DivUnique(rows + groups - 1, groups, w, groups - 1);
    if w > 0 {
      DivUnique(rows, w, groups, 0);
    }
  }

  lemma {:induction false} ConcatLength<R>(shards: seq<seq<R>>, size: nat)
    requires AllOf(shards, size)
    ensures |Concat(shards)| == |shards| * size
  {
    if shards != [] {
      ConcatLength(shards[..|shards| - 1], size);
      assert |shards| * size == (|shards| - 1) * size + size;
    }
  }

  /** What group-aligned shards concatenate to is as many groups as there are in all of them. */
  lemma AlignedMerge<R>(shards: seq<seq<R>>, groups: nat, qRows: nat, d: nat, kvHeads: nat)
    requires groups > 0 && kvHeads == groups * |shards| && AllOf(shards, Rows(groups, qRows + 2 * d))
    ensures |Concat(shards)| == Rows(kvHeads, qRows + 2 * d)
    ensures forall i :: 0 <= i < |shards| ==> FitsChunks(|shards[i]|, groups, qRows + 2 * d)
    ensures WholeGroupsOf(|Concat(shards)|, qRows + 2 * d)
    ensures Unfuse(Concat(shards), qRows, d, GroupsIn(|Concat(shards)|, qRows + 2 * d)) == Unfuse(Concat(shards), qRows, d, kvHeads)
  {
    var w, t := qRows + 2 * d, Concat(shards);
    ConcatLength(shards, Rows(groups, w));
    assert |shards| * (groups * w) == groups * |shards| * w;
    hide FitsChunks, Unfuse;
    GroupsUnique(|t|, kvHeads, w);
    forall i | 0 <= i < |shards| ensures FitsChunks(|shards[i]|, groups, w) {
      AlignedFits(|shards[i]|, groups, w);
    }
    if w == 0 {
      NothingToSplit(t, kvHeads);
      NothingToSplit(t, 0);
    }
  }

  lemma NothingToSplit<R>(t: seq<R>, groups: nat)
    requires |t| == Rows(groups, 0)
    ensures Unfuse(t, 0, 0, groups) == Qkv([], [], [])
  {
    NoRowsAtAll(groups);
    assert Sized(Unfuse(t, 0, 0, groups), 0, 0, groups);
  }

  /** The asserts on head counts and on the rows of the first shard. */
  predicate Divides(rows: nat, heads: nat, kvHeads: nat)
    requires kvHeads > 0
  {
    heads % kvHeads == 0 && rows % (heads / kvHeads + 2) == 0
  }

  lemma NoGroups(kvHeads: nat, tp: nat)
    requires tp > 0
    ensures kvHeads < tp ==> Div(kvHeads, tp) == 0
  {
    if kvHeads < tp {
      DivUnique(kvHeads, tp, 0, kvHeads);
    }
  }

  /** The loop over the shards and the chunks of each. */
  method MergeShards<R>(shards: seq<seq<R>>, groups: nat, qRows: nat, kRows: nat) returns (r: Result<Qkv<R>>)
    requires groups > 0
    ensures r.Ok? <==> forall i :: 0 <= i < |shards| ==> FitsChunks(|shards[i]|, groups, qRows + 2 * kRows)
    ensures r.Ok? ==>
      var t, w := Concat(shards), qRows + 2 * kRows;
      WholeGroupsOf(|t|, w) && r.value == Unfuse(t, qRows, kRows, GroupsIn(|t|, w))
  {
    hide Rows, Unfuse, UnfusePieces, Append, Chunk, MergedUpTo, FitsChunks, AllOf, WholeGroupsOf, GroupsIn;
    var x: Qkv<R> := Qkv([], [], []);
    StartMerge(shards, qRows, kRows);
    for i := 0 to |shards|
      invariant MergedUpTo(x, shards, i, qRows, kRows)
      invariant forall j :: 0 <= j < i ==> FitsChunks(|shards[j]|, groups, qRows + 2 * kRows)
    {
      ChunksFitIff(shards[i], groups, qRows + 2 * kRows);
      var next := AppendChunks(Chunk(shards[i], groups), qRows, kRows, x);
      if next.AssertionFailed? { return AssertionFailed; }
      MergeOneMore(x, shards, i, qRows, kRows, groups);
      x := next.value;
    }
    EndMerge(x, shards, qRows, kRows);
    return Ok(x);
  }

  lemma StartMerge<R>(shards: seq<seq<R>>, qRows: nat, d: nat)
    ensures MergedUpTo(Qkv([], [], []), shards, 0, qRows, d)
  {
    assert shards[..0] == [];
    NoRows(qRows + 2 * d);
    GroupsUnique(0, 0, qRows + 2 * d);
  }

  lemma EndMerge<R>(x: Qkv<R>, shards: seq<seq<R>>, qRows: nat, d: nat)
    requires MergedUpTo(x, shards, |shards|, qRows, d)
    ensures var t, w := Concat(shards), qRows + 2 * d;
            WholeGroupsOf(|t|, w) && x == Unfuse(t, qRows, d, GroupsIn(|t|, w))
  {
    assert shards[..|shards|] == shards;
  }

  lemma Aligned<R>(shards: seq<seq<R>>, heads: nat, kvHeads: nat, d: nat)
    requires GroupAligned(shards, heads, kvHeads, d)
    ensures var groups, n, rows := Div(kvHeads, |shards|), Div(heads, kvHeads), |shards[0]|;
            && Divides(rows, heads, kvHeads) && kvHeads == groups * |shards| && groups > 0
            && AllOf(shards, Rows(groups, QRows(heads, kvHeads, d) + 2 * d))
            && Div(Div(rows, n + 2) * n, groups) == QRows(heads, kvHeads, d) && Div(Div(rows, n + 2), groups) == d
  {
    ShardSizes(heads / kvHeads, kvHeads / |shards|, d, |shards[0]|);
  }

  /** Splitting the unsharded tensor succeeds exactly when it consists of whole groups, and then it is
      what fusing undoes. */
  method SplitTensors<R>(t: seq<R>, heads: nat, kvHeads: nat) returns (r: Result<Qkv<R>>)
    requires kvHeads > 0
    ensures r.Ok? <==> heads % kvHeads == 0 && |t| % (heads / kvHeads + 2) == 0 && |t| / (heads / kvHeads + 2) % kvHeads == 0
    ensures r.Ok? ==>
      var d := |t| / (heads / kvHeads + 2) / kvHeads;
      && |t| == Rows(kvHeads, QRows(heads, kvHeads, d) + 2 * d) && r.value == Unfuse(t, QRows(heads, kvHeads, d), d, kvHeads)
      && forall g :: 0 <= g < kvHeads ==> GroupAt(r.value, g, t, g, heads / kvHeads * d, d)
  {
    hide GroupAt, Rows, Unfuse, UnfusePieces, Append, Chunk, QRows, Div;
    if heads % kvHeads != 0 { return AssertionFailed; }
    var n := heads / kvHeads;
    if |t| % (n + 2) != 0 { return AssertionFailed; }
    var kvSize := |t| / (n + 2);
    var qRows, kRows := Div(kvSize * n, kvHeads), Div(kvSize, kvHeads);
    if kvSize % kvHeads == 0 {
      WholeGroups(|t|, n, kvHeads, heads);
      EveryGroup(t, heads, kvHeads, |t| / (n + 2) / kvHeads);
      ChunksAreGroups(t, qRows, kRows, kvHeads);
      NothingBefore(Unfuse(t, qRows, kRows, kvHeads));
    } else {
      BrokenGroups(t, n, kvHeads, kvSize);
    }
    r := AppendChunks(Chunk(t, kvHeads), qRows, kRows, Qkv([], [], []));
  }

  lemma EveryGroup<R>(t: seq<R>, heads: nat, kvHeads: nat, d: nat)
    requires kvHeads > 0 && |t| == Rows(kvHeads, QRows(heads, kvHeads, d) + 2 * d)
    ensures forall g :: 0 <= g < kvHeads ==>
      GroupAt(Unfuse(t, QRows(heads, kvHeads, d), d, kvHeads), g, t, g, heads / kvHeads * d, d)
  {
    hide GroupAt, Unfuse, Rows;
    forall g | 0 <= g < kvHeads
      ensures GroupAt(Unfuse(t, QRows(heads, kvHeads, d), d, kvHeads), g, t, g, heads / kvHeads * d, d)
    {
      UnfuseAt(t, QRows(heads, kvHeads, d), d, kvHeads, g);
    }
  }

  lemma NothingBefore<R>(x: Qkv<R>)
    ensures Append(Qkv([], [], []), x) == x
  {
  }

  lemma WholeGroups(rows: nat, n: nat, kvHeads: nat, heads: nat)
    requires kvHeads > 0 && n == heads / kvHeads && rows % (n + 2) == 0 && rows / (n + 2) % kvHeads == 0
    ensures var d := rows / (n + 2) / kvHeads;
            && rows == Rows(kvHeads, QRows(heads, kvHeads, d) + 2 * d)
            && Div(rows / (n + 2) * n, kvHeads) == QRows(heads, kvHeads, d) && Div(rows / (n + 2), kvHeads) == d
  {
    var d := rows / (n + 2) / kvHeads;
    assert rows / (n + 2) == d * kvHeads;
    assert rows == d * kvHeads * (n + 2);
    assert d * kvHeads * (n + 2) == kvHeads * (n * d + 2 * d) by {
      assert n * d + 2 * d == d * (n + 2);
      assert kvHeads * (d * (n + 2)) == d * kvHeads * (n + 2);
    }
    assert d * kvHeads * n == n * d * kvHeads + 0;
    DivUnique(d * kvHeads * n, kvHeads, n * d, 0);
  }

  /** Otherwise the first chunk is longer than the sizes it is split into. */
  lemma BrokenGroups<R>(t: seq<R>, n: nat, kvHeads: nat, kv: nat)
    requires kvHeads > 0 && |t| == kv * (n + 2) && kv % kvHeads != 0
    ensures !AllOf(Chunk(t, kvHeads), Div(kv * n, kvHeads) + 2 * Div(kv, kvHeads))
  {
    var sum, c := Div(kv * n, kvHeads) + 2 * Div(kv, kvHeads), CeilDiv(|t|, kvHeads);
    assert kv * (n + 2) == kv * n + 2 * kv && kv > 0;
    SumOfQuotients(kv * n, kv, kvHeads);
    hide Div, CeilDiv;
    RoundUp(|t|, kvHeads);
    CeilAtMost(|t|, kvHeads);
    assert sum < c by { MulCancel(sum, c, kvHeads); }
    FirstChunk(t, kvHeads);
  }

  lemma FirstChunk<R>(t: seq<R>, parts: nat)
    requires t != [] && parts > 0 && 0 < CeilDiv(|t|, parts) <= |t|
    ensures |Chunk(t, parts)| > 0 && |Chunk(t, parts)[0]| == CeilDiv(|t|, parts)
  {
  }

  lemma SumOfQuotients(x: nat, y: nat, k: nat)
    requires k > 0 && y % k != 0
    ensures (Div(x, k) + 2 * Div(y, k)) * k < x + 2 * y
  {
    var a, b := x / k, y / k;
    assert a * k <= x && b * k < y;
    assert (a + 2 * b) * k == a * k + 2 * (b * k);
  }

  lemma CeilAtMost(a: nat, b: nat)
    requires a > 0 && b > 0
    ensures 0 < CeilDiv(a, b) <= a
  {
    var c := CeilDiv(a, b);
    RoundUp(a, b);
    hide CeilDiv;
    MulCancel(0, c, b);
    MulMono(1, b, a);
    assert b * (a + 1) == b * a + b;
    MulCancel(c, a + 1, b);
  }
}
