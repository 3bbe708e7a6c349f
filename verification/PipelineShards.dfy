/** How layers are dealt to pipeline stages (verl/model_merger/megatron_model_merger.py,
    `get_dynamic_pipeline_shards`). */
module PipelineShards {
  import opened Arithmetic

  datatype Shards = Layers(counts: seq<int>) | ValueError | IndexError

  function Sum(s: seq<int>): int {
    if s == [] then 0 else Sum(s[..|s| - 1]) + s[|s| - 1]
  }

  /** One candidate: all middle stages get m layers, the ends share the rest. */
  function First(layers: nat, stages: nat, m: nat): int { (layers - m * (stages - 2)) / 2 }

  function Last(layers: nat, stages: nat, m: nat): int {
    var ends := layers - m * (stages - 2);
    ends - ends / 2
  }

  predicate Feasible(layers: nat, stages: nat, m: nat) {
    0 < First(layers, stages, m) <= m && 0 < Last(layers, stages, m) <= m
  }

  function Layout(layers: nat, stages: nat, m: nat): seq<int>
    requires stages >= 2
  {
    [First(layers, stages, m)] + seq(stages - 2, _ => m) + [Last(layers, stages, m)]
  }

  function Abs(x: int): nat { if x < 0 then -x else x }

  function Diff(layers: nat, stages: nat, m: nat): nat { Abs(First(layers, stages, m) - m) }

  /** A candidate is feasible for a whole range of m, which starts at the rounded-up mean. */
  lemma FeasibleRange(layers: nat, stages: nat, m: nat)
    requires stages >= 3
    ensures Feasible(layers, stages, m) <==> CeilDiv(layers, stages) <= m && m * (stages - 2) + 2 <= layers
  {
    var c := CeilDiv(layers, stages);
    assert stages * c <= layers + stages - 1 < stages * c + stages;
    assert m * stages == m * (stages - 2) + 2 * m;
    if c <= m {
      MulMono(c, m, stages);
      assert m * stages >= layers;
    } else {
      MulMono(m + 1, c, stages);
      assert (m + 1) * stages == m * stages + stages;
      assert m * stages < layers;
    }
  }

  /** The larger the middle stages, the less uniform the layout. */
  lemma DiffGrows(layers: nat, stages: nat, m: nat, m': nat)
    requires stages >= 3 && Feasible(layers, stages, m) && Feasible(layers, stages, m')
    ensures m < m' <==> Diff(layers, stages, m) < Diff(layers, stages, m')
  {
    if m < m' {
      MulMono(m, m', stages - 2);
    } else {
      MulMono(m', m, stages - 2);
    }
  }

  /** `candidates` are those of the feasible m below n, in order. */
  ghost predicate Candidates(candidates: seq<(seq<int>, nat)>, ms: seq<nat>, layers: nat, stages: nat, n: nat)
    requires stages >= 2
  {
    && |candidates| == |ms| && (forall m: nat :: m in ms <==> m < n && Feasible(layers, stages, m))
    && forall k :: 0 <= k < |ms| ==> candidates[k] == (Layout(layers, stages, ms[k]), Diff(layers, stages, ms[k]))
  }

  /** The first of the candidates with the least difference: the head of the stably sorted list. */
  method Most(candidates: seq<(seq<int>, nat)>) returns (k: nat)
    requires candidates != []
    ensures k < |candidates| && forall j :: 0 <= j < |candidates| ==> candidates[k].1 <= candidates[j].1
    ensures forall j :: 0 <= j < k ==> candidates[k].1 < candidates[j].1
  {
    k := 0;
    for i := 1 to |candidates|
      invariant k < i && forall j :: 0 <= j < i ==> candidates[k].1 <= candidates[j].1
      invariant forall j :: 0 <= j < k ==> candidates[k].1 < candidates[j].1
    {
      if candidates[i].1 < candidates[k].1 { k := i; }
    }
  }

  /** From three stages on the search comes down to the rounded-up mean for the middle stages, and it
      finds nothing exactly when that leaves less than two layers for the ends. */
  method GetDynamicPipelineShards(layers: int, stages: int) returns (r: Shards)
    ensures r.ValueError? <==> layers < stages || stages < 1
    ensures layers >= stages == 1 ==> r == Layers([layers])
    ensures layers >= stages == 2 ==> r == Layers([layers / 2, layers - layers / 2])
    ensures layers >= stages >= 3 ==>
      var c := CeilDiv(layers, stages);
      r == if c * (stages - 2) + 2 <= layers then Layers(Layout(layers, stages, c)) else IndexError
  {
    if layers < stages { return ValueError; }
    if stages < 1 { return ValueError; }
    if stages == 1 { return Layers([layers]); }
    if stages == 2 { return Layers([layers / 2, layers - layers / 2]); }
    var candidates: seq<(seq<int>, nat)> := [];
    ghost var ms: seq<nat> := [];
    for m := 0 to layers
      invariant Candidates(candidates, ms, layers, stages, m)
    {
      hide Layout, Diff, First, Last;
      if Feasible(layers, stages, m) {
        candidates := candidates + [(Layout(layers, stages, m), Diff(layers, stages, m))];
        ms := ms + [m];
      }
    }
    ghost var c := CeilDiv(layers, stages);
    FeasibleRange(layers, stages, c);
    hide Layout, Diff, Feasible;
    if candidates == [] {
      assert c !in ms;
      CeilBelow(layers, stages);
      return IndexError;
    }
    var k := Most(candidates);
    FeasibleRange(layers, stages, ms[k]);
    assert ms[k] in ms;
    MulMono(c, ms[k], stages - 2);
    CeilBelow(layers, stages);
    assert c in ms;
    ghost var j :| 0 <= j < |ms| && ms[j] == c;
    DiffGrows(layers, stages, c, ms[k]);
    return Layers(candidates[k].0);
  }

  lemma CeilBelow(layers: nat, stages: nat)
    requires layers >= stages >= 3
    ensures 0 < CeilDiv(layers, stages) && (CeilDiv(layers, stages) * (stages - 2) + 2 <= layers ==> CeilDiv(layers, stages) < layers)
  {
    var c := CeilDiv(layers, stages);
    MulMono(1, stages - 2, c);
    assert c * (stages - 2) == (stages - 2) * c;
  }

  // ---------------------------------------------------------------- what a layout promises

  lemma {:induction false} SumRepeat(n: nat, m: nat)
    ensures Sum(seq(n, _ => m)) == m * n
  {
    if n > 0 {
      var s := seq(n, _ => m);
      assert s[..n - 1] == seq(n - 1, _ => m);
      SumRepeat(n - 1, m);
    }
  }

  lemma {:induction false} SumConcat(a: seq<int>, b: seq<int>)
    ensures Sum(a + b) == Sum(a) + Sum(b)
  {
    if b == [] {
      assert a + b == a;
    } else {
      var n := |b| - 1;
      assert (a + b)[..|a + b| - 1] == a + b[..n];
      SumConcat(a, b[..n]);
    }
  }

  /** All layers are dealt, every stage has one, and no stage has more than the rounded-up mean. */
  lemma LayoutIsSharding(layers: nat, stages: nat)
    requires layers >= stages >= 3 && CeilDiv(layers, stages) * (stages - 2) + 2 <= layers
    ensures var c := CeilDiv(layers, stages); var r := Layout(layers, stages, c);
            && |r| == stages && Sum(r) == layers
            && (forall i :: 0 <= i < stages ==> 0 < r[i] <= c)
            && (forall i :: 0 < i < stages - 1 ==> r[i] == c) && r[stages - 1] - 1 <= r[0] <= r[stages - 1]
  {
    var c := CeilDiv(layers, stages);
    FeasibleRange(layers, stages, c);
    var r, middle := Layout(layers, stages, c), seq(stages - 2, _ => c);
    SumRepeat(stages - 2, c);
    SumConcat([r[0]], middle);
    SumConcat([r[0]] + middle, [r[stages - 1]]);
    assert Sum([r[0]]) == r[0] && Sum([r[stages - 1]]) == r[stages - 1] by {
      assert [r[0]][..0] == [] && [r[stages - 1]][..0] == [];
    }
  }

  lemma {:induction false} SumBelow(s: seq<int>, bound: int)
    requires forall i :: 0 <= i < |s| ==> s[i] <= bound
    ensures Sum(s) <= bound * |s|
  {
    if s != [] {
      SumBelow(s[..|s| - 1], bound);
    }
  }

  /** No way of dealing the layers, of whatever shape, has a smaller largest stage. */
  lemma NoBetterLargest(s: seq<int>, layers: nat)
    requires s != [] && Sum(s) == layers
    ensures exists i :: 0 <= i < |s| && s[i] >= CeilDiv(layers, |s|)
  {
    var c: int := CeilDiv(layers, |s|);
    assert |s| * c <= layers + |s| - 1;
    assert (c - 1) * |s| == c * |s| - |s|;
    if forall i :: 0 <= i < |s| ==> s[i] <= c - 1 {
      SumBelow(s, c - 1);
    }
  }

  /** Five layers on four stages cannot be dealt, although every stage could have one. */
  lemma FiveOnFour()
    ensures CeilDiv(5, 4) * (4 - 2) + 2 > 5
    ensures forall m: nat :: !Feasible(5, 4, m)
  {
    forall m: nat ensures !Feasible(5, 4, m) {
      FeasibleRange(5, 4, m);
    }
  }
}
