/** Renumbering the layers of pipeline stages, and numbering the output files
    (verl/model_merger/megatron_model_merger.py, scripts/legacy_model_merger.py). */
module LayerNumbers {
  import opened Outcomes
  import opened Arithmetic

  /** Per key of a stage's state dictionary: its local layer number, if it belongs to a layer. */
  type Stage = seq<Option<nat>>

  function Max(a: nat, b: nat): nat { if a < b then b else a }

  /** `layers_handled` after a stage. */
  function Handled(stage: Stage): nat {
    if stage == [] then 0
    else
      var before, last := Handled(stage[..|stage| - 1]), stage[|stage| - 1];
      if last.Some? then Max(last.value, before) else before
  }

  function Shifted(stage: Stage, shift: nat): Stage {
    seq(|stage|, k requires 0 <= k < |stage| => if stage[k].Some? then Some(stage[k].value + shift) else None)
  }

  /** `layers_cum` after these stages. */
  function Cumulated(stages: seq<Stage>, start: nat): nat {
    if stages == [] then start
    else Cumulated(stages[..|stages| - 1], start) + Handled(stages[|stages| - 1]) + 1
  }

  /** Every stage with its global layer numbers. */
  function Renumbered(stages: seq<Stage>, start: nat): seq<Stage> {
    if stages == [] then []
    else
      var n := |stages| - 1;
      Renumbered(stages[..n], start) + [Shifted(stages[n], Cumulated(stages[..n], start))]
  }

  /** The stages in the order of the merge: chunk by chunk, and within a chunk rank by rank. */
  function ChunkOf(lists: seq<seq<Stage>>, chunk: nat): seq<Stage>
    requires forall r :: 0 <= r < |lists| ==> chunk < |lists[r]|
  {
    seq(|lists|, r requires 0 <= r < |lists| => lists[r][chunk])
  }

  function MergeOrder(lists: seq<seq<Stage>>, chunks: nat): seq<Stage>
    requires forall r :: 0 <= r < |lists| ==> chunks <= |lists[r]|
  {
    if chunks == 0 then [] else MergeOrder(lists, chunks - 1) + ChunkOf(lists, chunks - 1)
  }

  lemma CumulatedAppend(stages: seq<Stage>, stage: Stage, start: nat)
    ensures Cumulated(stages + [stage], start) == Cumulated(stages, start) + Handled(stage) + 1
    ensures Renumbered(stages + [stage], start) == Renumbered(stages, start) + [Shifted(stage, Cumulated(stages, start))]
  {
    assert (stages + [stage])[..|stages|] == stages;
  }

  lemma NoStages(start: nat)
    ensures Renumbered([], start) == [] && Cumulated([], start) == start
  {
  }

  /** Keys of layers get their number plus this shift, the others still have none. */
  ghost predicate ShiftedBy(stage: Stage, global: Stage, shift: nat) {
    && |global| == |stage|
    && forall k :: 0 <= k < |stage| ==>
         if stage[k].Some? then global[k] == Some(shift + stage[k].value) else global[k].None?
  }

  /** The place of chunk v of rank r among n ranks. */
  function Flat(n: nat, v: nat, r: nat): nat { v * n + r }

  lemma FlatFits(n: nat, chunks: nat, v: nat, r: nat)
    requires v < chunks && r < n
    ensures Flat(n, v, r) < Flat(n, chunks, 0)
  {
    MulMono(v + 1, chunks, n);
    assert (v + 1) * n == v * n + n;
  }

  /** Stage number i has been shifted by its shift, which the stage after it exceeds by what was counted:
      one layer more than the highest number in the stage. */
  ghost predicate StageInOrder(merged: seq<Stage>, shifts: seq<nat>, stage: Stage, i: int) {
    && 0 <= i < |merged| && i + 1 < |shifts|
    && ShiftedBy(stage, merged[i], shifts[i]) && shifts[i + 1] == shifts[i] + Handled(stage) + 1
  }

  /** Chunk by chunk, and within a chunk rank by rank, every stage is there and has been shifted by `start`
      and what was counted for the stages before it. */
  ghost predicate MergedInOrder(merged: seq<Stage>, shifts: seq<nat>, lists: seq<seq<Stage>>, chunks: nat, start: nat)
    requires forall r :: 0 <= r < |lists| ==> |lists[r]| == chunks
  {
    && |merged| == chunks * |lists| && |shifts| == |merged| + 1 && shifts[0] == start
    && forall v, r :: 0 <= v < chunks && 0 <= r < |lists| ==> StageInOrder(merged, shifts, lists[r][v], v * |lists| + r)
  }

  lemma {:induction false} MergeOrderAt(lists: seq<seq<Stage>>, chunks: nat)
    requires forall r :: 0 <= r < |lists| ==> chunks <= |lists[r]|
    ensures |MergeOrder(lists, chunks)| == Flat(|lists|, chunks, 0)
    ensures forall v, r :: 0 <= v < chunks && 0 <= r < |lists| ==>
      Flat(|lists|, v, r) < |MergeOrder(lists, chunks)| && MergeOrder(lists, chunks)[Flat(|lists|, v, r)] == lists[r][v]
  {
    if chunks > 0 {
      var n, before := |lists|, MergeOrder(lists, chunks - 1);
      MergeOrderAt(lists, chunks - 1);
      assert Flat(n, chunks, 0) == Flat(n, chunks - 1, 0) + n;
      forall v, r | 0 <= v < chunks && 0 <= r < n
        ensures Flat(n, v, r) < |MergeOrder(lists, chunks)| && MergeOrder(lists, chunks)[Flat(n, v, r)] == lists[r][v]
      {
        if v < chunks - 1 {
          FlatFits(n, chunks - 1, v, r);
        } else {
          assert Flat(n, v, r) == |before| + r;
        }
      }
    }
  }

  /** The shift of every stage, and of one that would come next. */
  ghost function Shifts(order: seq<Stage>, start: nat): seq<nat> {
    seq(|order| + 1, i requires 0 <= i <= |order| => Cumulated(order[..i], start))
  }

  lemma ShiftsStart(order: seq<Stage>, start: nat)
    ensures |Renumbered(order, start)| == |order| && |Shifts(order, start)| == |order| + 1 && Shifts(order, start)[0] == start
  {
    assert order[..0] == [];
    if order != [] {
      RenumberedAt(order, start, 0);
    }
  }

  lemma ShiftsNext(order: seq<Stage>, start: nat, i: nat)
    requires i < |order|
    ensures |Renumbered(order, start)| == |order| && |Shifts(order, start)| == |order| + 1
    ensures StageInOrder(Renumbered(order, start), Shifts(order, start), order[i], i)
  {
    hide Renumbered, Cumulated;
    RenumberedAt(order, start, i);
    assert order[..i + 1] == order[..i] + [order[i]];
    CumulatedAppend(order[..i], order[i], start);
  }

  lemma FlatIs(n: nat, v: nat, r: nat)
    ensures Flat(n, v, r) == v * n + r
  {
  }

  lemma RenumberedInOrder(lists: seq<seq<Stage>>, chunks: nat, start: nat) returns (shifts: seq<nat>)
    requires forall r :: 0 <= r < |lists| ==> |lists[r]| == chunks
    ensures MergedInOrder(Renumbered(MergeOrder(lists, chunks), start), shifts, lists, chunks, start)
  {
    hide MergeOrder, Renumbered, Flat, Shifts, StageInOrder;
    var order := MergeOrder(lists, chunks);
    MergeOrderAt(lists, chunks);
    shifts := Shifts(order, start);
    ShiftsStart(order, start);
    FlatIs(|lists|, chunks, 0);
    forall v, r | 0 <= v < chunks && 0 <= r < |lists|
      ensures StageInOrder(Renumbered(order, start), shifts, lists[r][v], v * |lists| + r)
    {
      FlatIs(|lists|, v, r);
      ShiftsNext(order, start, Flat(|lists|, v, r));
    }
  }

  /** The merge of all chunks of all ranks; `start` is 0 in the legacy merger, which merges all ranks,
      and the layers of earlier ranks in the distributed one, which merges its own chunks. */
  method MergeStateDicts(lists: seq<seq<Stage>>, chunks: nat, start: nat) returns (merged: seq<Stage>, ghost shifts: seq<nat>)
    requires forall r :: 0 <= r < |lists| ==> |lists[r]| == chunks
    ensures MergedInOrder(merged, shifts, lists, chunks, start)
    ensures merged == Renumbered(MergeOrder(lists, chunks), start)
  {
    hide Renumbered, Cumulated, Shifted, Handled, MergedInOrder;
    merged := [];
    var layersCum := start;
    NoStages(start);
    for v := 0 to chunks
      invariant merged == Renumbered(MergeOrder(lists, v), start) && layersCum == Cumulated(MergeOrder(lists, v), start)
    {
      ghost var done := MergeOrder(lists, v);
      ghost var order := ChunkOf(lists, v);
      assert done + order[..0] == done;
      for r := 0 to |lists|
        invariant merged == Renumbered(done + order[..r], start) && layersCum == Cumulated(done + order[..r], start)
      {
        var stage, handled := MergeStage(lists[r][v], layersCum);
        merged := merged + [stage];
        assert done + order[..r + 1] == done + order[..r] + [order[r]];
        CumulatedAppend(done + order[..r], order[r], start);
        layersCum := layersCum + handled + 1;
      }
      assert order[..|lists|] == order;
    }
    shifts := RenumberedInOrder(lists, chunks, start);
  }

  method MergeStage(stage: Stage, layersCum: nat) returns (global: Stage, handled: nat)
    ensures global == Shifted(stage, layersCum) && handled == Handled(stage)
  {
    global, handled := [], 0;
    for k := 0 to |stage|
      invariant global == Shifted(stage[..k], layersCum) && handled == Handled(stage[..k])
    {
      assert stage[..k + 1][..k] == stage[..k];
      if stage[k].Some? {
        handled := Max(stage[k].value, handled);
        global := global + [Some(stage[k].value + layersCum)];
      } else {
        global := global + [None];
      }
    }
    assert stage[..|stage|] == stage;
  }

  // ---------------------------------------------------------------- when are the numbers right?

  /** A stage of n layers, numbered from zero. */
  ghost predicate HasLayers(stage: Stage, n: nat) {
    forall x: nat :: Some(x) in stage <==> x < n
  }

  lemma {:induction false} HandledIsMax(stage: Stage)
    ensures forall x: nat :: Some(x) in stage ==> x <= Handled(stage)
    ensures Handled(stage) == 0 || Some(Handled(stage)) in stage
  {
    if stage != [] {
      HandledIsMax(stage[..|stage| - 1]);
      assert stage == stage[..|stage| - 1] + [stage[|stage| - 1]];
    }
  }

  /** A stage without layers is counted as if it had one. */
  lemma HandledCounts(stage: Stage, n: nat)
    requires HasLayers(stage, n)
    ensures Handled(stage) + 1 == Max(n, 1)
  {
    HandledIsMax(stage);
    if n > 0 {
      assert Some(n - 1) in stage;
    }
  }

  function Total(counts: seq<nat>): nat {
    if counts == [] then 0 else Total(counts[..|counts| - 1]) + counts[|counts| - 1]
  }

  ghost predicate StagesHave(stages: seq<Stage>, counts: seq<nat>) {
    |stages| == |counts| && forall i :: 0 <= i < |stages| ==> HasLayers(stages[i], counts[i])
  }

  /** Every layer of every stage gets its own number plus the number of layers before its stage. */
  ghost predicate NumbersRight(stages: seq<Stage>, counts: seq<nat>, start: nat) {
    && |Renumbered(stages, start)| == |stages| == |counts|
    && forall i :: 0 <= i < |stages| ==> ShiftedBy(stages[i], Renumbered(stages, start)[i], start + Total(counts[..i]))
  }

  lemma {:induction false} CumulatedExcess(stages: seq<Stage>, counts: seq<nat>, start: nat)
    requires StagesHave(stages, counts)
    ensures Cumulated(stages, start) >= start + Total(counts)
    ensures Cumulated(stages, start) == start + Total(counts) <==> forall i :: 0 <= i < |counts| ==> counts[i] > 0
  {
    if stages != [] {
      var n := |stages| - 1;
      CumulatedExcess(stages[..n], counts[..n], start);
      HandledCounts(stages[n], counts[n]);
    }
  }

  /** The number of a stage's first layer is the number of layers before it. */
  lemma StageRightIff(stages: seq<Stage>, counts: seq<nat>, start: nat, j: nat)
    requires StagesHave(stages, counts) && j < |stages|
    ensures |Renumbered(stages, start)| == |stages|
    ensures ShiftedBy(stages[j], Renumbered(stages, start)[j], start + Total(counts[..j]))
            <==> counts[j] == 0 || forall i :: 0 <= i < j ==> counts[i] > 0
  {
    hide Renumbered, Cumulated, Total;
    RenumberedAt(stages, start, j);
    CumulatedExcess(stages[..j], counts[..j], start);
    assert forall i :: 0 <= i < j ==> counts[..j][i] == counts[i];
    ShiftIsRight(stages[j], counts[j], Cumulated(stages[..j], start), start + Total(counts[..j]));
  }

  lemma ShiftIsRight(stage: Stage, count: nat, used: nat, right: nat)
    requires HasLayers(stage, count)
    ensures ShiftedBy(stage, Shifted(stage, used), right) <==> count == 0 || used == right
  {
    if count > 0 {
      assert Some(0) in stage;
    }
  }

  /** All layers get their true global numbers exactly when no stage without layers comes before one
      with layers. */
  lemma NumbersRightIff(stages: seq<Stage>, counts: seq<nat>, start: nat)
    requires StagesHave(stages, counts)
    ensures NumbersRight(stages, counts, start) <==> forall i, j :: 0 <= i < j < |counts| && counts[j] > 0 ==> counts[i] > 0
  {
    hide Renumbered, Total, ShiftedBy;
    if stages != [] {
      StageRightIff(stages, counts, start, 0);
    } else {
      NoStages(start);
    }
    forall j | 0 <= j < |counts|
      ensures ShiftedBy(stages[j], Renumbered(stages, start)[j], start + Total(counts[..j]))
              <==> counts[j] == 0 || forall i :: 0 <= i < j ==> counts[i] > 0
    {
      StageRightIff(stages, counts, start, j);
    }
  }

  lemma {:induction false} RenumberedAt(stages: seq<Stage>, start: nat, i: nat)
    requires i < |stages|
    ensures |Renumbered(stages, start)| == |stages|
    ensures Renumbered(stages, start)[i] == Shifted(stages[i], Cumulated(stages[..i], start))
    decreases |stages|
  {
    var n := |stages| - 1;
    if i < n {
      RenumberedAt(stages[..n], start, i);
      assert stages[..n][..i] == stages[..i];
    } else if n > 0 {
      RenumberedAt(stages[..n], start, 0);
    }
  }

  // ---------------------------------------------------------------- tiling

  /** Where item g lies when the parts have these sizes. */
  function Place(counts: seq<nat>, g: nat): (p: (nat, nat))
    requires g < Total(counts)
    ensures p.0 < |counts| && p.1 < counts[p.0]
  {
    var n := |counts| - 1;
    if g < Total(counts[..n]) then Place(counts[..n], g) else (n, g - Total(counts[..n]))
  }

  lemma {:induction false} TotalGrows(counts: seq<nat>, i: nat)
    requires i < |counts|
    ensures Total(counts[..i]) + counts[i] == Total(counts[..i + 1]) <= Total(counts)
    decreases |counts|
  {
    assert counts[..i + 1][..i] == counts[..i];
    var n := |counts| - 1;
    if i < n {
      TotalGrows(counts[..n], i);
      assert counts[..n][..i + 1] == counts[..i + 1];
    } else {
      assert counts[..n + 1] == counts;
    }
  }

  lemma PlaceInRange(counts: seq<nat>, r: nat, i: nat)
    requires r < |counts| && i < counts[r]
    ensures Total(counts[..r]) + i < Total(counts)
  {
    TotalGrows(counts, r);
  }

  /** Every global number belongs to one part and one local number, and only to that. */
  lemma {:induction false} PlaceIsUnique(counts: seq<nat>, g: nat, r: nat, i: nat)
    requires g < Total(counts) && r < |counts|
    ensures i < counts[r] && Total(counts[..r]) + i == g <==> (r, i) == Place(counts, g)
    decreases |counts|
  {
    var n := |counts| - 1;
    TotalGrows(counts, r);
    if r < n {
      TotalGrows(counts[..n], r);
      assert counts[..n][..r] == counts[..r] && counts[..n][..r + 1] == counts[..r + 1];
    }
    if g < Total(counts[..n]) {
      if r < n {
        PlaceIsUnique(counts[..n], g, r, i);
      }
    }
  }

  lemma ShiftedHas(stage: Stage, count: nat, shift: nat, g: nat)
    requires HasLayers(stage, count)
    ensures Some(g) in Shifted(stage, shift) <==> shift <= g < shift + count
  {
    var shifted := Shifted(stage, shift);
    if Some(g) in shifted {
      var k :| 0 <= k < |shifted| && shifted[k] == Some(g);
      assert stage[k] == Some((g - shift) as nat);
    }
    if shift <= g < shift + count {
      assert Some((g - shift) as nat) in stage;
      var k :| 0 <= k < |stage| && stage[k] == Some((g - shift) as nat);
      assert shifted[k] == Some(g);
    }
  }

  /** The distributed merge: one chunk per rank, each rank starting at the layers of the ranks before.
      Over all ranks the global layer numbers are disjoint, cover all layers and give nothing else. */
  lemma GlobalLayersTile(stages: seq<Stage>, counts: seq<nat>, g: nat, r: nat)
    requires StagesHave(stages, counts) && r < |stages|
    ensures |Renumbered([stages[r]], Total(counts[..r]))| == 1
    ensures Some(g) in Renumbered([stages[r]], Total(counts[..r]))[0] <==> g < Total(counts) && r == Place(counts, g).0
  {
    hide Renumbered, Cumulated, Shifted;
    var start := Total(counts[..r]);
    var own: seq<Stage> := [stages[r]];
    assert own[..0] == [];
    RenumberedAt(own, start, 0);
    NoStages(start);
    ShiftedHas(stages[r], counts[r], start, g);
    if g < Total(counts) {
      if g >= start {
        PlaceIsUnique(counts, g, r, g - start);
      }
      PlaceIsUnique(counts, g, Place(counts, g).0, Place(counts, g).1);
    } else if start <= g < start + counts[r] {
      PlaceInRange(counts, r, g - start);
    }
  }

  /** The number of the i-th file a rank writes, from 1. */
  function FileNumber(counts: seq<nat>, perLayer: nat, rank: nat, i: nat): nat
    requires rank <= |counts|
  {
    Total(counts[..rank]) * perLayer + i + 1
  }

  lemma FileInRange(total: nat, perLayer: nat, f: nat)
    requires 0 < perLayer && 1 <= f <= total * perLayer
    ensures (f - 1) / perLayer < total
  {
    var g := (f - 1) / perLayer;
    assert g * perLayer <= f - 1;
    MulCancel(g, total, perLayer);
  }

  /** Over all ranks the file numbers are disjoint and are those from 1 to the total: file f is written
      once, by the rank that has its layer, if it is in that range, and by nobody otherwise. */
  lemma FileNumbersTile(counts: seq<nat>, perLayer: nat, f: nat, r: nat, i: nat)
    requires 0 < perLayer && r < |counts|
    ensures 1 <= f <= Total(counts) * perLayer ==> (f - 1) / perLayer < Total(counts)
    ensures i < counts[r] * perLayer && FileNumber(counts, perLayer, r, i) == f <==>
            && 1 <= f <= Total(counts) * perLayer
            && var p := Place(counts, (f - 1) / perLayer); r == p.0 && i == p.1 * perLayer + (f - 1) % perLayer
  {
    if 1 <= f <= Total(counts) * perLayer {
      FileInRange(Total(counts), perLayer, f);
      FileBelongs(counts, perLayer, f, r, i);
    } else if i < counts[r] * perLayer {
      TotalGrows(counts, r);
      FileBelow(Total(counts[..r]), counts[r], Total(counts), perLayer, i);
    }
  }

  lemma FileBelow(before: nat, count: nat, total: nat, perLayer: nat, i: nat)
    requires i < count * perLayer && before + count <= total
    ensures before * perLayer + i + 1 <= total * perLayer
  {
    MulMono(before + count, total, perLayer);
  }

  lemma FileBelongs(counts: seq<nat>, perLayer: nat, f: nat, r: nat, i: nat)
    requires 0 < perLayer && 1 <= f && (f - 1) / perLayer < Total(counts) && r < |counts|
    ensures var p := Place(counts, (f - 1) / perLayer);
            i < counts[r] * perLayer && FileNumber(counts, perLayer, r, i) == f <==>
            r == p.0 && i == p.1 * perLayer + (f - 1) % perLayer
  {
    hide Total, Place;
    var g, rem := (f - 1) / perLayer, (f - 1) % perLayer;
    var layer, a, q := Place(counts, g).1, Total(counts[..r]), i / perLayer;
    InPart(i, perLayer, counts[r]);
    SumScaled(a, i, perLayer, f - 1);
    PlaceIsUnique(counts, g, r, q);
    assert i == layer * perLayer + rem <==> q == layer && i % perLayer == rem by {
      if i == layer * perLayer + rem {
        DivUnique(i, perLayer, layer, rem);
      }
    }
  }

  lemma InPart(i: nat, k: nat, n: nat)
    requires 0 < k
    ensures i < n * k <==> i / k < n
  {
    var q := i / k;
    assert q * k <= i < (q + 1) * k == q * k + k;
    if i < n * k {
      MulCancel(q, n, k);
    } else {
      MulCancel(n, q + 1, k);
    }
  }

  lemma SumScaled(a: nat, i: nat, k: nat, x: nat)
    requires 0 < k
    ensures a * k + i == x <==> a + i / k == x / k && i % k == x % k
    ensures i == i / k * k + i % k
  {
    assert (a + i / k) * k == a * k + i / k * k;
    DivUnique(a * k + i, k, a + i / k, i % k);
  }
}
