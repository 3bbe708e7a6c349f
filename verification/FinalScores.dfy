/** Advantages of multi-output agent loops (verl/trainer/main_ppo_sync.py, `compute_advantage_for_multi_trajectories`):
    group advantages are computed on the final output of each session and scattered to all its rows. */
module FinalScores {
  import opened Outcomes
  import opened SessionKeys

  /** A row of the response mask: zeros and ones, at least one column. */
  type Mask = seq<nat>

  ghost predicate IsMask(m: Mask) { |m| > 0 && forall x <- m :: x <= 1 }

  /** The row that represents a session: the highest index, the earliest row on a tie. */
  function Best(rows: seq<Row>, session: string): (b: Option<nat>)
    ensures b.Some? ==> b.value < |rows|
  {
    if rows == [] then None
    else
      var n := |rows| - 1;
      var b := Best(rows[..n], session);
      if rows[n].session == session && (b.None? || rows[b.value].index < rows[n].index) then Some(n) else b
  }

  lemma {:induction false} BestIsHighest(rows: seq<Row>, session: string)
    ensures Best(rows, session).None? <==> forall r <- rows :: r.session != session
    ensures Best(rows, session).Some? ==>
              var b := Best(rows, session).value;
              && rows[b].session == session
              && (forall i :: 0 <= i < |rows| && rows[i].session == session ==> rows[i].index <= rows[b].index)
              && (forall i :: 0 <= i < b && rows[i].session == session ==> rows[i].index < rows[b].index)
  {
    if rows != [] {
      var n := |rows| - 1;
      BestIsHighest(rows[..n], session);
      assert rows == rows[..n] + [rows[n]];
    }
  }

  /** The sessions in the order in which they first appear, which is the order of a dictionary. */
  function Sessions(rows: seq<Row>): seq<string> {
    if rows == [] then []
    else
      var n := |rows| - 1;
      var before := Sessions(rows[..n]);
      if rows[n].session in before then before else before + [rows[n].session]
  }

  lemma {:induction false} SessionsOnce(rows: seq<Row>)
    ensures forall s :: s in Sessions(rows) <==> exists r <- rows :: r.session == s
    ensures forall i, j :: 0 <= i < j < |Sessions(rows)| ==> Sessions(rows)[i] != Sessions(rows)[j]
  {
    if rows != [] {
      var n := |rows| - 1;
      SessionsOnce(rows[..n]);
      assert rows == rows[..n] + [rows[n]];
    }
  }

  /** The sessions are listed in the order of their first rows. */
  lemma {:induction false} SessionsInOrder(rows: seq<Row>, j: nat, k: nat, i: nat)
    requires j < k < |Sessions(rows)| && i < |rows| && rows[i].session == Sessions(rows)[k]
    ensures exists h :: 0 <= h < i && rows[h].session == Sessions(rows)[j]
    decreases |rows|
  {
    var n := |rows| - 1;
    var before := Sessions(rows[..n]);
    SessionsOnce(rows[..n]);
    SessionsOnce(rows);
    if i < n {
      assert rows[..n][i] in rows[..n];
      SessionsInOrder(rows[..n], j, k, i);
      var h :| 0 <= h < i && rows[..n][h].session == before[j];
      assert rows[h].session == Sessions(rows)[j];
    } else {
      assert before[j] in before;
      var r :| r in rows[..n] && r.session == before[j];
      var h :| 0 <= h < n && rows[..n][h] == r;
      assert rows[h].session == Sessions(rows)[j];
    }
  }

  // ---------------------------------------------------------------- the scores

  function Scaled(score: real, mask: Mask): seq<real> {
    seq(|mask|, c requires 0 <= c < |mask| => score * mask[c] as real)
  }

  /** `argmax` of a mask: its first one, or column 0. */
  function ArgMax(mask: Mask): (c: nat)
    requires |mask| > 0
    ensures c < |mask|
  {
    FirstOne(mask, 0)
  }

  function FirstOne(mask: Mask, from: nat): (c: nat)
    requires from <= |mask| && |mask| > 0
    ensures c < |mask|
    decreases |mask| - from
  {
    if from == |mask| then 0 else if mask[from] == 1 then from else FirstOne(mask, from + 1)
  }

  /** A session's score as it is read back from the advantages of its final output. */
  function FinalScore(score: real, mask: Mask): real
    requires |mask| > 0
  {
    Scaled(score, mask)[ArgMax(mask)]
  }

  lemma {:induction false} FirstOneFinds(mask: Mask, from: nat)
    requires IsMask(mask) && from <= |mask|
    ensures (exists c :: from <= c < |mask| && mask[c] == 1) ==> mask[FirstOne(mask, from)] == 1
    decreases |mask| - from
  {
    if from < |mask| && mask[from] != 1 {
      FirstOneFinds(mask, from + 1);
    }
  }

  /** Reading the score back at the first response token is faithful exactly when the final output has
      a response token (or a zero score). */
  lemma ScoreSurvivesIffResponse(score: real, mask: Mask)
    requires IsMask(mask)
    ensures FinalScore(score, mask) == score <==> 1 in mask || score == 0.0
  {
    ScoreReadBack(score, mask);
  }

  // ---------------------------------------------------------------- the algorithm

  ghost predicate RowsOf(rows: seq<Row>, keys: seq<string>) {
    |rows| == |keys| && forall i :: 0 <= i < |keys| ==> ParseKey(keys[i]) == Some(rows[i])
  }

  ghost predicate Masks(masks: seq<Mask>) { forall i :: 0 <= i < |masks| ==> IsMask(masks[i]) }

  /** One row per session, in the order of the sessions. */
  ghost predicate FinalRows(rows: seq<Row>, finals: seq<nat>) {
    && |finals| == |Sessions(rows)|
    && forall k :: 0 <= k < |finals| ==> finals[k] < |rows| && Best(rows, Sessions(rows)[k]) == Some(finals[k])
  }

  /** The score at the tokens of the response, zero elsewhere. */
  ghost predicate AtResponse(adv: seq<real>, score: real, mask: Mask) {
    |adv| == |mask| && forall c :: 0 <= c < |mask| ==> adv[c] == score * mask[c] as real
  }

  /** Every row has the score of the final row of its session, or zero if that row has no response token,
      at all tokens of its own response. */
  ghost predicate Scattered(rows: seq<Row>, masks: seq<Mask>, finals: seq<nat>, score: (seq<nat>, nat) -> real, adv: seq<seq<real>>)
    requires |rows| == |masks| && FinalRows(rows, finals)
  {
    && |adv| == |rows|
    && (forall i :: 0 <= i < |rows| ==> |adv[i]| == |masks[i]| && HasFinal(rows, finals, i))
    && forall i, k :: 0 <= i < |rows| && 0 <= k < |finals| && rows[finals[k]].session == rows[i].session ==>
         AtResponse(adv[i], if 1 in masks[finals[k]] then score(finals, k) else 0.0, masks[i])
  }

  /** One of the selected rows is of this row's session. */
  ghost predicate HasFinal(rows: seq<Row>, finals: seq<nat>, i: nat)
    requires FinalRows(rows, finals) && i < |rows|
  {
    exists k :: 0 <= k < |finals| && rows[finals[k]].session == rows[i].session
  }

  lemma ScoreReadBack(score: real, mask: Mask)
    requires IsMask(mask)
    ensures FinalScore(score, mask) == if 1 in mask then score else 0.0
  {
    FirstOneFinds(mask, 0);
    var c := ArgMax(mask);
    if 1 in mask {
      assert mask[c] == 1;
    } else {
      assert mask[c] in mask && mask[c] == 0;
    }
  }

  /** `score(finals, k)` is the group-relative score of the k-th selected row. */
  method ComputeAdvantage(keys: seq<string>, masks: seq<Mask>, score: (seq<nat>, nat) -> real)
    returns (r: Result<seq<seq<real>>>, rows: seq<Row>, finals: seq<nat>)
    requires |keys| == |masks| && Masks(masks)
    ensures r.Ok? <==> forall i :: 0 <= i < |keys| ==> ParseKey(keys[i]).Some?
    ensures r.Ok? ==> RowsOf(rows, keys) && FinalRows(rows, finals) && Scattered(rows, masks, finals, score, r.value)
  {
    hide ParseKey, FinalScore, Scaled, Best, Sessions, FinalMap;
    rows, finals := [], [];
    var order: seq<string>, final: map<string, (int, nat)> := [], map[];
    NoRows();
    for i := 0 to |keys|
      invariant RowsOf(rows, keys[..i]) && order == Sessions(rows) && FinalMap(rows, final)
    {
      var row := ParseKey(keys[i]);
      if row.None? { return AssertionFailed, [], []; }
      AddRow(rows, row.value, final);
      FinalEntries(rows, final, row.value.session);
      rows := rows + [row.value];
      if row.value.session !in final {
        order := order + [row.value.session];
        final := final[row.value.session := (row.value.index, i)];
      } else if final[row.value.session].0 < row.value.index {
        final := final[row.value.session := (row.value.index, i)];
      }
    }
    assert keys[..|keys|] == keys;
    var local;
    finals, local := SelectFinals(rows, order, final);
    var adv := Scatter(rows, masks, finals, order, local, score);
    return Ok(adv), rows, finals;
  }

  /** The dictionary of final sessions: for each session of the rows, its best row and that row's index. */
  ghost predicate FinalMap(rows: seq<Row>, final: map<string, (int, nat)>) {
    forall s: string :: FinalEntry(rows, final, s)
  }

  ghost predicate FinalEntry(rows: seq<Row>, final: map<string, (int, nat)>, s: string) {
    if s in final
    then final[s].1 < |rows| && Best(rows, s) == Some(final[s].1) && final[s].0 == rows[final[s].1].index
    else Best(rows, s).None?
  }

  lemma NoRows()
    ensures Sessions([]) == [] && FinalMap([], map[])
  {
  }

  lemma AppendRow(rows: seq<Row>, row: Row, s: string)
    ensures Sessions(rows + [row]) == if row.session in Sessions(rows) then Sessions(rows) else Sessions(rows) + [row.session]
    ensures var b := Best(rows, s);
            Best(rows + [row], s) == if row.session == s && (b.None? || rows[b.value].index < row.index) then Some(|rows|) else b
  {
    assert (rows + [row])[..|rows|] == rows;
  }

  lemma UnseenSession(rows: seq<Row>, s: string)
    ensures s in Sessions(rows) <==> Best(rows, s).Some?
  {
    SessionsOnce(rows);
    BestIsHighest(rows, s);
  }

  lemma AddRow(rows: seq<Row>, row: Row, final: map<string, (int, nat)>)
    requires FinalMap(rows, final)
    ensures row.session in final <==> row.session in Sessions(rows)
    ensures Sessions(rows + [row]) == if row.session in final then Sessions(rows) else Sessions(rows) + [row.session]
    ensures FinalMap(rows + [row], if row.session !in final || final[row.session].0 < row.index
                                   then final[row.session := (row.index, |rows|)] else final)
  {
    hide Best, Sessions, FinalMap;
    assert FinalEntry(rows, final, row.session) by { FinalEntries(rows, final, row.session); }
    UnseenSession(rows, row.session);
    AppendRow(rows, row, row.session);
    var final' := if row.session !in final || final[row.session].0 < row.index
                  then final[row.session := (row.index, |rows|)] else final;
    forall s: string ensures FinalEntry(rows + [row], final', s) {
      FinalEntries(rows, final, s);
      AppendRow(rows, row, s);
    }
    AllEntries(rows + [row], final');
  }

  lemma FinalEntries(rows: seq<Row>, final: map<string, (int, nat)>, s: string)
    requires FinalMap(rows, final)
    ensures FinalEntry(rows, final, s)
  {
  }

  lemma AllEntries(rows: seq<Row>, final: map<string, (int, nat)>)
    requires forall s: string :: FinalEntry(rows, final, s)
    ensures FinalMap(rows, final)
  {
  }

  /** The rows to select, and where each session's row is among them. */
  method SelectFinals(rows: seq<Row>, order: seq<string>, final: map<string, (int, nat)>)
    returns (finals: seq<nat>, local: map<string, nat>)
    requires order == Sessions(rows) && FinalMap(rows, final)
    ensures FinalRows(rows, finals)
    ensures forall k :: 0 <= k < |order| ==> order[k] in local && local[order[k]] == k
  {
    hide Best, Sessions, FinalMap;
    finals, local := [], map[];
    SessionsOnce(rows);
    for k := 0 to |order|
      invariant |finals| == k
      invariant forall j :: 0 <= j < k ==> finals[j] < |rows| && Best(rows, order[j]) == Some(finals[j])
      invariant forall j :: 0 <= j < k ==> order[j] in local && local[order[j]] == j
    {
      UnseenSession(rows, order[k]);
      FinalEntries(rows, final, order[k]);
      finals := finals + [final[order[k]].1];
      local := local[order[k] := |finals| - 1];
    }
  }

  /** The advantages of the final rows, each read back at one token. */
  method ReadFinals(rows: seq<Row>, masks: seq<Mask>, finals: seq<nat>, score: (seq<nat>, nat) -> real)
    returns (finalScores: seq<real>)
    requires |rows| == |masks| && Masks(masks) && FinalRows(rows, finals)
    ensures |finalScores| == |finals|
    ensures forall k :: 0 <= k < |finals| ==> finalScores[k] == if 1 in masks[finals[k]] then score(finals, k) else 0.0
  {
    hide Scaled, Sessions, ArgMax, Best, FinalScore;
    finalScores := [];
    for k := 0 to |finals|
      invariant |finalScores| == k
      invariant forall j :: 0 <= j < k ==> finalScores[j] == if 1 in masks[finals[j]] then score(finals, j) else 0.0
    {
      var mask := masks[finals[k]];
      var advantages := Scaled(score(finals, k), mask);
      ScaledIs(score(finals, k), mask);
      ReadBack(score(finals, k), mask);
      finalScores := finalScores + [advantages[ArgMax(mask)]];
    }
  }

  lemma ReadBack(score: real, mask: Mask)
    requires IsMask(mask)
    ensures |Scaled(score, mask)| == |mask| && Scaled(score, mask)[ArgMax(mask)] == if 1 in mask then score else 0.0
  {
    ScoreReadBack(score, mask);
  }

  /** The final rows' scores, and from them the scores of all rows. */
  method Scatter(rows: seq<Row>, masks: seq<Mask>, finals: seq<nat>, order: seq<string>, local: map<string, nat>,
                 score: (seq<nat>, nat) -> real) returns (adv: seq<seq<real>>)
    requires |rows| == |masks| && Masks(masks) && order == Sessions(rows) && FinalRows(rows, finals)
    requires forall k :: 0 <= k < |order| ==> order[k] in local && local[order[k]] == k
    ensures Scattered(rows, masks, finals, score, adv)
  {
    FinalSessions(rows, finals);
    EachHasFinal(rows, finals);
    hide Scaled, Sessions, ArgMax, Best, AtResponse, HasFinal;
    var finalScores := ReadFinals(rows, masks, finals, score);
    adv := [];
    for i := 0 to |rows|
      invariant |adv| == i && forall j :: 0 <= j < i ==> |adv[j]| == |masks[j]|
      invariant forall j, k :: 0 <= j < i && 0 <= k < |finals| && rows[finals[k]].session == rows[j].session ==>
        AtResponse(adv[j], if 1 in masks[finals[k]] then score(finals, k) else 0.0, masks[j])
    {
      SessionListed(rows, i);
      var k := local[rows[i].session];
      adv := adv + [Scaled(finalScores[k], masks[i])];
      ScaledIs(finalScores[k], masks[i]);
    }
  }

  /** The selected rows are of different sessions, in the order of the sessions. */
  lemma FinalSessions(rows: seq<Row>, finals: seq<nat>)
    requires FinalRows(rows, finals)
    ensures forall k :: 0 <= k < |finals| ==> finals[k] < |rows| && rows[finals[k]].session == Sessions(rows)[k]
    ensures forall j, k :: 0 <= j < k < |finals| ==> rows[finals[j]].session != rows[finals[k]].session
  {
    SessionsOnce(rows);
    forall k | 0 <= k < |finals| ensures rows[finals[k]].session == Sessions(rows)[k] {
      BestIsHighest(rows, Sessions(rows)[k]);
    }
  }

  lemma EachHasFinal(rows: seq<Row>, finals: seq<nat>)
    requires FinalRows(rows, finals)
    ensures forall i :: 0 <= i < |rows| ==> HasFinal(rows, finals, i)
  {
    FinalSessions(rows, finals);
    forall i | 0 <= i < |rows| ensures HasFinal(rows, finals, i) {
      SessionListed(rows, i);
      var k :| 0 <= k < |finals| && Sessions(rows)[k] == rows[i].session;
      assert rows[finals[k]].session == rows[i].session;
    }
  }

  lemma ScaledIs(score: real, mask: Mask)
    ensures AtResponse(Scaled(score, mask), score, mask) && |Scaled(score, mask)| == |mask|
  {
  }

  lemma SessionListed(rows: seq<Row>, i: nat)
    requires i < |rows|
    ensures rows[i].session in Sessions(rows)
  {
    SessionsOnce(rows);
    assert rows[i] in rows;
  }

  // ---------------------------------------------------------------- row order does not matter

  /** The final row of a row's session, in a batch of printed keys with each key once. */
  ghost predicate FinalKey(keys: seq<string>, i: nat, key: string)
  {
    exists rows: seq<Row>, b: nat :: RowsOf(rows, keys) && i < |rows|
      && Best(rows, rows[i].session) == Some(b) && b < |keys| && keys[b] == key
  }

  ghost predicate Printed(keys: seq<string>) {
    forall i :: 0 <= i < |keys| ==> exists u: string, s: nat, n: nat :: keys[i] == PrintKey(u, s, n)
  }

  /** Printed keys that parse alike are the same key. */
  lemma SameRowSameKey(a: string, b: string)
    requires Printed([a, b]) && ParseKey(a) == ParseKey(b)
    ensures a == b
  {
    assert [a, b][0] == a && [a, b][1] == b;
    var u, s, n :| a == PrintKey(u, s, n);
    var u', s', n' :| b == PrintKey(u', s', n');
    ParseUndoesPrint(u, s, n);
    ParseUndoesPrint(u', s', n');
    SessionsAreUnique(u, s, u', s');
  }

  /** Two batches of the same keys in any order: a row takes its score from the same output. */
  lemma FinalKeyIgnoresOrder(keys: seq<string>, keys': seq<string>, i: nat, i': nat, f: string, f': string)
    requires Printed(keys) && Printed(keys') && forall key :: key in keys <==> key in keys'
    requires i < |keys| && i' < |keys'| && keys[i] == keys'[i']
    requires FinalKey(keys, i, f) && FinalKey(keys', i', f')
    ensures f == f'
  {
    hide PrintKey, ParseKey;
    var rows: seq<Row>, b: nat :| RowsOf(rows, keys) && i < |rows|
      && Best(rows, rows[i].session) == Some(b) && b < |keys| && keys[b] == f;
    var rows': seq<Row>, b': nat :| RowsOf(rows', keys') && i' < |rows'|
      && Best(rows', rows'[i'].session) == Some(b') && b' < |keys'| && keys'[b'] == f';
    var session := rows[i].session;
    BestIsHighest(rows, session);
    BestIsHighest(rows', session);
    assert keys[b] in keys' && keys'[b'] in keys;
    var c :| 0 <= c < |keys'| && keys'[c] == keys[b];
    var c' :| 0 <= c' < |keys| && keys[c'] == keys'[b'];
    assert rows'[c] == rows[b] && rows[c'] == rows'[b'];
    assert rows[b] == rows'[b'];
    SameRowSameKey(f, f');
  }
}
