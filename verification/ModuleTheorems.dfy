/** Loading a sharded checkpoint into a module on all ranks (verl/utils/fsdp_utils.py): the collectives
    match, every parameter gets its checkpoint value, and what is left over. */
module ModuleTheorems {
  import opened Outcomes
  import opened ShardLoading
  import opened ModuleInit

  /** The slots `init_fn` fills. */
  function Filled(ms: Modules, root: nat, meta: set<nat>): seq<Visit>
    requires Acyclic(ms) && root < |ms|
  {
    After(ms, Calls(ms, root), [], meta)
  }

  /** The broadcasts, whatever the rank. */
  function Plan(ms: Modules, root: nat, meta: set<nat>): seq<Fqn>
    requires Acyclic(ms) && root < |ms|
  {
    Planned(AllNames(ms, root), Filled(ms, root, meta))
  }

  // ---------------------------------------------------------------- paths, calls and names

  function Mods(paths: seq<(Fqn, nat)>): seq<nat> { seq(|paths|, i requires 0 <= i < |paths| => paths[i].1) }

  lemma ModsConcat(a: seq<(Fqn, nat)>, b: seq<(Fqn, nat)>)
    ensures Mods(a + b) == Mods(a) + Mods(b)
  {
  }

  /** An object is called at most once per path to it, and at least once if there is a path. */
  ghost predicate CalledPerPath(calls: seq<nat>, mods: seq<nat>) {
    multiset(calls) <= multiset(mods) && forall c <- mods :: c in calls
  }

  lemma {:induction false} CallsAndPaths(ms: Modules, m: nat, path: Fqn)
    requires Acyclic(ms) && m < |ms|
    ensures CalledPerPath(Calls(ms, m), Mods(Paths(ms, m, path)))
    decreases m, 1, 0
  {
    DistinctBelow(ms, m);
    var n := |ms[m].children|;
    var below, paths := CallsOf(ms, m, Distinct(ms[m].children)), ChildPaths(ms, m, n, path);
    ChildCallsAndPaths(ms, m, n, path);
    assert ms[m].children[..n] == ms[m].children;
    assert Calls(ms, m) == [m] + below && Paths(ms, m, path) == [(path, m)] + paths;
    hide Calls, Paths, CallsOf, ChildPaths, Distinct;
    ModsConcat([(path, m)], paths);
    assert Mods([(path, m)]) == [m];
    hide Mods;
    MorePaths([m], [m], below, Mods(paths));
  }

  lemma {:induction false} ChildCallsAndPaths(ms: Modules, m: nat, n: nat, path: Fqn)
    requires Acyclic(ms) && m < |ms| && n <= |ms[m].children|
    ensures AllBelow(Distinct(ms[m].children[..n]), m)
    ensures CalledPerPath(CallsOf(ms, m, Distinct(ms[m].children[..n])), Mods(ChildPaths(ms, m, n, path)))
    decreases m, 0, n
  {
    DistinctPrefixBelow(ms, m, n);
    hide Calls, Paths, Distinct, CallsOf, ChildPaths, Mods, CalledPerPath, Acyclic;
    if n == 0 {
      NoChildren(ms, m, path);
    } else {
      var kids, child := ms[m].children, ms[m].children[n - 1];
      DistinctPrefixBelow(ms, m, n - 1);
      NextChild(ms, m, n, path);
      var d, below, paths := Distinct(kids[..n - 1]), ChildPaths(ms, m, n - 1, path), Paths(ms, child.1, path + [child.0]);
      ChildCallsAndPaths(ms, m, n - 1, path);
      CallsAndPaths(ms, child.1, path + [child.0]);
      ModsConcat(below, paths);
      if child.1 in d {
        KidCalled(ms, m, d, child.1);
        SamePaths(CallsOf(ms, m, d), Mods(below), Calls(ms, child.1), Mods(paths));
      } else {
        MorePaths(CallsOf(ms, m, d), Mods(below), Calls(ms, child.1), Mods(paths));
      }
    }
  }

  lemma MorePaths(calls: seq<nat>, mods: seq<nat>, calls': seq<nat>, mods': seq<nat>)
    requires CalledPerPath(calls, mods) && CalledPerPath(calls', mods')
    ensures CalledPerPath(calls + calls', mods + mods')
  {
  }

  lemma SamePaths(calls: seq<nat>, mods: seq<nat>, calls': seq<nat>, mods': seq<nat>)
    requires CalledPerPath(calls, mods) && CalledPerPath(calls', mods') && forall c <- calls' :: c in calls
    ensures CalledPerPath(calls, mods + mods')
  {
  }

  lemma DistinctPrefixBelow(ms: Modules, m: nat, n: nat)
    requires Acyclic(ms) && m < |ms| && n <= |ms[m].children|
    ensures AllBelow(Distinct(ms[m].children[..n]), m)
  {
    var kids := Distinct(ms[m].children[..n]);
    DistinctMembers(ms[m].children[..n]);
    forall i | 0 <= i < |kids| ensures kids[i] < m {
      assert kids[i] in kids;
    }
  }

  lemma NoChildren(ms: Modules, m: nat, path: Fqn)
    requires Acyclic(ms) && m < |ms|
    ensures Distinct(ms[m].children[..0]) == [] && CallsOf(ms, m, []) == [] && Mods(ChildPaths(ms, m, 0, path)) == []
    ensures CalledPerPath([], [])
  {
  }

  lemma NextChild(ms: Modules, m: nat, n: nat, path: Fqn)
    requires Acyclic(ms) && m < |ms| && 0 < n <= |ms[m].children|
    requires AllBelow(Distinct(ms[m].children[..n]), m) && AllBelow(Distinct(ms[m].children[..n - 1]), m)
    ensures var child, d := ms[m].children[n - 1], Distinct(ms[m].children[..n - 1]);
            && child.1 < m
            && ChildPaths(ms, m, n, path) == ChildPaths(ms, m, n - 1, path) + Paths(ms, child.1, path + [child.0])
            && Distinct(ms[m].children[..n]) == (if child.1 in d then d else d + [child.1])
            && (child.1 !in d ==> CallsOf(ms, m, Distinct(ms[m].children[..n])) == CallsOf(ms, m, d) + Calls(ms, child.1))
  {
    hide Calls, Paths;
    var kids, d := ms[m].children, Distinct(ms[m].children[..n - 1]);
    assert kids[..n][..n - 1] == kids[..n - 1];
    assert (d + [kids[n - 1].1])[..|d|] == d;
  }

  lemma {:induction false} KidCalled(ms: Modules, m: nat, kids: seq<nat>, kid: nat)
    requires Acyclic(ms) && m < |ms| && AllBelow(kids, m) && kid in kids
    ensures forall c <- Calls(ms, kid) :: c in CallsOf(ms, m, kids)
    decreases |kids|
  {
    hide Calls;
    var n := |kids| - 1;
    if kid != kids[n] {
      assert kid in kids[..n];
      KidCalled(ms, m, kids[..n], kid);
    }
  }

  lemma NamesAtNext(ms: Modules, paths: seq<(Fqn, nat)>, p: nat, params: bool)
    requires (forall j :: 0 <= j < |paths| ==> paths[j].1 < |ms|) && p < |paths|
    ensures NamesAt(ms, paths[..p + 1], params) == NamesAt(ms, paths[..p], params) + SlotNames(ms[paths[p].1], paths[p], params)
    ensures |SlotNames(ms[paths[p].1], paths[p], params)| == |SlotsOf(ms[paths[p].1], params)|
  {
    assert paths[..p + 1][..p] == paths[..p];
  }

  lemma {:induction false} NamesGrow(ms: Modules, paths: seq<(Fqn, nat)>, params: bool, i: nat, j: nat) returns (more: seq<Name>)
    requires (forall p :: 0 <= p < |paths| ==> paths[p].1 < |ms|) && i <= j <= |paths|
    ensures NamesAt(ms, paths[..j], params) == NamesAt(ms, paths[..i], params) + more
    decreases j - i
  {
    hide NamesAt, SlotNames;
    more := [];
    if i < j {
      more := NamesGrow(ms, paths, params, i, j - 1);
      NamesAtNext(ms, paths, j - 1, params);
      more := more + SlotNames(ms[paths[j - 1].1], paths[j - 1], params);
    }
  }

  /** Where the k-th slot at the p-th path is among the names. */
  lemma NameIndex(ms: Modules, paths: seq<(Fqn, nat)>, p: nat, params: bool, k: nat) returns (i: nat)
    requires (forall j :: 0 <= j < |paths| ==> paths[j].1 < |ms|) && p < |paths| && k < |SlotsOf(ms[paths[p].1], params)|
    ensures i == |NamesAt(ms, paths[..p], params)| + k < |NamesAt(ms, paths[..p + 1], params)| <= |NamesAt(ms, paths, params)|
    ensures NamesAt(ms, paths, params)[i] == SlotNames(ms[paths[p].1], paths[p], params)[k]
  {
    NamesAtNext(ms, paths, p, params);
    hide NamesAt, SlotNames;
    i := |NamesAt(ms, paths[..p], params)| + k;
    var more := NamesGrow(ms, paths, params, p + 1, |paths|);
    assert paths[..|paths|] == paths;
  }

  /** Every name comes from a slot at a path. */
  lemma {:induction false} NameOrigin(ms: Modules, paths: seq<(Fqn, nat)>, params: bool, i: nat) returns (p: nat, k: nat)
    requires (forall j :: 0 <= j < |paths| ==> paths[j].1 < |ms|) && i < |NamesAt(ms, paths, params)|
    ensures p < |paths| && k < |SlotsOf(ms[paths[p].1], params)|
    ensures NamesAt(ms, paths, params)[i] == SlotNames(ms[paths[p].1], paths[p], params)[k]
    decreases |paths|
  {
    var n := |paths| - 1;
    if i < |NamesAt(ms, paths[..n], params)| {
      p, k := NameOrigin(ms, paths[..n], params, i);
    } else {
      p, k := n, i - |NamesAt(ms, paths[..n], params)|;
    }
  }

  /** A slot of the k-th kind at a path, as an index into all names. */
  lemma SlotIsNamed(ms: Modules, root: nat, p: nat, params: bool, k: nat) returns (i: nat)
    requires Acyclic(ms) && root < |ms| && p < |Paths(ms, root, [])|
    requires k < |SlotsOf(ms[Paths(ms, root, [])[p].1], params)|
    ensures i < |AllNames(ms, root)|
    ensures var m := Paths(ms, root, [])[p].1;
            AllNames(ms, root)[i].spot == Spot(m, params, k) && AllNames(ms, root)[i].state == SlotsOf(ms[m], params)[k].state
    ensures var paths := Paths(ms, root, []); var from := if params then 0 else |NamesAt(ms, paths, true)|;
            from + |NamesAt(ms, paths[..p], params)| <= i < from + |NamesAt(ms, paths[..p + 1], params)|
  {
    hide Paths, NamesAt;
    i := NameIndex(ms, Paths(ms, root, []), p, params, k);
    if !params { i := i + |NamesAt(ms, Paths(ms, root, []), true)|; }
  }

  /** Every name's slot belongs to an object that is called. */
  lemma NamedIsCalled(ms: Modules, root: nat, i: nat)
    requires Acyclic(ms) && root < |ms| && i < |AllNames(ms, root)|
    ensures var n := AllNames(ms, root)[i];
            && n.spot.m in Calls(ms, root) && n.spot.m < |ms| && n.spot.k < |SlotsOf(ms[n.spot.m], n.spot.isParam)|
            && n.state == SlotsOf(ms[n.spot.m], n.spot.isParam)[n.spot.k].state
  {
    hide Paths, NamesAt, Calls;
    var paths := Paths(ms, root, []);
    CallsAndPaths(ms, root, []);
    var params, from := |NamesAt(ms, paths, true)| > i, |NamesAt(ms, paths, true)|;
    var p, k := NameOrigin(ms, paths, params, if params then i else i - from);
    assert Mods(paths)[p] == paths[p].1;
  }

  lemma CalledIsNamed(ms: Modules, root: nat, m: nat, params: bool, k: nat) returns (i: nat)
    requires Acyclic(ms) && root < |ms| && m in Calls(ms, root) && m < |ms| && k < |SlotsOf(ms[m], params)|
    ensures i < |AllNames(ms, root)| && AllNames(ms, root)[i].spot == Spot(m, params, k)
    ensures AllNames(ms, root)[i].state == SlotsOf(ms[m], params)[k].state
  {
    hide Paths, Calls, AllNames;
    var mods := Mods(Paths(ms, root, []));
    CallsAndPaths(ms, root, []);
    assert m in multiset(Calls(ms, root));
    assert m in mods;
    var p :| 0 <= p < |mods| && mods[p] == m;
    i := SlotIsNamed(ms, root, p, params, k);
  }

  lemma RootIsCovered(ms: Modules, root: nat)
    requires Acyclic(ms) && root < |ms|
    ensures AllCovered(ms, Calls(ms, root), AllNames(ms, root))
  {
    hide AllNames, Calls;
    var calls, all := Calls(ms, root), AllNames(ms, root);
    forall i, v, params: bool | 0 <= i < |calls| && v in OwnSlots(ms, calls[i], params) ensures Listed(v, all) {
      var k :| 0 <= k < |SlotsOf(ms[calls[i]], params)| && OwnSlots(ms, calls[i], params)[k] == v;
      var j := CalledIsNamed(ms, root, calls[i], params, k);
    }
  }

  // ---------------------------------------------------------------- which slots are filled

  /** How many slots before the k-th hold the same tensor. */
  function Rank(slots: seq<Slot>, k: nat): nat
    requires k < |slots|
  {
    RankBelow(slots, k, slots[k].state)
  }

  function RankBelow(slots: seq<Slot>, k: nat, state: nat): nat
    requires k <= |slots|
  {
    if k == 0 then 0 else RankBelow(slots, k - 1, state) + (if slots[k - 1].state == state then 1 else 0)
  }

  lemma {:induction false} RankGrows(slots: seq<Slot>, j: nat, k: nat)
    requires j < k <= |slots|
    ensures RankBelow(slots, j, slots[j].state) + 1 <= RankBelow(slots, k, slots[j].state)
    decreases k
  {
    if j + 1 < k {
      RankGrows(slots, j, k - 1);
    }
  }

  lemma {:induction false} RankTaken(slots: seq<Slot>, k: nat, state: nat, r: nat) returns (j: nat)
    requires k <= |slots| && r < RankBelow(slots, k, state)
    ensures j < k && slots[j].state == state && RankBelow(slots, j, state) == r
    decreases k
  {
    if slots[k - 1].state == state && RankBelow(slots, k - 1, state) == r {
      j := k - 1;
    } else {
      j := RankTaken(slots, k - 1, state, r);
    }
  }

  lemma {:induction false} YieldedAt(vs: seq<Visit>, filled: set<Spot>, k: nat)
    requires DifferentSpots(vs) && k < |vs|
    ensures vs[k] in Yielded(vs, filled) <==> !(exists j :: 0 <= j < k && SameTensor(vs[j], vs[k], filled))
    decreases |vs|
  {
    var n := |vs| - 1;
    YieldedMembers(vs[..n], filled);
    if k < n {
      YieldedAt(vs[..n], filled, k);
      assert vs[..n][k] == vs[k];
      assert forall j :: 0 <= j < k ==> vs[..n][j] == vs[j];
    } else {
      assert vs[n] !in vs[..n];
    }
  }

  /** One call fills, of the unfilled slots with one tensor, the first. */
  lemma CallFills(ms: Modules, m: nat, filled: set<Spot>, meta: set<nat>, params: bool, k: nat)
    requires m < |ms| && k < |SlotsOf(ms[m], params)|
    ensures var vs := OwnSlots(ms, m, params);
            Spot(m, params, k) in SpotsOf(OnMeta(Looked(ms, m, filled), filled, meta)) <==>
            IsMeta(vs[k], filled, meta) && !(exists j :: 0 <= j < k && SameTensor(vs[j], vs[k], filled))
  {
    var vs, others := OwnSlots(ms, m, params), OwnSlots(ms, m, !params);
    var looked := Looked(ms, m, filled);
    YieldedAt(vs, filled, k);
    YieldedMembers(vs, filled);
    YieldedMembers(others, filled);
    OnMetaMembers(looked, filled, meta);
    hide Yielded, SameTensor, OnMeta;
    assert forall j :: 0 <= j < |others| ==> others[j].spot.isParam != params;
    forall v | v in looked && v.spot == Spot(m, params, k) ensures v == vs[k] {
      assert v !in others;
      var j :| 0 <= j < |vs| && vs[j] == v;
    }
    assert vs[k] in looked <==> vs[k] in Yielded(vs, filled);
  }

  /** After n calls on an object exactly the first n slots of each tensor are filled. */
  lemma {:induction false} FilledByRank(ms: Modules, calls: seq<nat>, meta: set<nat>, m: nat, params: bool, k: nat)
    requires AllBelow(calls, |ms|) && m < |ms| && k < |SlotsOf(ms[m], params)| && SlotsOf(ms[m], params)[k].state in meta
    ensures Spot(m, params, k) in SpotsOf(After(ms, calls, [], meta)) <==> Rank(SlotsOf(ms[m], params), k) < multiset(calls)[m]
    decreases |calls|
  {
    hide Looked, OnMeta;
    if calls != [] {
      var n := |calls| - 1;
      var c, slots := calls[n], SlotsOf(ms[m], params);
      var before := After(ms, calls[..n], [], meta);
      var filled := SpotsOf(before);
      var more := OnMeta(Looked(ms, c, filled), filled, meta);
      assert calls == calls[..n] + [c];
      SpotsConcat(before, more);
      forall j | 0 <= j <= k && slots[j].state == slots[k].state
        ensures Spot(m, params, j) in filled <==> Rank(slots, j) < multiset(calls[..n])[m]
      {
        FilledByRank(ms, calls[..n], meta, m, params, j);
      }
      if c == m {
        NextRank(ms, m, filled, meta, params, k, multiset(calls[..n])[m]);
      } else {
        OnlyOwn(ms, c, filled, meta, Spot(m, params, k));
      }
    }
  }

  lemma SpotsConcat(a: seq<Visit>, b: seq<Visit>)
    ensures SpotsOf(a + b) == SpotsOf(a) + SpotsOf(b)
  {
  }

  lemma OnlyOwn(ms: Modules, m: nat, filled: set<Spot>, meta: set<nat>, spot: Spot)
    requires m < |ms| && spot.m != m
    ensures spot !in SpotsOf(OnMeta(Looked(ms, m, filled), filled, meta))
  {
    LookedIsOwn(ms, m, filled);
    OnMetaMembers(Looked(ms, m, filled), filled, meta);
  }

  /** If the first n slots of a tensor are filled, the call fills number n. */
  lemma NextRank(ms: Modules, m: nat, filled: set<Spot>, meta: set<nat>, params: bool, k: nat, n: nat)
    requires m < |ms| && k < |SlotsOf(ms[m], params)| && SlotsOf(ms[m], params)[k].state in meta
    requires var slots := SlotsOf(ms[m], params);
             forall j :: 0 <= j <= k && slots[j].state == slots[k].state ==>
               (Spot(m, params, j) in filled <==> Rank(slots, j) < n)
    ensures Spot(m, params, k) in SpotsOf(OnMeta(Looked(ms, m, filled), filled, meta)) <==> Rank(SlotsOf(ms[m], params), k) == n
  {
    hide Looked, OnMeta;
    CallFills(ms, m, filled, meta, params, k);
    var vs, slots := OwnSlots(ms, m, params), SlotsOf(ms[m], params);
    var r := Rank(slots, k);
    if r > n {
      var j := RankTaken(slots, k, slots[k].state, n);
      assert SameTensor(vs[j], vs[k], filled);
    } else if r == n {
      forall j | 0 <= j < k ensures !SameTensor(vs[j], vs[k], filled) {
        RankGrows(slots, j, k);
      }
    }
  }

  /** Visits are to slots on the meta device of objects that are called. */
  lemma {:induction false} VisitsAreMeta(ms: Modules, calls: seq<nat>, meta: set<nat>, v: Visit)
    requires AllBelow(calls, |ms|) && v in After(ms, calls, [], meta)
    ensures v.state in meta && v.spot.m in calls && v in OwnSlots(ms, v.spot.m, v.spot.isParam)
    decreases |calls|
  {
    var n := |calls| - 1;
    var before := After(ms, calls[..n], [], meta);
    if v in before {
      VisitsAreMeta(ms, calls[..n], meta, v);
    } else {
      LookedIsOwn(ms, calls[n], SpotsOf(before));
      OnMetaMembers(Looked(ms, calls[n], SpotsOf(before)), SpotsOf(before), meta);
    }
  }

  /** The slots of the module that hold a tensor on the meta device, and their names. */
  function MetaSpots(all: seq<Name>, meta: set<nat>): set<Spot> { set n | n in all && n.state in meta :: n.spot }

  function MetaNames(all: seq<Name>, meta: set<nat>): set<Fqn> { set n | n in all && n.state in meta :: n.fqn }

  /** `init_fn` is called on the object once more than the slot has predecessors with its tensor. */
  ghost predicate CalledOften(ms: Modules, root: nat, meta: set<nat>)
    requires Acyclic(ms) && root < |ms|
  {
    forall m, params: bool, k: nat ::
      m in Calls(ms, root) && k < |SlotsOf(ms[m], params)| && SlotsOf(ms[m], params)[k].state in meta ==>
        Rank(SlotsOf(ms[m], params), k) < multiset(Calls(ms, root))[m]
  }

  lemma CalledBelow(ms: Modules, root: nat, m: nat)
    requires Acyclic(ms) && root < |ms| && m in Calls(ms, root)
    ensures m < |ms|
  {
    var i :| 0 <= i < |Calls(ms, root)| && Calls(ms, root)[i] == m;
  }

  lemma FilledAreMeta(ms: Modules, root: nat, meta: set<nat>)
    requires Acyclic(ms) && root < |ms|
    ensures SpotsOf(Filled(ms, root, meta)) <= MetaSpots(AllNames(ms, root), meta)
  {
    hide After, AllNames, Calls;
    forall spot | spot in SpotsOf(Filled(ms, root, meta)) ensures spot in MetaSpots(AllNames(ms, root), meta) {
      var v :| v in Filled(ms, root, meta) && v.spot == spot;
      VisitsAreMeta(ms, Calls(ms, root), meta, v);
      CalledBelow(ms, root, spot.m);
      var k :| 0 <= k < |SlotsOf(ms[spot.m], spot.isParam)| && OwnSlots(ms, spot.m, spot.isParam)[k] == v;
      var i := CalledIsNamed(ms, root, spot.m, spot.isParam, k);
      assert AllNames(ms, root)[i] in AllNames(ms, root);
    }
  }

  /** Every slot on the meta device is filled exactly when no module object registers one tensor more
      often than `init_fn` is called on it: each call fills one of the registrations. */
  lemma AllFilledIffCalledOften(ms: Modules, root: nat, meta: set<nat>)
    requires Acyclic(ms) && root < |ms|
    ensures SpotsOf(Filled(ms, root, meta)) == MetaSpots(AllNames(ms, root), meta) <==> CalledOften(ms, root, meta)
  {
    hide After, AllNames, Calls, Rank;
    var all, filled := AllNames(ms, root), SpotsOf(Filled(ms, root, meta));
    FilledAreMeta(ms, root, meta);
    forall m, params: bool, k: nat | m in Calls(ms, root) && k < |SlotsOf(ms[m], params)| && SlotsOf(ms[m], params)[k].state in meta
      ensures Spot(m, params, k) in MetaSpots(all, meta)
      ensures Spot(m, params, k) in filled <==> Rank(SlotsOf(ms[m], params), k) < multiset(Calls(ms, root))[m]
    {
      CalledBelow(ms, root, m);
      var i := CalledIsNamed(ms, root, m, params, k);
      assert all[i] in all;
      FilledByRank(ms, Calls(ms, root), meta, m, params, k);
    }
    forall spot | spot in MetaSpots(all, meta)
      ensures spot.m in Calls(ms, root) && spot.m < |ms| && spot.k < |SlotsOf(ms[spot.m], spot.isParam)|
              && SlotsOf(ms[spot.m], spot.isParam)[spot.k].state in meta
    {
      var n :| n in all && n.state in meta && n.spot == spot;
      var i :| 0 <= i < |all| && all[i] == n;
      NamedIsCalled(ms, root, i);
    }
  }

  // ---------------------------------------------------------------- what is left over

  /** No slot on the meta device has two full names: no module object that has one is reached twice. */
  ghost predicate NamedOnce(all: seq<Name>, meta: set<nat>) {
    forall i, j :: 0 <= i < j < |all| && all[i].state in meta ==> all[i].spot != all[j].spot
  }

  /** No tensor on the meta device is registered twice in one module object. */
  ghost predicate NoRepeats(ms: Modules, root: nat, meta: set<nat>)
    requires Acyclic(ms) && root < |ms|
  {
    forall m, params: bool, k: nat ::
      m in Calls(ms, root) && k < |SlotsOf(ms[m], params)| && SlotsOf(ms[m], params)[k].state in meta ==>
        Rank(SlotsOf(ms[m], params), k) == 0
  }

  function MetaCount(all: seq<Name>, meta: set<nat>): nat {
    if all == [] then 0
    else MetaCount(all[..|all| - 1], meta) + (if all[|all| - 1].state in meta then 1 else 0)
  }

  lemma {:induction false} MetaNamesCard(all: seq<Name>, meta: set<nat>)
    requires Unique(all)
    ensures |MetaNames(all, meta)| == MetaCount(all, meta)
  {
    if all != [] {
      var n := |all| - 1;
      MetaNamesCard(all[..n], meta);
      assert all == all[..n] + [all[n]];
      assert MetaNames(all, meta) == MetaNames(all[..n], meta) + (if all[n].state in meta then {all[n].fqn} else {});
      assert all[n].fqn !in MetaNames(all[..n], meta);
    }
  }

  lemma MetaSpotsLast(all: seq<Name>, meta: set<nat>)
    requires all != [] && SpotStates(all)
    ensures var n := |all| - 1;
            && MetaSpots(all, meta) == MetaSpots(all[..n], meta) + (if all[n].state in meta then {all[n].spot} else {})
            && SpotStates(all[..n])
  {
    var n := |all| - 1;
    assert all == all[..n] + [all[n]];
    assert forall i :: 0 <= i < n ==> all[..n][i] == all[i];
  }

  lemma {:induction false} MetaSpotsCard(all: seq<Name>, meta: set<nat>)
    requires SpotStates(all)
    ensures |MetaSpots(all, meta)| <= MetaCount(all, meta)
    ensures |MetaSpots(all, meta)| == MetaCount(all, meta) <==> NamedOnce(all, meta)
  {
    if all != [] {
      MetaSpotsLast(all, meta);
      LastNamedOnce(all, meta);
      hide NamedOnce, MetaSpots, SpotStates;
      MetaSpotsCard(all[..|all| - 1], meta);
    }
  }

  /** One slot holds one tensor, under whatever name. */
  ghost predicate SpotStates(all: seq<Name>) {
    forall i, j :: 0 <= i < |all| && 0 <= j < |all| && all[i].spot == all[j].spot ==> all[i].state == all[j].state
  }

  lemma LastNamedOnce(all: seq<Name>, meta: set<nat>)
    requires all != [] && SpotStates(all)
    ensures var n := |all| - 1;
            NamedOnce(all, meta) <==>
            NamedOnce(all[..n], meta) && !(all[n].state in meta && all[n].spot in MetaSpots(all[..n], meta))
  {
    var n := |all| - 1;
    if all[n].state in meta && all[n].spot in MetaSpots(all[..n], meta) {
      var x :| x in all[..n] && x.state in meta && x.spot == all[n].spot;
      var i :| 0 <= i < n && all[..n][i] == x;
      assert all[i].spot == all[n].spot;
    }
    if NamedOnce(all[..n], meta) && !(all[n].state in meta && all[n].spot in MetaSpots(all[..n], meta)) {
      forall i, j | 0 <= i < j < |all| && all[i].state in meta ensures all[i].spot != all[j].spot {
        if j < n {
          assert all[..n][i] == all[i] && all[..n][j] == all[j];
        } else {
          assert all[..n][i] in all[..n];
        }
      }
    }
  }

  lemma NamesHaveSpotStates(ms: Modules, root: nat)
    requires Acyclic(ms) && root < |ms|
    ensures SpotStates(AllNames(ms, root))
  {
    hide AllNames, Calls;
    var all := AllNames(ms, root);
    forall i, j | 0 <= i < |all| && 0 <= j < |all| && all[i].spot == all[j].spot ensures all[i].state == all[j].state {
      NamedIsCalled(ms, root, i);
      NamedIsCalled(ms, root, j);
    }
  }

  /** The visits are to different named slots. */
  lemma {:induction false} VisitsAmong(ms: Modules, calls: seq<nat>, meta: set<nat>, all: seq<Name>)
    requires AllBelow(calls, |ms|) && AllCovered(ms, calls, all) && Unique(all)
    ensures Among(After(ms, calls, [], meta), all)
    decreases |calls|
  {
    hide Looked, OnMeta, Listed, Unique, Covered;
    if calls != [] {
      var n := |calls| - 1;
      VisitsAmong(ms, calls[..n], meta, all);
      var before := After(ms, calls[..n], [], meta);
      CoveredLooks(ms, calls[n], SpotsOf(before), all);
      LooksAmong(before, Looked(ms, calls[n], SpotsOf(before)), meta, all);
    }
  }

  lemma {:induction false} LooksAmong(before: seq<Visit>, vs: seq<Visit>, meta: set<nat>, all: seq<Name>)
    requires Among(before, all) && Looks(vs, all)
    ensures Among(before + OnMeta(vs, SpotsOf(before), meta), all)
    decreases |vs|
  {
    hide Listed, Unique;
    var filled := SpotsOf(before);
    if vs == [] {
      assert before + OnMeta(vs, filled, meta) == before;
    } else {
      var n := |vs| - 1;
      var done := before + OnMeta(vs[..n], filled, meta);
      LooksAmong(before, vs[..n], meta, all);
      if IsMeta(vs[n], filled, meta) {
        NextSlot(before, vs, n, all, meta);
        AmongNext(done, all, vs[n]);
        assert before + OnMeta(vs, filled, meta) == done + [vs[n]];
      } else {
        assert before + OnMeta(vs, filled, meta) == done;
      }
    }
  }

  /** Every visit pops a name of its own. */
  lemma {:induction false} PoppedCard(all: seq<Name>, visited: seq<Visit>)
    requires Among(visited, all)
    ensures |Popped(all, visited)| == |visited|
    decreases |visited|
  {
    if visited != [] {
      var n := |visited| - 1;
      var before := visited[..n];
      assert forall i :: 0 <= i < n ==> before[i] == visited[i];
      hide NextName, Listed, Unique;
      PoppedCard(all, before);
      assert Listed(visited[n], all) && NewTo(visited[n], before);
      NameLeft(all, before, visited[n]);
      NextNotPopped(all, before, visited[n].state);
    }
  }

  lemma {:induction false} SpotsCard(vs: seq<Visit>)
    requires DifferentSpots(vs)
    ensures |SpotsOf(vs)| == |vs|
  {
    if vs != [] {
      var n := |vs| - 1;
      SpotsCard(vs[..n]);
      assert vs == vs[..n] + [vs[n]];
      SpotsAppend(vs[..n], vs[n]);
      assert vs[n].spot !in SpotsOf(vs[..n]);
    }
  }

  /** Only names of slots on the meta device are popped. */
  lemma PoppedAreMeta(ms: Modules, root: nat, meta: set<nat>)
    requires Acyclic(ms) && root < |ms|
    ensures Popped(AllNames(ms, root), Filled(ms, root, meta)) <= MetaNames(AllNames(ms, root), meta)
  {
    hide AllNames, After, Calls, FqnsOf, Times, Popped;
    var all, visited := AllNames(ms, root), Filled(ms, root, meta);
    forall f | f in Popped(all, visited) ensures f in MetaNames(all, meta) {
      PoppedNames(all, visited, f);
      var s: nat, k: nat :| k < Times(visited, s) && k < |FqnsOf(all, s)| && FqnsOf(all, s)[k] == f;
      TimesMembers(visited, s);
      var i :| 0 <= i < |visited| && visited[i].state == s;
      VisitsAreMeta(ms, Calls(ms, root), meta, visited[i]);
      FqnsMembers(all, s);
      assert f in FqnsOf(all, s);
      var j :| 0 <= j < |all| && all[j].state == s && all[j].fqn == f;
      assert all[j] in all;
    }
  }

  lemma {:induction false} TwoPlaces(s: seq<nat>, x: nat) returns (i: nat, j: nat)
    requires multiset(s)[x] >= 2
    ensures i < j < |s| && s[i] == s[j] == x
    decreases |s|
  {
    var n := |s| - 1;
    assert s == s[..n] + [s[n]];
    if s[n] == x {
      assert x in multiset(s[..n]);
      assert x in s[..n];
      i :| 0 <= i < n && s[..n][i] == x;
      j := n;
    } else {
      i, j := TwoPlaces(s[..n], x);
    }
  }

  /** If no slot on the meta device has two names, `init_fn` is called once on every object that has one. */
  lemma CalledOnce(ms: Modules, root: nat, meta: set<nat>, m: nat, params: bool, k: nat)
    requires Acyclic(ms) && root < |ms| && NamedOnce(AllNames(ms, root), meta)
    requires m in Calls(ms, root) && m < |ms| && k < |SlotsOf(ms[m], params)| && SlotsOf(ms[m], params)[k].state in meta
    ensures multiset(Calls(ms, root))[m] == 1
  {
    hide Calls, Paths, AllNames, NamesAt;
    var paths := Paths(ms, root, []);
    CallsAndPaths(ms, root, []);
    assert m in multiset(Calls(ms, root));
    if multiset(Calls(ms, root))[m] >= 2 {
      assert multiset(Mods(paths))[m] >= 2;
      var p, q := TwoPlaces(Mods(paths), m);
      var i := SlotIsNamed(ms, root, p, params, k);
      var j := SlotIsNamed(ms, root, q, params, k);
      var more := NamesGrow(ms, paths, params, p + 1, q);
    }
  }

  lemma OftenIsOnce(ms: Modules, root: nat, meta: set<nat>)
    requires Acyclic(ms) && root < |ms| && NamedOnce(AllNames(ms, root), meta)
    ensures CalledOften(ms, root, meta) <==> NoRepeats(ms, root, meta)
  {
    hide Calls, Paths, AllNames, Rank, NamedOnce;
    forall m, params: bool, k: nat | m in Calls(ms, root) && k < |SlotsOf(ms[m], params)| && SlotsOf(ms[m], params)[k].state in meta
      ensures multiset(Calls(ms, root))[m] == 1
    {
      CalledBelow(ms, root, m);
      CalledOnce(ms, root, meta, m, params, k);
    }
  }

  /** Every name of the meta device is taken out of the shard states exactly when no module object with
      such slots is reached under two names and none registers one of its tensors twice. Shared tensors
      in different module objects do no harm. */
  lemma AllNamesPoppedIff(ms: Modules, root: nat, meta: set<nat>)
    requires Acyclic(ms) && root < |ms| && Unique(AllNames(ms, root))
    ensures Popped(AllNames(ms, root), Filled(ms, root, meta)) == MetaNames(AllNames(ms, root), meta) <==>
            NamedOnce(AllNames(ms, root), meta) && NoRepeats(ms, root, meta)
  {
    hide AllNames, Calls, After, Popped, MetaNames, MetaSpots, NamedOnce, NoRepeats, CalledOften, Unique, SpotStates, SpotsOf,
         Listed, AllCovered;
    var all, visited := AllNames(ms, root), Filled(ms, root, meta);
    RootIsCovered(ms, root);
    VisitsAmong(ms, Calls(ms, root), meta, all);
    PoppedCard(all, visited);
    PoppedAreMeta(ms, root, meta);
    MetaNamesCard(all, meta);
    NamesHaveSpotStates(ms, root);
    MetaSpotsCard(all, meta);
    SpotsCard(visited);
    FilledAreMeta(ms, root, meta);
    SubsetCard(Popped(all, visited), MetaNames(all, meta));
    SubsetCard(SpotsOf(visited), MetaSpots(all, meta));
    AllFilledIffCalledOften(ms, root, meta);
    if NamedOnce(all, meta) {
      OftenIsOnce(ms, root, meta);
    }
  }

  /** A module with one submodule object under the names a and b. */
  function SharedObject(): Modules { [Module([Slot("weight", 7)], [], []), Module([], [], [("a", 0), ("b", 0)])] }

  /** The names come in the order of the children, and the second name of the shared object's tensor
      stays in the shard states. */
  lemma SharedObjectLeavesName()
    ensures var ms := SharedObject();
            && Acyclic(ms) && Unique(AllNames(ms, 1)) && NoRepeats(ms, 1, {7}) && !NamedOnce(AllNames(ms, 1), {7})
            && FqnsOf(AllNames(ms, 1), 7) == [["a", "weight"], ["b", "weight"]]
            && Popped(AllNames(ms, 1), Filled(ms, 1, {7})) != MetaNames(AllNames(ms, 1), {7})
  {
    var ms := SharedObject();
    TwoPaths(ms);
    TwoNames(ms, Paths(ms, 1, []));
    SharedSlotOnce(ms);
    NamedTwice(ms);
    hide SharedObject, Filled, NamedOnce, NoRepeats, Popped, MetaNames, Paths, NamesAt, FqnsOf;
    AllNamesPoppedIff(ms, 1, {7});
  }

  lemma SharedSlotOnce(ms: Modules)
    requires ms == SharedObject() && Acyclic(ms)
    ensures NoRepeats(ms, 1, {7})
  {
    hide Calls;
    forall m, params: bool, k: nat | m in Calls(ms, 1) && k < |SlotsOf(ms[m], params)| ensures Rank(SlotsOf(ms[m], params), k) == 0 {
      CalledBelow(ms, 1, m);
      assert k == 0;
    }
  }

  lemma NamedTwice(ms: Modules)
    requires ms == SharedObject() && Acyclic(ms) && Paths(ms, 1, []) == [([], 1), (["a"], 0), (["b"], 0)]
    ensures !NamedOnce(AllNames(ms, 1), {7})
  {
    var paths := Paths(ms, 1, []);
    var i := SlotIsNamed(ms, 1, 1, true, 0);
    var j := SlotIsNamed(ms, 1, 2, true, 0);
    hide Paths, NamesAt, AllNames;
    assert AllNames(ms, 1)[i].spot == AllNames(ms, 1)[j].spot && i < j;
  }

  lemma TwoPaths(ms: Modules)
    requires ms == SharedObject()
    ensures Acyclic(ms) && Paths(ms, 1, []) == [([], 1), (["a"], 0), (["b"], 0)]
  {
    assert Paths(ms, 0, ["a"]) == [(["a"], 0)] by { assert ChildPaths(ms, 0, 0, ["a"]) == []; }
    assert Paths(ms, 0, ["b"]) == [(["b"], 0)] by { assert ChildPaths(ms, 0, 0, ["b"]) == []; }
    var none: Fqn := [];
    assert none + ["a"] == ["a"] && none + ["b"] == ["b"];
    assert ChildPaths(ms, 1, 0, none) == [];
    assert ChildPaths(ms, 1, 1, none) == Paths(ms, 0, ["a"]);
    assert ChildPaths(ms, 1, 2, none) == Paths(ms, 0, ["a"]) + Paths(ms, 0, ["b"]);
  }

  lemma TwoNames(ms: Modules, paths: seq<(Fqn, nat)>)
    requires ms == SharedObject()
    requires paths == [([], 1), (["a"], 0), (["b"], 0)]
    ensures Unique(NamesAt(ms, paths, true) + NamesAt(ms, paths, false))
    ensures FqnsOf(NamesAt(ms, paths, true) + NamesAt(ms, paths, false), 7) == [["a", "weight"], ["b", "weight"]]
  {
    hide FqnsOf, SlotNames, NamesAt, Unique;
    SlotsOfShared(ms, ["a"]);
    SlotsOfShared(ms, ["b"]);
    SlotsOfRoot(ms);
    NamesOfThree(ms, paths, true);
    NamesOfThree(ms, paths, false);
    var a, b := Name(["a"] + ["weight"], Spot(0, true, 0), 7), Name(["b"] + ["weight"], Spot(0, true, 0), 7);
    assert NamesAt(ms, paths, true) == [a, b] && NamesAt(ms, paths, false) == [];
    assert a.fqn[0] == "a" && b.fqn[0] == "b";
    assert a.fqn == ["a", "weight"] && b.fqn == ["b", "weight"];
    DifferentNames(a, b);
  }

  lemma DifferentNames(a: Name, b: Name)
    requires a.fqn != b.fqn && a.state == b.state == 7
    ensures Unique([a, b] + []) && FqnsOf([a, b] + [], 7) == [a.fqn, b.fqn]
  {
    assert [a, b][..1] == [a] && [a][..0] == [] && [a, b] + [] == [a, b];
    assert FqnsOf([a], 7) == FqnsOf([], 7) + [a.fqn];
  }

  lemma SlotsOfShared(ms: Modules, path: Fqn)
    requires ms == SharedObject()
    ensures SlotNames(ms[0], (path, 0), true) == [Name(path + ["weight"], Spot(0, true, 0), 7)]
    ensures SlotNames(ms[0], (path, 0), false) == []
  {
  }

  lemma SlotsOfRoot(ms: Modules)
    requires ms == SharedObject()
    ensures SlotNames(ms[1], ([], 1), true) == [] && SlotNames(ms[1], ([], 1), false) == []
  {
  }

  lemma NamesOfThree(ms: Modules, paths: seq<(Fqn, nat)>, params: bool)
    requires |paths| == 3 && forall i :: 0 <= i < 3 ==> paths[i].1 < |ms|
    ensures NamesAt(ms, paths, params) == SlotNames(ms[paths[0].1], paths[0], params)
              + SlotNames(ms[paths[1].1], paths[1], params) + SlotNames(ms[paths[2].1], paths[2], params)
  {
    hide SlotNames;
    assert paths[..2][..1] == paths[..1] && paths[..1][..0] == [];
    assert NamesAt(ms, paths[..1][..0], params) == [];
    assert NamesAt(ms, paths[..1], params) == SlotNames(ms[paths[0].1], paths[0], params);
    assert NamesAt(ms, paths[..2], params) == NamesAt(ms, paths[..2][..1], params) + SlotNames(ms[paths[1].1], paths[1], params);
  }

  // ---------------------------------------------------------------- in which order

  /** Within a module object: parameters before buffers, each in the order of registration. */
  ghost predicate Earlier(a: Spot, b: Spot) {
    a.m == b.m && ((a.isParam && !b.isParam) || (a.isParam == b.isParam && a.k < b.k))
  }

  ghost predicate InOrder(vs: seq<Visit>) {
    forall i, j :: 0 <= i < j < |vs| ==> Earlier(vs[i].spot, vs[j].spot)
  }

  lemma {:induction false} YieldedInOrder(vs: seq<Visit>, filled: set<Spot>)
    requires InOrder(vs)
    ensures InOrder(Yielded(vs, filled))
  {
    if vs != [] {
      var n := |vs| - 1;
      YieldedInOrder(vs[..n], filled);
      YieldedMembers(vs[..n], filled);
      hide Earlier;
      var before := Yielded(vs[..n], filled);
      forall i | 0 <= i < |before| ensures Earlier(before[i].spot, vs[n].spot) {
        assert before[i] in vs[..n];
      }
    }
  }

  lemma {:induction false} OnMetaInOrder(vs: seq<Visit>, filled: set<Spot>, meta: set<nat>)
    requires InOrder(vs)
    ensures InOrder(OnMeta(vs, filled, meta))
  {
    if vs != [] {
      var n := |vs| - 1;
      OnMetaInOrder(vs[..n], filled, meta);
      OnMetaMembers(vs[..n], filled, meta);
      hide Earlier;
      var before := OnMeta(vs[..n], filled, meta);
      forall i | 0 <= i < |before| ensures Earlier(before[i].spot, vs[n].spot) {
        assert before[i] in vs[..n];
      }
    }
  }

  lemma LookedInOrder(ms: Modules, m: nat, filled: set<Spot>)
    requires m < |ms|
    ensures InOrder(Looked(ms, m, filled)) && forall v <- Looked(ms, m, filled) :: v.spot.m == m
  {
    LookedIsOwn(ms, m, filled);
    var a, b := OwnSlots(ms, m, true), OwnSlots(ms, m, false);
    YieldedMembers(a, filled);
    YieldedMembers(b, filled);
    YieldedInOrder(a, filled);
    YieldedInOrder(b, filled);
    var x, y := Yielded(a, filled), Yielded(b, filled);
    forall i | 0 <= i < |x| ensures x[i].spot.m == m && x[i].spot.isParam {
      assert x[i] in a;
    }
    forall j | 0 <= j < |y| ensures y[j].spot.m == m && !y[j].spot.isParam {
      assert y[j] in b;
    }
    hide Yielded, OwnSlots;
  }

  /** `of` gives each filled slot the number of the call that fills it: call by call, and within a call
      parameters before buffers in the order of registration. */
  ghost predicate FilledBy(filled: seq<Visit>, calls: seq<nat>, of: seq<nat>) {
    && |of| == |filled|
    && (forall i :: 0 <= i < |of| ==> of[i] < |calls| && filled[i].spot.m == calls[of[i]])
    && forall i, j :: 0 <= i < j < |of| ==> of[i] < of[j] || (of[i] == of[j] && Earlier(filled[i].spot, filled[j].spot))
  }

  lemma {:induction false} FilledInOrder(ms: Modules, calls: seq<nat>, meta: set<nat>) returns (of: seq<nat>)
    requires AllBelow(calls, |ms|)
    ensures FilledBy(After(ms, calls, [], meta), calls, of)
    decreases |calls|
  {
    if calls == [] { return []; }
    var n := |calls| - 1;
    var before := After(ms, calls[..n], [], meta);
    var looked := Looked(ms, calls[n], SpotsOf(before));
    var more := OnMeta(looked, SpotsOf(before), meta);
    var first := FilledInOrder(ms, calls[..n], meta);
    LookedInOrder(ms, calls[n], SpotsOf(before));
    OnMetaInOrder(looked, SpotsOf(before), meta);
    OnMetaMembers(looked, SpotsOf(before), meta);
    of := first + seq(|more|, _ => n);
    CallAdded(before, more, calls, first);
  }

  lemma CallAdded(before: seq<Visit>, more: seq<Visit>, calls: seq<nat>, first: seq<nat>)
    requires calls != [] && FilledBy(before, calls[..|calls| - 1], first)
    requires InOrder(more) && forall i :: 0 <= i < |more| ==> more[i].spot.m == calls[|calls| - 1]
    ensures FilledBy(before + more, calls, first + seq(|more|, _ => |calls| - 1))
  {
    hide Earlier;
  }

  /** The broadcast of f is for the slot at this position, the first of its tensor. */
  ghost predicate BroadcastFor(f: Fqn, all: seq<Name>, visited: seq<Visit>, at: nat) {
    && at < |visited| && Times(visited[..at], visited[at].state) == 0
    && FqnsOf(all, visited[at].state) != [] && f == FqnsOf(all, visited[at].state)[0]
  }

  lemma BroadcastForPrefix(f: Fqn, all: seq<Name>, visited: seq<Visit>, n: nat, at: nat)
    requires n <= |visited| && BroadcastFor(f, all, visited[..n], at)
    ensures BroadcastFor(f, all, visited, at)
  {
    assert visited[..n][..at] == visited[..at];
  }

  /** The broadcasts follow the slots. */
  lemma {:induction false} PlanInOrder(all: seq<Name>, visited: seq<Visit>) returns (at: seq<nat>)
    ensures |at| == |Planned(all, visited)| && forall i, j :: 0 <= i < j < |at| ==> at[i] < at[j]
    ensures forall k :: 0 <= k < |at| ==> BroadcastFor(Planned(all, visited)[k], all, visited, at[k])
    ensures forall k :: 0 <= k < |at| ==> at[k] < |visited|
    decreases |visited|
  {
    hide Planned, FqnsOf, Times, BroadcastFor;
    if visited == [] {
      NothingPlanned(all);
      return [];
    }
    var n := |visited| - 1;
    at := PlanInOrder(all, visited[..n]);
    var before := Planned(all, visited[..n]);
    forall k | 0 <= k < |at| ensures BroadcastFor(before[k], all, visited, at[k]) {
      BroadcastForPrefix(before[k], all, visited, n, at[k]);
    }
    var more := PlannedNext(all, visited);
    at := at + seq(|more|, _ => n);
  }

  lemma NothingPlanned(all: seq<Name>)
    ensures Planned(all, []) == []
  {
  }

  lemma PlannedNext(all: seq<Name>, visited: seq<Visit>) returns (more: seq<Fqn>)
    requires visited != []
    ensures Planned(all, visited) == Planned(all, visited[..|visited| - 1]) + more && |more| <= 1
    ensures |more| == 1 ==> BroadcastFor(more[0], all, visited, |visited| - 1)
  {
    var n := |visited| - 1;
    var s := visited[n].state;
    more := if Times(visited[..n], s) == 0 && FqnsOf(all, s) != [] then [FqnsOf(all, s)[0]] else [];
  }

  lemma {:induction false} Unnamed(all: seq<Name>, state: nat)
    requires FqnsOf(all, state) == []
    ensures forall j :: 0 <= j < |all| ==> all[j].state != state
  {
    if all != [] {
      Unnamed(all[..|all| - 1], state);
    }
  }

  /** The first name of a tensor is that of its first slot in the list of all names. */
  lemma {:induction false} FirstName(all: seq<Name>, state: nat) returns (i: nat)
    requires FqnsOf(all, state) != []
    ensures i < |all| && all[i].state == state && FqnsOf(all, state)[0] == all[i].fqn
    ensures forall j :: 0 <= j < i ==> all[j].state != state
  {
    var n := |all| - 1;
    if FqnsOf(all[..n], state) == [] {
      Unnamed(all[..n], state);
      i := n;
    } else {
      i := FirstName(all[..n], state);
    }
  }

  // ---------------------------------------------------------------- all ranks together

  /** The file a parameter is in. */
  function FileOf(files: seq<File>, f: Fqn): (i: nat)
    requires exists j :: 0 <= j < |files| && f in files[j].params
    ensures i < |files| && f in files[i].params
  {
    if f in files[|files| - 1].params then |files| - 1
    else
      assert forall j :: 0 <= j < |files| - 1 ==> files[..|files| - 1][j] == files[j];
      FileOf(files[..|files| - 1], f)
  }

  ghost predicate InCheckpoint(files: seq<File>, f: Fqn) { exists j :: 0 <= j < |files| && f in files[j].params }

  /** The broadcasts of one rank: the planned parameters, each from the rank that loaded its file, which
      sends the checkpoint value. */
  ghost predicate CastsAre(casts: seq<Cast>, plan: seq<Fqn>, files: seq<File>, world: nat, me: nat)
    requires world > 0
  {
    && |casts| == |plan|
    && forall k :: 0 <= k < |plan| ==> InCheckpoint(files, plan[k]) && CastIs(casts[k], plan[k], files, world, me)
  }

  ghost predicate CastIs(c: Cast, f: Fqn, files: seq<File>, world: nat, me: nat)
    requires world > 0 && InCheckpoint(files, f)
  {
    var i := FileOf(files, f);
    c == Cast(f, Owner(i, |files|, world), if Owner(i, |files|, world) == me then Some(files[i].params[f]) else None)
  }

  /** Every filled slot holds what this rank got in the broadcast of its tensor's first name. */
  ghost predicate HoldsFirst(held: map<Spot, Value>, all: seq<Name>, filled: seq<Visit>, casts: seq<Cast>, wire: nat -> Value) {
    forall v <- filled :: v.spot in held && FqnsOf(all, v.state) != []
      && exists k :: 0 <= k < |casts| && casts[k].fqn == FqnsOf(all, v.state)[0] && held[v.spot] == Received(casts[k], k, wire)
  }

  /** Whether loading succeeds, which depends on the module and the names in the checkpoint only. */
  ghost predicate Loadable(ms: Modules, root: nat, meta: set<nat>, names: set<Fqn>)
    requires Acyclic(ms) && root < |ms|
  {
    AllAllowed(AllNames(ms, root), Filled(ms, root, meta), 0, names)
  }

  function Names(files: seq<File>): set<Fqn> { set i, f | 0 <= i < |files| && f in files[i].params :: f }

  lemma KnownNames(known: map<Fqn, Loaded>, files: seq<File>, world: nat, me: nat)
    requires world > 0 && KnowsFiles(known, files, world, me, |files|)
    ensures known.Keys == Names(files)
  {
  }

  lemma KnownCast(known: map<Fqn, Loaded>, files: seq<File>, world: nat, me: nat, f: Fqn)
    requires world > 0 && KnowsFiles(known, files, world, me, |files|) && f in known
    ensures InCheckpoint(files, f) && CastIs(CastOf(known[f], f, me), f, files, world, me)
  {
    var i := FileOf(files, f);
    assert known[f] == Knowledge(files, world, me, i, f);
  }

  lemma KnownCasts(casts: seq<Cast>, known: map<Fqn, Loaded>, plan: seq<Fqn>, files: seq<File>, world: nat, me: nat)
    requires world > 0 && KnowsFiles(known, files, world, me, |files|) && CastsOk(casts, known, me, plan)
    ensures CastsAre(casts, plan, files, world, me)
  {
    hide KnowsFiles, CastIs;
    forall k | 0 <= k < |plan| ensures InCheckpoint(files, plan[k]) && CastIs(casts[k], plan[k], files, world, me) {
      KnownCast(known, files, world, me, plan[k]);
    }
  }

  lemma HeldValues(held: map<Spot, Value>, values: map<nat, Value>, at: map<nat, nat>, casts: seq<Cast>, wire: nat -> Value,
                   all: seq<Name>, visited: seq<Visit>)
    requires ValuesOk(held, values, at, casts, wire, all, visited)
    ensures held.Keys == SpotsOf(visited) && HoldsFirst(held, all, visited, casts, wire)
  {
    hide FqnsOf, Times, SpotsOf, Received;
    forall v | v in visited ensures ValueOk(held, values, at, casts, wire, all, v) {
      var i :| 0 <= i < |visited| && visited[i] == v;
    }
  }

  /** One rank loads its files and materialises the module. */
  method LoadModule(ms: Modules, root: nat, files: seq<File>, world: nat, me: nat, meta: set<nat>, wire: nat -> Value)
    returns (ok: bool, held: map<Spot, Value>, casts: seq<Cast>, left: map<Fqn, Loaded>)
    requires 0 < world && me < world && Disjoint(files)
    requires Acyclic(ms) && root < |ms| && Unique(AllNames(ms, root))
    ensures ok <==> Loadable(ms, root, meta, Names(files))
    ensures ok ==> CastsAre(casts, Plan(ms, root, meta), files, world, me)
    ensures ok ==> held.Keys == SpotsOf(Filled(ms, root, meta))
    ensures ok ==> HoldsFirst(held, AllNames(ms, root), Filled(ms, root, meta), casts, wire)
    ensures ok ==> left.Keys == Names(files) - Popped(AllNames(ms, root), Filled(ms, root, meta))
  {
    hide AllNames, Calls, After, Popped, AllAllowed, Planned, NamesOk, KnowsFiles, Names, CastsOk, CastsAre,
         ValuesOk, HoldsFirst, SpotsOf, Among, Unique, Acyclic, AllCovered, SharedOk;
    var known := ParallelLoad(files, world, me);
    KnownNames(known, files, world, me);
    RootIsCovered(ms, root);
    var loader := new Loader(ms, root, known, me, meta, wire);
    ok := loader.InitFn(root, true);
    held, casts, left := loader.held, loader.casts, loader.shardStates;
    if ok {
      assert loader.visited == Filled(ms, root, meta);
      KnownCasts(casts, known, Plan(ms, root, meta), files, world, me);
      HeldValues(held, loader.values, loader.at, casts, wire, AllNames(ms, root), Filled(ms, root, meta));
    }
  }

  /** Broadcasts of all ranks match one by one: number k has the same parameter and the same source on
      every rank, the source is a rank, and exactly it has the payload, the checkpoint value. */
  lemma RanksAgree(casts: seq<Cast>, casts': seq<Cast>, plan: seq<Fqn>, files: seq<File>, world: nat, me: nat, me': nat, k: nat)
    requires 0 < world && CastsAre(casts, plan, files, world, me) && CastsAre(casts', plan, files, world, me') && k < |plan|
    ensures |casts| == |casts'| && casts[k].fqn == casts'[k].fqn && casts[k].src == casts'[k].src < world
    ensures casts[k].payload.Some? <==> me == casts[k].src
    ensures casts[k].payload.Some? ==> casts[k].payload.value == files[FileOf(files, plan[k])].params[plan[k]]
  {
    OwnerHasIt(files, world, FileOf(files, plan[k]), 0);
  }

  /** The collectives deliver what the source of the broadcast put in, as number k of its own. */
  ghost predicate WireDelivers(wire: nat -> Value, sent: seq<seq<Cast>>, world: nat, n: nat) {
    && |sent| == world && (forall r :: 0 <= r < world ==> |sent[r]| == n)
    && forall k, r :: 0 <= k < n && 0 <= r < world && sent[r][k].src == r && sent[r][k].payload.Some? ==>
         wire(k) == sent[r][k].payload.value
  }

  /** There are such collectives: no broadcast has two sources. */
  lemma SomeWireDelivers(sent: seq<seq<Cast>>, plan: seq<Fqn>, files: seq<File>, world: nat)
    requires 0 < world && |sent| == world && forall r :: 0 <= r < world ==> CastsAre(sent[r], plan, files, world, r)
    ensures exists wire: nat -> Value :: WireDelivers(wire, sent, world, |plan|)
  {
    var wire := (k: nat) =>
      if k < |plan| && InCheckpoint(files, plan[k]) then files[FileOf(files, plan[k])].params[plan[k]] else Value([]);
    hide FileOf;
    forall k, r | 0 <= k < |plan| && 0 <= r < world && sent[r][k].src == r && sent[r][k].payload.Some?
      ensures wire(k) == sent[r][k].payload.value
    {
      assert CastIs(sent[r][k], plan[k], files, world, r);
    }
    assert WireDelivers(wire, sent, world, |plan|);
  }

  /** The slot holds the checkpoint value of its tensor's first name. */
  ghost predicate HasCheckpoint(held: map<Spot, Value>, all: seq<Name>, files: seq<File>, v: Visit) {
    && v.spot in held && FqnsOf(all, v.state) != [] && InCheckpoint(files, FqnsOf(all, v.state)[0])
    && held[v.spot] == files[FileOf(files, FqnsOf(all, v.state)[0])].params[FqnsOf(all, v.state)[0]]
  }

  lemma ReceivesTheCheckpoint(held: map<Spot, Value>, all: seq<Name>, filled: seq<Visit>, plan: seq<Fqn>, files: seq<File>,
                              world: nat, sent: seq<seq<Cast>>, wire: nat -> Value, me: nat, v: Visit)
    requires 0 < world && me < world && |sent| == world
    requires forall r :: 0 <= r < world ==> CastsAre(sent[r], plan, files, world, r)
    requires WireDelivers(wire, sent, world, |plan|)
    requires HoldsFirst(held, all, filled, sent[me], wire) && v in filled
    ensures HasCheckpoint(held, all, files, v)
  {
    hide FqnsOf, FileOf;
    var first := FqnsOf(all, v.state)[0];
    var k :| 0 <= k < |sent[me]| && sent[me][k].fqn == first && held[v.spot] == Received(sent[me][k], k, wire);
    RanksAgree(sent[me], sent[me], plan, files, world, me, me, k);
    var src := sent[me][k].src;
    RanksAgree(sent[src], sent[me], plan, files, world, src, me, k);
  }

  /** All ranks load: all succeed or none, and if every broadcast delivers what its source sent, every
      filled slot of every rank holds the checkpoint value of its tensor's first name. */
  method LoadOnAllRanks(ms: Modules, root: nat, files: seq<File>, world: nat, meta: set<nat>, wire: nat -> Value)
    returns (ok: bool, held: seq<map<Spot, Value>>, sent: seq<seq<Cast>>)
    requires 0 < world && Disjoint(files)
    requires Acyclic(ms) && root < |ms| && Unique(AllNames(ms, root))
    ensures ok <==> Loadable(ms, root, meta, Names(files))
    ensures ok ==> |held| == |sent| == world && exists w: nat -> Value :: WireDelivers(w, sent, world, |Plan(ms, root, meta)|)
    ensures ok ==> forall r :: 0 <= r < world ==> held[r].Keys == SpotsOf(Filled(ms, root, meta))
    ensures ok && WireDelivers(wire, sent, world, |Plan(ms, root, meta)|) ==>
      forall r, v :: 0 <= r < world && v in Filled(ms, root, meta) ==> HasCheckpoint(held[r], AllNames(ms, root), files, v)
  {
    hide AllNames, Filled, Plan, Loadable, Names, CastsAre, HoldsFirst, SpotsOf, Unique, Acyclic, HasCheckpoint, WireDelivers,
         Popped, Disjoint;
    held, sent := [], [];
    for r := 0 to world
      invariant |held| == |sent| == r && (r > 0 ==> Loadable(ms, root, meta, Names(files)))
      invariant forall q :: 0 <= q < r ==>
        && CastsAre(sent[q], Plan(ms, root, meta), files, world, q) && held[q].Keys == SpotsOf(Filled(ms, root, meta))
        && HoldsFirst(held[q], AllNames(ms, root), Filled(ms, root, meta), sent[q], wire)
    {
      var one, casts, left;
      ok, one, casts, left := LoadModule(ms, root, files, world, r, meta, wire);
      if !ok { return; }
      held, sent := held + [one], sent + [casts];
    }
    ok := true;
    SomeWireDelivers(sent, Plan(ms, root, meta), files, world);
    if WireDelivers(wire, sent, world, |Plan(ms, root, meta)|) {
      forall r, v | 0 <= r < world && v in Filled(ms, root, meta) ensures HasCheckpoint(held[r], AllNames(ms, root), files, v) {
        ReceivesTheCheckpoint(held[r], AllNames(ms, root), Filled(ms, root, meta), Plan(ms, root, meta), files, world, sent, wire, r, v);
      }
    }
  }
}
