/** Materialising a meta-device module from sharded checkpoint states (verl/utils/fsdp_utils.py,
    `parallel_init_module_fn`). */
module ModuleInit {
  import opened Outcomes
  import opened ShardLoading

  /** A registered parameter or buffer; `state` is the identity of the tensor it holds at the start. */
  datatype Slot = Slot(name: string, state: nat)

  datatype Module = Module(params: seq<Slot>, buffers: seq<Slot>, children: seq<(string, nat)>)

  /** All module objects by number; children are referred to by number, so that one object can be reached
      under several names. */
  type Modules = seq<Module>

  ghost predicate Acyclic(ms: Modules) {
    forall i, k :: 0 <= i < |ms| && 0 <= k < |ms[i].children| ==> ms[i].children[k].1 < i
  }

  /** The k-th parameter or buffer of a module object. */
  datatype Spot = Spot(m: nat, isParam: bool, k: nat)

  /** A full name: the dotted path, the slot it leads to, and the tensor in it. */
  datatype Name = Name(fqn: Fqn, spot: Spot, state: nat)

  /** A slot as `init_fn` comes by it. */
  datatype Visit = Visit(spot: Spot, state: nat)

  function SlotsOf(m: Module, params: bool): seq<Slot> { if params then m.params else m.buffers }

  // ---------------------------------------------------------------- full names

  /** `named_modules(remove_duplicate=False)`: an object appears once per path to it. */
  function Paths(ms: Modules, m: nat, path: Fqn): (r: seq<(Fqn, nat)>)
    requires Acyclic(ms) && m < |ms|
    ensures forall i :: 0 <= i < |r| ==> r[i].1 < |ms|
    decreases m, 1, 0
  {
    [(path, m)] + ChildPaths(ms, m, |ms[m].children|, path)
  }

  function ChildPaths(ms: Modules, m: nat, n: nat, path: Fqn): (r: seq<(Fqn, nat)>)
    requires Acyclic(ms) && m < |ms| && n <= |ms[m].children|
    ensures forall i :: 0 <= i < |r| ==> r[i].1 < |ms|
    decreases m, 0, n
  {
    if n == 0 then []
    else
      var child := ms[m].children[n - 1];
      ChildPaths(ms, m, n - 1, path) + Paths(ms, child.1, path + [child.0])
  }

  function SlotNames(m: Module, path: (Fqn, nat), params: bool): seq<Name> {
    var slots := SlotsOf(m, params);
    seq(|slots|, k requires 0 <= k < |slots| => Name(path.0 + [slots[k].name], Spot(path.1, params, k), slots[k].state))
  }

  function NamesAt(ms: Modules, paths: seq<(Fqn, nat)>, params: bool): seq<Name>
    requires forall i :: 0 <= i < |paths| ==> paths[i].1 < |ms|
  {
    if paths == [] then []
    else
      var n := |paths| - 1;
      NamesAt(ms, paths[..n], params) + SlotNames(ms[paths[n].1], paths[n], params)
  }

  /** `named_parameters` and then `named_buffers` of the whole module, duplicates included. */
  function AllNames(ms: Modules, root: nat): seq<Name>
    requires Acyclic(ms) && root < |ms|
  {
    NamesAt(ms, Paths(ms, root, []), true) + NamesAt(ms, Paths(ms, root, []), false)
  }

  // ---------------------------------------------------------------- the calls of init_fn

  /** `children()` yields a child object once per parent. */
  function Distinct(children: seq<(string, nat)>): seq<nat> {
    if children == [] then []
    else
      var n := |children| - 1;
      Distinct(children[..n]) + (if children[n].1 in Distinct(children[..n]) then [] else [children[n].1])
  }

  ghost predicate AllBelow(ids: seq<nat>, n: nat) { forall i :: 0 <= i < |ids| ==> ids[i] < n }

  /** The module objects for which `init_fn` is called, in order; an object with two parents is called twice. */
  function Calls(ms: Modules, m: nat): (r: seq<nat>)
    requires Acyclic(ms) && m < |ms|
    ensures AllBelow(r, |ms|)
    decreases m, 1, 0
  {
    DistinctBelow(ms, m);
    [m] + CallsOf(ms, m, Distinct(ms[m].children))
  }

  function CallsOf(ms: Modules, m: nat, kids: seq<nat>): (r: seq<nat>)
    requires Acyclic(ms) && m < |ms| && AllBelow(kids, m)
    ensures AllBelow(r, |ms|)
    decreases m, 0, |kids|
  {
    if kids == [] then []
    else CallsOf(ms, m, kids[..|kids| - 1]) + Calls(ms, kids[|kids| - 1])
  }

  lemma {:induction false} DistinctMembers(children: seq<(string, nat)>)
    ensures forall c :: c in Distinct(children) <==> exists i :: 0 <= i < |children| && children[i].1 == c
  {
    if children != [] {
      var n := |children| - 1;
      DistinctMembers(children[..n]);
      forall c ensures c in Distinct(children) <==> exists i :: 0 <= i < |children| && children[i].1 == c {
        if i :| 0 <= i < |children| && children[i].1 == c {
          if i < n { assert children[..n][i].1 == c; }
        }
        if c in Distinct(children[..n]) {
          var i :| 0 <= i < n && children[..n][i].1 == c;
          assert children[i].1 == c;
        }
      }
    }
  }

  lemma DistinctBelow(ms: Modules, m: nat)
    requires Acyclic(ms) && m < |ms|
    ensures AllBelow(Distinct(ms[m].children), m)
  {
    var kids := Distinct(ms[m].children);
    DistinctMembers(ms[m].children);
    forall i | 0 <= i < |kids| ensures kids[i] < m {
      assert kids[i] in kids;
    }
  }

  function OwnSlots(ms: Modules, m: nat, params: bool): seq<Visit>
    requires m < |ms|
  {
    var slots := SlotsOf(ms[m], params);
    seq(|slots|, k requires 0 <= k < |slots| => Visit(Spot(m, params, k), slots[k].state))
  }

  /** Two slots hold the same tensor now: both still the original one, or both its replacement. */
  predicate SameTensor(a: Visit, b: Visit, filled: set<Spot>) {
    a.state == b.state && (a.spot in filled <==> b.spot in filled)
  }

  /** `named_parameters(recurse=False)` yields a tensor registered twice in one module only once. */
  function Yielded(vs: seq<Visit>, filled: set<Spot>): (r: seq<Visit>)
    ensures |r| <= |vs|
  {
    if vs == [] then []
    else
      var n := |vs| - 1;
      Yielded(vs[..n], filled) + (if exists j :: 0 <= j < n && SameTensor(vs[j], vs[n], filled) then [] else [vs[n]])
  }

  predicate IsMeta(v: Visit, filled: set<Spot>, meta: set<nat>) { v.state in meta && v.spot !in filled }

  /** Those that hold a tensor on the meta device. */
  function OnMeta(vs: seq<Visit>, filled: set<Spot>, meta: set<nat>): seq<Visit> {
    if vs == [] then []
    else
      var n := |vs| - 1;
      OnMeta(vs[..n], filled, meta) + (if IsMeta(vs[n], filled, meta) then [vs[n]] else [])
  }

  /** What one call looks at: own parameters, then own buffers. */
  function Looked(ms: Modules, m: nat, filled: set<Spot>): seq<Visit>
    requires m < |ms|
  {
    Yielded(OwnSlots(ms, m, true), filled) + Yielded(OwnSlots(ms, m, false), filled)
  }

  function SpotsOf(vs: seq<Visit>): set<Spot> { set v | v in vs :: v.spot }

  /** The slots filled after these calls. */
  function After(ms: Modules, calls: seq<nat>, visited: seq<Visit>, meta: set<nat>): seq<Visit>
    requires AllBelow(calls, |ms|)
  {
    if calls == [] then visited
    else
      var n := |calls| - 1;
      var before := After(ms, calls[..n], visited, meta);
      before + OnMeta(Looked(ms, calls[n], SpotsOf(before)), SpotsOf(before), meta)
  }

  // ---------------------------------------------------------------- what has been visited determines everything

  /** The names of a state, in order. */
  function FqnsOf(all: seq<Name>, state: nat): seq<Fqn> {
    if all == [] then []
    else
      var n := |all| - 1;
      FqnsOf(all[..n], state) + (if all[n].state == state then [all[n].fqn] else [])
  }

  /** How often a state has been visited. */
  function Times(visited: seq<Visit>, state: nat): nat {
    if visited == [] then 0
    else
      var n := |visited| - 1;
      Times(visited[..n], state) + (if visited[n].state == state then 1 else 0)
  }

  ghost predicate Unique(all: seq<Name>) {
    forall i, j :: 0 <= i < j < |all| ==> all[i].fqn != all[j].fqn
  }

  ghost predicate Listed(v: Visit, all: seq<Name>) {
    exists i :: 0 <= i < |all| && all[i].spot == v.spot && all[i].state == v.state
  }

  /** The slot has not been visited. */
  ghost predicate NewTo(v: Visit, visited: seq<Visit>) {
    forall i :: 0 <= i < |visited| ==> visited[i].spot != v.spot
  }

  /** `visited` are different slots of the module. */
  ghost predicate Among(visited: seq<Visit>, all: seq<Name>) {
    && Unique(all)
    && (forall i, j :: 0 <= i < j < |visited| ==> visited[i].spot != visited[j].spot)
    && forall i :: 0 <= i < |visited| ==> Listed(visited[i], all)
  }

  /** The name popped for the next visit of a state: the first one not popped yet, whichever slot it is. */
  function NextName(all: seq<Name>, visited: seq<Visit>, state: nat): Option<Fqn> {
    var k := Times(visited, state);
    if k < |FqnsOf(all, state)| then Some(FqnsOf(all, state)[k]) else None
  }

  function Popped(all: seq<Name>, visited: seq<Visit>): set<Fqn> {
    if visited == [] then {}
    else
      var n := |visited| - 1;
      var next := NextName(all, visited[..n], visited[n].state);
      Popped(all, visited[..n]) + (if next.Some? then {next.value} else {})
  }

  /** The parameters broadcast: each state once, under its first name, at its first visit. */
  function Planned(all: seq<Name>, visited: seq<Visit>): seq<Fqn> {
    if visited == [] then []
    else
      var n := |visited| - 1;
      var s := visited[n].state;
      Planned(all, visited[..n])
      + (if Times(visited[..n], s) == 0 && FqnsOf(all, s) != [] then [FqnsOf(all, s)[0]] else [])
  }

  /** What a visit needs from the checkpoint: a buffer its own name, a parameter the first of its state. */
  ghost predicate Allowed(all: seq<Name>, visited: seq<Visit>, v: Visit, names: set<Fqn>) {
    !v.spot.isParam || Times(visited, v.state) == 0 ==>
      NextName(all, visited, v.state).Some? && NextName(all, visited, v.state).value in names
  }

  lemma TimesAppend(vs: seq<Visit>, v: Visit, state: nat)
    ensures Times(vs + [v], state) == Times(vs, state) + (if v.state == state then 1 else 0)
  {
    assert (vs + [v])[..|vs|] == vs;
  }

  lemma {:induction false} TimesMembers(vs: seq<Visit>, state: nat)
    ensures Times(vs, state) > 0 <==> exists i :: 0 <= i < |vs| && vs[i].state == state
  {
    if vs != [] {
      var n := |vs| - 1;
      TimesMembers(vs[..n], state);
      if i :| 0 <= i < |vs| && vs[i].state == state {
        if i < n { assert vs[..n][i].state == state; }
      }
      if i :| 0 <= i < n && vs[..n][i].state == state {
        assert vs[i].state == state;
      }
    }
  }

  lemma FqnsAppend(all: seq<Name>, name: Name, state: nat)
    ensures FqnsOf(all + [name], state) == FqnsOf(all, state) + (if name.state == state then [name.fqn] else [])
  {
    assert (all + [name])[..|all|] == all;
  }

  lemma {:induction false} FqnsMembers(all: seq<Name>, state: nat)
    ensures forall f :: f in FqnsOf(all, state) <==> exists i :: 0 <= i < |all| && all[i].state == state && all[i].fqn == f
  {
    if all != [] {
      var n := |all| - 1;
      FqnsMembers(all[..n], state);
      forall f ensures f in FqnsOf(all, state) <==> exists i :: 0 <= i < |all| && all[i].state == state && all[i].fqn == f {
        if i :| 0 <= i < |all| && all[i].state == state && all[i].fqn == f {
          if i < n { assert all[..n][i].state == state && all[..n][i].fqn == f; }
        }
        if f in FqnsOf(all[..n], state) {
          var i :| 0 <= i < n && all[..n][i].state == state && all[..n][i].fqn == f;
          assert all[i].fqn == f;
        }
      }
    }
  }

  lemma {:induction false} FqnsDistinct(all: seq<Name>, state: nat)
    requires Unique(all)
    ensures forall i, j :: 0 <= i < j < |FqnsOf(all, state)| ==> FqnsOf(all, state)[i] != FqnsOf(all, state)[j]
  {
    if all != [] {
      var n := |all| - 1;
      var before := FqnsOf(all[..n], state);
      FqnsDistinct(all[..n], state);
      FqnsMembers(all[..n], state);
      forall i | 0 <= i < |before| ensures before[i] != all[n].fqn {
        assert before[i] in before;
        var k :| 0 <= k < n && all[..n][k].fqn == before[i];
      }
    }
  }

  lemma SubsetCard<A>(a: set<A>, b: set<A>)
    requires a <= b
    ensures |a| <= |b| && (a != b ==> |a| < |b|)
  {
    if a != b {
      assert b == a + (b - a) && b - a != {};
      assert |b| == |a| + |b - a|;
    }
  }

  /** The slots of a state, among those visited and among those named. */
  function VisitSpots(vs: seq<Visit>, state: nat): set<Spot> { set v | v in vs && v.state == state :: v.spot }

  function NameSpots(all: seq<Name>, state: nat): set<Spot> { set n | n in all && n.state == state :: n.spot }

  lemma {:induction false} VisitSpotsCard(vs: seq<Visit>, state: nat)
    requires forall i, j :: 0 <= i < j < |vs| ==> vs[i].spot != vs[j].spot
    ensures |VisitSpots(vs, state)| == Times(vs, state)
  {
    if vs != [] {
      var n := |vs| - 1;
      VisitSpotsCard(vs[..n], state);
      assert vs == vs[..n] + [vs[n]];
      assert VisitSpots(vs, state) == VisitSpots(vs[..n], state) + (if vs[n].state == state then {vs[n].spot} else {});
      assert vs[n].spot !in VisitSpots(vs[..n], state);
    }
  }

  lemma {:induction false} NameSpotsCard(all: seq<Name>, state: nat)
    ensures |NameSpots(all, state)| <= |FqnsOf(all, state)|
  {
    if all != [] {
      var n := |all| - 1;
      NameSpotsCard(all[..n], state);
      assert all == all[..n] + [all[n]];
      assert NameSpots(all, state) == NameSpots(all[..n], state) + (if all[n].state == state then {all[n].spot} else {});
    }
  }

  /** A name is left for every slot not visited yet. */
  lemma {:induction false} NameLeft(all: seq<Name>, visited: seq<Visit>, v: Visit)
    requires Among(visited, all) && Listed(v, all) && NewTo(v, visited)
    ensures NextName(all, visited, v.state).Some?
  {
    var s := v.state;
    VisitSpotsCard(visited, s);
    NameSpotsCard(all, s);
    var mine, theirs := VisitSpots(visited, s), NameSpots(all, s);
    forall spot | spot in mine ensures spot in theirs {
      var u :| u in visited && u.state == s && u.spot == spot;
      var i :| 0 <= i < |visited| && visited[i] == u;
      assert Listed(visited[i], all);
    }
    assert v.spot in theirs && v.spot !in mine;
    SubsetCard(mine, theirs);
  }

  /** Name k of a state is popped once the state has been visited more than k times. */
  ghost predicate IsPopped(all: seq<Name>, visited: seq<Visit>, f: Fqn) {
    exists s: nat, k: nat :: k < Times(visited, s) && k < |FqnsOf(all, s)| && FqnsOf(all, s)[k] == f
  }

  /** One more visit pops one more name: the next of its state. */
  lemma PopsNext(all: seq<Name>, before: seq<Visit>, v: Visit, f: Fqn)
    ensures IsPopped(all, before + [v], f) <==>
            IsPopped(all, before, f) || NextName(all, before, v.state) == Some(f)
  {
    var visited, s := before + [v], v.state;
    forall t: nat ensures Times(visited, t) == Times(before, t) + (if s == t then 1 else 0) {
      TimesAppend(before, v, t);
    }
    hide FqnsOf, Times;
    if IsPopped(all, before, f) {
      var t: nat, k: nat :| k < Times(before, t) && k < |FqnsOf(all, t)| && FqnsOf(all, t)[k] == f;
      assert k < Times(visited, t);
    }
    if NextName(all, before, s) == Some(f) {
      var k := Times(before, s);
      assert k < Times(visited, s) && FqnsOf(all, s)[k] == f;
    }
    if IsPopped(all, visited, f) {
      var t: nat, k: nat :| k < Times(visited, t) && k < |FqnsOf(all, t)| && FqnsOf(all, t)[k] == f;
      assert k < Times(before, t) || (t == s && k == Times(before, s));
    }
  }

  lemma {:induction false} PoppedNames(all: seq<Name>, visited: seq<Visit>, f: Fqn)
    ensures f in Popped(all, visited) <==> IsPopped(all, visited, f)
  {
    hide FqnsOf, Times, IsPopped, NextName;
    if visited != [] {
      var n := |visited| - 1;
      PoppedNames(all, visited[..n], f);
      PopsNext(all, visited[..n], visited[n], f);
      assert visited == visited[..n] + [visited[n]];
    } else {
      NonePopped(all, f);
    }
  }

  lemma NonePopped(all: seq<Name>, f: Fqn)
    ensures !IsPopped(all, [], f)
  {
  }

  /** The next name has not been popped, so it is in the shard states exactly if the checkpoint has it. */
  lemma {:induction false} NextNotPopped(all: seq<Name>, visited: seq<Visit>, state: nat)
    requires Unique(all) && NextName(all, visited, state).Some?
    ensures NextName(all, visited, state).value !in Popped(all, visited)
  {
    hide FqnsOf, Times;
    var f, k := NextName(all, visited, state).value, Times(visited, state);
    PoppedNames(all, visited, f);
    if IsPopped(all, visited, f) {
      var s: nat, j: nat :| j < Times(visited, s) && j < |FqnsOf(all, s)| && FqnsOf(all, s)[j] == f;
      SameFqnSameState(all, s, j, state, k);
    }
  }

  lemma SameFqnSameState(all: seq<Name>, s: nat, j: nat, s': nat, k: nat)
    requires Unique(all) && j < |FqnsOf(all, s)| && k < |FqnsOf(all, s')| && FqnsOf(all, s)[j] == FqnsOf(all, s')[k]
    ensures s == s' && j == k
  {
    FqnsMembers(all, s);
    FqnsMembers(all, s');
    FqnsDistinct(all, s);
    var f := FqnsOf(all, s)[j];
    assert f in FqnsOf(all, s) && f in FqnsOf(all, s');
    var i :| 0 <= i < |all| && all[i].state == s && all[i].fqn == f;
    var i' :| 0 <= i' < |all| && all[i'].state == s' && all[i'].fqn == f;
  }

  // ---------------------------------------------------------------- the state, by what has been visited

  /** One broadcast: the parameter, its source, and the payload if this rank is the source. */
  datatype Cast = Cast(fqn: Fqn, src: nat, payload: Option<Value>)

  function CastOf(l: Loaded, f: Fqn, me: nat): Cast {
    match l
    case Here(v) => Cast(f, me, Some(v))
    case AtRank(r) => Cast(f, r, None)
  }

  /** The tensor a rank has after its k-th broadcast; `wire` is what that broadcast delivers. */
  function Received(c: Cast, k: nat, wire: nat -> Value): Value {
    if c.payload.Some? then c.payload.value else wire(k)
  }

  ghost predicate NamesOk(names: map<nat, seq<Fqn>>, all: seq<Name>, visited: seq<Visit>) {
    forall i :: 0 <= i < |all| ==> NameOk(names, all, visited, all[i].state)
  }

  ghost predicate NameOk(names: map<nat, seq<Fqn>>, all: seq<Name>, visited: seq<Visit>, s: nat) {
    s in names && Times(visited, s) <= |FqnsOf(all, s)| && names[s] == FqnsOf(all, s)[Times(visited, s)..]
  }

  /** Each visited state has been broadcast once, as number `at`, and all its slots hold what was received. */
  ghost predicate ValuesOk(held: map<Spot, Value>, values: map<nat, Value>, at: map<nat, nat>, casts: seq<Cast>,
                           wire: nat -> Value, all: seq<Name>, visited: seq<Visit>)
  {
    && held.Keys == SpotsOf(visited)
    && (forall s: nat :: s in values <==> Times(visited, s) > 0)
    && (forall i :: 0 <= i < |visited| ==> ValueOk(held, values, at, casts, wire, all, visited[i]))
  }

  ghost predicate ValueOk(held: map<Spot, Value>, values: map<nat, Value>, at: map<nat, nat>, casts: seq<Cast>,
                          wire: nat -> Value, all: seq<Name>, v: Visit)
  {
    var s := v.state;
    && v.spot in held && s in values && held[v.spot] == values[s]
    && s in at && at[s] < |casts| && FqnsOf(all, s) != [] && casts[at[s]].fqn == FqnsOf(all, s)[0]
    && values[s] == Received(casts[at[s]], at[s], wire)
  }

  ghost predicate CastsOk(casts: seq<Cast>, shard: map<Fqn, Loaded>, me: nat, planned: seq<Fqn>) {
    |casts| == |planned|
    && forall k :: 0 <= k < |casts| ==> planned[k] in shard && casts[k] == CastOf(shard[planned[k]], planned[k], me)
  }

  // ---------------------------------------------------------------- one more visit

  lemma ListedState(v: Visit, all: seq<Name>, names: map<nat, seq<Fqn>>, visited: seq<Visit>)
    requires Listed(v, all) && NamesOk(names, all, visited)
    ensures NameOk(names, all, visited, v.state)
  {
    var i :| 0 <= i < |all| && all[i].spot == v.spot && all[i].state == v.state;
    assert NameOk(names, all, visited, all[i].state);
  }

  lemma {:induction false} NamesOkNext(names: map<nat, seq<Fqn>>, all: seq<Name>, visited: seq<Visit>, v: Visit)
    requires NamesOk(names, all, visited) && Listed(v, all) && NextName(all, visited, v.state).Some?
    ensures v.state in names && names[v.state] != [] && names[v.state][0] == NextName(all, visited, v.state).value
    ensures NamesOk(names[v.state := names[v.state][1..]], all, visited + [v])
  {
    ListedState(v, all, names, visited);
    hide FqnsOf, Listed;
    var names' := names[v.state := names[v.state][1..]];
    forall i | 0 <= i < |all| ensures NameOk(names', all, visited + [v], all[i].state) {
      TimesAppend(visited, v, all[i].state);
      assert NameOk(names, all, visited, all[i].state);
    }
  }

  lemma {:induction false} PlannedNext(all: seq<Name>, visited: seq<Visit>, v: Visit)
    requires NextName(all, visited, v.state).Some?
    ensures var f := NextName(all, visited, v.state).value;
            && Popped(all, visited + [v]) == Popped(all, visited) + {f}
            && Planned(all, visited + [v])
               == (if Times(visited, v.state) == 0 then Planned(all, visited) + [f] else Planned(all, visited))
            && (Times(visited, v.state) == 0 ==> f == FqnsOf(all, v.state)[0])
            && FqnsOf(all, v.state) != []
  {
    assert (visited + [v])[..|visited|] == visited;
  }

  lemma SpotsAppend(vs: seq<Visit>, v: Visit)
    ensures SpotsOf(vs + [v]) == SpotsOf(vs) + {v.spot}
  {
    assert forall u :: u in vs + [v] <==> u in vs || u == v;
  }

  /** First visit of a state: a new broadcast. */
  lemma {:induction false} ValuesNew(held: map<Spot, Value>, values: map<nat, Value>, at: map<nat, nat>, casts: seq<Cast>,
                                     wire: nat -> Value, all: seq<Name>, visited: seq<Visit>, v: Visit, c: Cast)
    requires ValuesOk(held, values, at, casts, wire, all, visited) && NewTo(v, visited)
    requires Times(visited, v.state) == 0 && FqnsOf(all, v.state) != [] && c.fqn == FqnsOf(all, v.state)[0]
    ensures var got := Received(c, |casts|, wire);
            ValuesOk(held[v.spot := got], values[v.state := got], at[v.state := |casts|], casts + [c], wire, all, visited + [v])
  {
    hide FqnsOf, Times, Received, SpotsOf;
    TimesMembers(visited, v.state);
    var got := Received(c, |casts|, wire);
    var held', values', at' := held[v.spot := got], values[v.state := got], at[v.state := |casts|];
    forall i | 0 <= i < |visited| ensures ValueOk(held', values', at', casts + [c], wire, all, visited[i]) {
      TimesMembers(visited, visited[i].state);
      assert ValueOk(held, values, at, casts, wire, all, visited[i]);
    }
    SpotsAppend(visited, v);
    forall s: nat ensures Times(visited + [v], s) == Times(visited, s) + (if v.state == s then 1 else 0) {
      TimesAppend(visited, v, s);
    }
    assert ValueOk(held', values', at', casts + [c], wire, all, v);
  }

  /** A further slot of a state already broadcast. */
  lemma {:induction false} ValuesAgain(held: map<Spot, Value>, values: map<nat, Value>, at: map<nat, nat>, casts: seq<Cast>,
                                       wire: nat -> Value, all: seq<Name>, visited: seq<Visit>, v: Visit)
    requires ValuesOk(held, values, at, casts, wire, all, visited) && NewTo(v, visited)
    requires Times(visited, v.state) > 0
    ensures v.state in values && ValuesOk(held[v.spot := values[v.state]], values, at, casts, wire, all, visited + [v])
  {
    hide FqnsOf, Times, Received, SpotsOf;
    TimesMembers(visited, v.state);
    var u :| 0 <= u < |visited| && visited[u].state == v.state;
    assert ValueOk(held, values, at, casts, wire, all, visited[u]);
    var held' := held[v.spot := values[v.state]];
    forall i | 0 <= i < |visited| ensures ValueOk(held', values, at, casts, wire, all, visited[i]) {
      assert ValueOk(held, values, at, casts, wire, all, visited[i]);
    }
    SpotsAppend(visited, v);
    forall s: nat ensures Times(visited + [v], s) == Times(visited, s) + (if v.state == s then 1 else 0) {
      TimesAppend(visited, v, s);
    }
    assert ValueOk(held', values, at, casts, wire, all, v);
  }

  lemma {:induction false} CastsNext(casts: seq<Cast>, shard: map<Fqn, Loaded>, me: nat, planned: seq<Fqn>, f: Fqn)
    requires CastsOk(casts, shard, me, planned) && f in shard
    ensures CastsOk(casts + [CastOf(shard[f], f, me)], shard, me, planned + [f])
  {
  }

  lemma {:induction false} AmongNext(visited: seq<Visit>, all: seq<Name>, v: Visit)
    requires Among(visited, all) && Listed(v, all) && NewTo(v, visited)
    ensures Among(visited + [v], all)
  {
    hide Listed;
  }

  lemma ValuesState(held: map<Spot, Value>, values: map<nat, Value>, at: map<nat, nat>, casts: seq<Cast>, wire: nat -> Value,
                    all: seq<Name>, visited: seq<Visit>, state: nat)
    requires ValuesOk(held, values, at, casts, wire, all, visited)
    ensures state in values <==> Times(visited, state) > 0
  {
  }

  // ---------------------------------------------------------------- many visits

  /** Every visit from number `from` on finds in the checkpoint what it needs. */
  ghost predicate AllAllowed(all: seq<Name>, visited: seq<Visit>, from: nat, names: set<Fqn>) {
    forall i :: from <= i < |visited| ==> Allowed(all, visited[..i], visited[i], names)
  }

  lemma AllowedSplit(all: seq<Name>, visited: seq<Visit>, more: seq<Visit>, from: nat, names: set<Fqn>)
    requires from <= |visited|
    ensures AllAllowed(all, visited, |visited|, names)
    ensures AllAllowed(all, visited + more, from, names) <==>
            AllAllowed(all, visited, from, names) && AllAllowed(all, visited + more, |visited|, names)
  {
    hide Allowed;
    var list := visited + more;
    forall i | 0 <= i < |visited| ensures list[..i] == visited[..i] && list[i] == visited[i] {}
  }

  lemma AllowedOne(all: seq<Name>, visited: seq<Visit>, v: Visit, names: set<Fqn>)
    ensures AllAllowed(all, visited + [v], |visited|, names) <==> Allowed(all, visited, v, names)
  {
    hide Allowed;
    assert (visited + [v])[..|visited|] == visited;
  }

  lemma {:induction false} OnMetaConcat(a: seq<Visit>, b: seq<Visit>, filled: set<Spot>, meta: set<nat>)
    ensures OnMeta(a + b, filled, meta) == OnMeta(a, filled, meta) + OnMeta(b, filled, meta)
  {
    if b == [] {
      assert a + b == a;
    } else {
      var n := |b| - 1;
      OnMetaConcat(a, b[..n], filled, meta);
      assert (a + b)[..|a + b| - 1] == a + b[..n];
    }
  }

  lemma {:induction false} OnMetaMembers(vs: seq<Visit>, filled: set<Spot>, meta: set<nat>)
    ensures forall v :: v in OnMeta(vs, filled, meta) <==> v in vs && IsMeta(v, filled, meta)
  {
    if vs != [] {
      var n := |vs| - 1;
      OnMetaMembers(vs[..n], filled, meta);
      assert vs == vs[..n] + [vs[n]];
    }
  }

  lemma {:induction false} YieldedMembers(vs: seq<Visit>, filled: set<Spot>)
    ensures forall v <- Yielded(vs, filled) :: v in vs
  {
    if vs != [] {
      YieldedMembers(vs[..|vs| - 1], filled);
    }
  }

  ghost predicate DifferentSpots(vs: seq<Visit>) {
    forall i, j :: 0 <= i < j < |vs| ==> vs[i].spot != vs[j].spot
  }

  lemma {:induction false} YieldedDifferent(vs: seq<Visit>, filled: set<Spot>)
    requires DifferentSpots(vs)
    ensures DifferentSpots(Yielded(vs, filled))
  {
    if vs != [] {
      var n := |vs| - 1;
      var before := Yielded(vs[..n], filled);
      YieldedDifferent(vs[..n], filled);
      YieldedMembers(vs[..n], filled);
      forall i | 0 <= i < |before| ensures before[i].spot != vs[n].spot {
        assert before[i] in before;
        var k :| 0 <= k < n && vs[..n][k] == before[i];
      }
    }
  }

  /** A call looks at different slots of its own module object. */
  lemma LookedIsOwn(ms: Modules, m: nat, filled: set<Spot>)
    requires m < |ms|
    ensures DifferentSpots(Looked(ms, m, filled))
    ensures forall v <- Looked(ms, m, filled) :: v in OwnSlots(ms, m, v.spot.isParam) && v.spot.m == m
  {
    var a, b := OwnSlots(ms, m, true), OwnSlots(ms, m, false);
    YieldedDifferent(a, filled);
    YieldedDifferent(b, filled);
    YieldedMembers(a, filled);
    YieldedMembers(b, filled);
    var x, y := Yielded(a, filled), Yielded(b, filled);
    forall v | v in x ensures v.spot.isParam && v in a {}
    forall v | v in y ensures !v.spot.isParam && v in b {}
    forall i, j | 0 <= i < |x| && 0 <= j < |y| ensures x[i].spot != y[j].spot {
      assert x[i] in x && y[j] in y;
    }
  }

  /** Slots of the module, each once. */
  ghost predicate Looks(vs: seq<Visit>, all: seq<Name>) {
    DifferentSpots(vs) && forall i :: 0 <= i < |vs| ==> Listed(vs[i], all)
  }

  lemma NextSlot(visited: seq<Visit>, vs: seq<Visit>, i: nat, all: seq<Name>, meta: set<nat>)
    requires Looks(vs, all) && i < |vs|
    ensures var filled := SpotsOf(visited);
            && Listed(vs[i], all)
            && (vs[i].spot !in filled ==> NewTo(vs[i], visited + OnMeta(vs[..i], filled, meta)))
            && OnMeta(vs[..i + 1], filled, meta)
               == (if IsMeta(vs[i], filled, meta) then OnMeta(vs[..i], filled, meta) + [vs[i]] else OnMeta(vs[..i], filled, meta))
            && OnMeta(vs, filled, meta) == OnMeta(vs[..i + 1], filled, meta) + OnMeta(vs[i + 1..], filled, meta)
  {
    var filled := SpotsOf(visited);
    var done := OnMeta(vs[..i], filled, meta);
    OnMetaMembers(vs[..i], filled, meta);
    assert vs[..i + 1][..i] == vs[..i];
    assert vs == vs[..i + 1] + vs[i + 1..];
    OnMetaConcat(vs[..i + 1], vs[i + 1..], filled, meta);
    if vs[i].spot !in filled {
      forall k | 0 <= k < |visited + done| ensures (visited + done)[k].spot != vs[i].spot {
        if k < |visited| {
          assert visited[k] in visited;
        } else {
          assert done[k - |visited|] in done;
          var j :| 0 <= j < i && vs[..i][j] == done[k - |visited|];
        }
      }
    }
  }

  // ---------------------------------------------------------------- many calls

  lemma AfterOne(ms: Modules, m: nat, visited: seq<Visit>, meta: set<nat>)
    requires m < |ms|
    ensures After(ms, [m], visited, meta) == visited + OnMeta(Looked(ms, m, SpotsOf(visited)), SpotsOf(visited), meta)
  {
    assert [m][..0] == [];
  }

  lemma {:induction false} AfterConcat(ms: Modules, a: seq<nat>, b: seq<nat>, visited: seq<Visit>, meta: set<nat>)
    requires AllBelow(a, |ms|) && AllBelow(b, |ms|)
    ensures AllBelow(a + b, |ms|)
    ensures After(ms, a + b, visited, meta) == After(ms, b, After(ms, a, visited, meta), meta)
    decreases |b|
  {
    hide Looked, OnMeta;
    if b == [] {
      assert a + b == a;
    } else {
      var n := |b| - 1;
      AfterConcat(ms, a, b[..n], visited, meta);
      assert (a + b)[..|a + b| - 1] == a + b[..n];
    }
  }

  /** Calls only ever add visits. */
  lemma {:induction false} AfterExtends(ms: Modules, calls: seq<nat>, visited: seq<Visit>, meta: set<nat>) returns (more: seq<Visit>)
    requires AllBelow(calls, |ms|)
    ensures After(ms, calls, visited, meta) == visited + more
    decreases |calls|
  {
    hide Looked, OnMeta;
    more := [];
    if calls != [] {
      var n := |calls| - 1;
      more := AfterExtends(ms, calls[..n], visited, meta);
      var before := After(ms, calls[..n], visited, meta);
      more := more + OnMeta(Looked(ms, calls[n], SpotsOf(before)), SpotsOf(before), meta);
    }
  }

  /** Some calls, then more: the visits, and whether all of them are allowed. */
  lemma CallsThenCalls(ms: Modules, a: seq<nat>, b: seq<nat>, visited: seq<Visit>, meta: set<nat>, all: seq<Name>,
                       from: nat, names: set<Fqn>)
    requires AllBelow(a, |ms|) && AllBelow(b, |ms|) && from <= |visited|
    ensures AllBelow(a + b, |ms|)
    ensures var mid := After(ms, a, visited, meta);
            && |visited| <= |mid|
            && After(ms, a + b, visited, meta) == After(ms, b, mid, meta)
            && (AllAllowed(all, After(ms, a + b, visited, meta), from, names) <==>
                  AllAllowed(all, mid, from, names) && AllAllowed(all, After(ms, b, mid, meta), |mid|, names))
  {
    hide After, AllAllowed;
    AfterConcat(ms, a, b, visited, meta);
    var mid := After(ms, a, visited, meta);
    var more := AfterExtends(ms, a, visited, meta);
    var rest := AfterExtends(ms, b, mid, meta);
    AllowedSplit(all, mid, rest, from, names);
  }

  /** The module object's slots are all named. */
  ghost predicate Covered(ms: Modules, m: nat, all: seq<Name>)
    requires m < |ms|
  {
    forall v, params: bool :: v in OwnSlots(ms, m, params) ==> Listed(v, all)
  }

  ghost predicate AllCovered(ms: Modules, calls: seq<nat>, all: seq<Name>)
    requires AllBelow(calls, |ms|)
  {
    forall i :: 0 <= i < |calls| ==> Covered(ms, calls[i], all)
  }

  lemma CoveredLooks(ms: Modules, m: nat, filled: set<Spot>, all: seq<Name>)
    requires m < |ms| && Covered(ms, m, all)
    ensures Looks(Looked(ms, m, filled), all)
  {
    hide Looked, OwnSlots, Listed;
    LookedIsOwn(ms, m, filled);
    var vs := Looked(ms, m, filled);
    forall i | 0 <= i < |vs| ensures Listed(vs[i], all) {
      assert vs[i] in vs;
    }
  }

  lemma {:induction false} CoveredConcat(ms: Modules, a: seq<nat>, b: seq<nat>, all: seq<Name>)
    requires AllBelow(a, |ms|) && AllBelow(b, |ms|) && AllBelow(a + b, |ms|)
    ensures AllCovered(ms, a + b, all) <==> AllCovered(ms, a, all) && AllCovered(ms, b, all)
  {
    hide Covered;
    forall i | 0 <= i < |a| ensures (a + b)[i] == a[i] {}
    forall i | 0 <= i < |b| ensures (a + b)[|a| + i] == b[i] {}
  }

  /** The calls for the first i children, the next one, and the rest. */
  lemma {:induction false} CallsSplit(ms: Modules, m: nat, kids: seq<nat>, i: nat) returns (rest: seq<nat>)
    requires Acyclic(ms) && m < |ms| && AllBelow(kids, m) && i < |kids|
    ensures CallsOf(ms, m, kids[..i + 1]) == CallsOf(ms, m, kids[..i]) + Calls(ms, kids[i])
    ensures CallsOf(ms, m, kids) == CallsOf(ms, m, kids[..i + 1]) + rest && AllBelow(rest, |ms|)
    decreases |kids|
  {
    hide Calls;
    assert kids[..i + 1][..i] == kids[..i];
    var n := |kids| - 1;
    if i == n {
      rest := [];
      assert kids[..i + 1] == kids;
    } else {
      rest := CallsSplit(ms, m, kids[..n], i);
      assert kids[..n][..i] == kids[..i] && kids[..n][..i + 1] == kids[..i + 1];
      rest := rest + Calls(ms, kids[n]);
    }
  }

  // ---------------------------------------------------------------- the start

  ghost predicate IsNameMap(names: map<nat, seq<Fqn>>, all: seq<Name>) {
    && (forall s: nat :: s in names <==> FqnsOf(all, s) != [])
    && (forall s: nat :: s in names ==> names[s] == FqnsOf(all, s))
  }

  lemma NameMapNext(names: map<nat, seq<Fqn>>, all: seq<Name>, n: Name)
    requires IsNameMap(names, all)
    ensures IsNameMap(names[n.state := (if n.state in names then names[n.state] else []) + [n.fqn]], all + [n])
  {
    forall s: nat ensures FqnsOf(all + [n], s) == FqnsOf(all, s) + (if n.state == s then [n.fqn] else []) {
      FqnsAppend(all, n, s);
    }
  }

  /** The names of every state, in the order of `named_parameters` and `named_buffers`. */
  method CollectNames(list: seq<Name>) returns (names: map<nat, seq<Fqn>>)
    ensures IsNameMap(names, list)
  {
    names := map[];
    for i := 0 to |list|
      invariant IsNameMap(names, list[..i])
    {
      hide IsNameMap;
      var n := list[i];
      NameMapNext(names, list[..i], n);
      assert list[..i + 1] == list[..i] + [n];
      names := names[n.state := (if n.state in names then names[n.state] else []) + [n.fqn]];
    }
    assert list[..|list|] == list;
  }

  lemma NothingVisited(names: map<nat, seq<Fqn>>, all: seq<Name>)
    requires IsNameMap(names, all) && Unique(all)
    ensures Among([], all) && NamesOk(names, all, []) && Popped(all, []) == {} && Planned(all, []) == []
    ensures forall i :: 0 <= i < |all| ==> all[i].state in names && names[all[i].state] == FqnsOf(all, all[i].state)
    ensures SpotsOf([]) == {} && forall s: nat :: Times([], s) == 0
  {
    forall i | 0 <= i < |all| ensures all[i].state in names {
      FqnsMembers(all, all[i].state);
      assert all[i].fqn in FqnsOf(all, all[i].state);
    }
  }

  class Loader {
    const rank: nat
    const wire: nat -> Value
    const ms: Modules
    const meta: set<nat>
    ghost const all: seq<Name>
    ghost const shard0: map<Fqn, Loaded>
    var names: map<nat, seq<Fqn>>
    var shared: set<nat>
    var shardStates: map<Fqn, Loaded>
    var materialized: map<nat, Value>
    /** Slots whose tensor has been replaced. */
    var held: map<Spot, Value>
    var casts: seq<Cast>
    ghost var visited: seq<Visit>
    ghost var values: map<nat, Value>
    ghost var at: map<nat, nat>

    ghost predicate Valid()
      reads this
    {
      && Acyclic(ms) && Among(visited, all) && NamesOk(names, all, visited) && SharedOk(shared, all)
      && shardStates == shard0 - Popped(all, visited)
      && CastsOk(casts, shard0, rank, Planned(all, visited))
      && ValuesOk(held, values, at, casts, wire, all, visited)
      && (forall s :: s in materialized <==> s in shared && s in values)
      && (forall s <- materialized :: materialized[s] == values[s])
    }

    /** Loads one state from the checkpoint, as its source or from its source. */
    method CreateAndSync(fqn: Fqn) returns (r: Option<Value>)
      modifies this`shardStates, this`casts
      ensures r.Some? <==> fqn in old(shardStates)
      ensures r.None? ==> shardStates == old(shardStates) && casts == old(casts)
      ensures r.Some? ==>
        && casts == old(casts) + [CastOf(old(shardStates)[fqn], fqn, rank)]
        && r.value == Received(casts[|casts| - 1], |casts| - 1, wire)
        && shardStates == old(shardStates) - {fqn}
    {
      if fqn !in shardStates { return None; }
      var c := CastOf(shardStates[fqn], fqn, rank);
      r := Some(Received(c, |casts|, wire));
      casts := casts + [c];
      shardStates := shardStates - {fqn};
    }

    /** Once its tensor is known, the slot is filled and the visit is over. */
    method Fill(v: Visit, value: Value, ghost first: bool)
      requires Acyclic(ms) && Among(visited, all) && Listed(v, all) && NamesOk(names, all, visited + [v])
      requires NewTo(v, visited) && SharedOk(shared, all)
      requires shardStates == shard0 - Popped(all, visited + [v])
      requires CastsOk(casts, shard0, rank, Planned(all, visited + [v]))
      requires first <==> Times(visited, v.state) == 0
      requires FqnsOf(all, v.state) != []
      requires if first
               then casts != [] && casts[|casts| - 1].fqn == FqnsOf(all, v.state)[0]
                    && value == Received(casts[|casts| - 1], |casts| - 1, wire)
                    && ValuesOk(held, values, at, casts[..|casts| - 1], wire, all, visited)
               else v.state in values && value == values[v.state] && ValuesOk(held, values, at, casts, wire, all, visited)
      requires forall s :: s in materialized <==> s in shared && (s in values || s == v.state)
      requires forall s <- materialized :: materialized[s] == if s == v.state then value else values[s]
      modifies this`held, this`visited, this`values, this`at
      ensures Valid() && visited == old(visited) + [v]
    {
      hide NamesOk, ValuesOk, CastsOk, Popped, Planned, FqnsOf, Times, Among, Received, Listed, SharedOk, Acyclic;
      AmongNext(visited, all, v);
      if first {
        var n := |casts| - 1;
        ValuesNew(held, values, at, casts[..n], wire, all, visited, v, casts[n]);
        assert casts[..n] + [casts[n]] == casts;
        values, at := values[v.state := value], at[v.state := n];
      } else {
        ValuesAgain(held, values, at, casts, wire, all, visited, v);
      }
      held := held[v.spot := value];
      visited := visited + [v];
    }

    /** One slot on the meta device. */
    method InitSlot(v: Visit) returns (ok: bool)
      requires Valid() && Listed(v, all) && NewTo(v, visited)
      modifies this
      ensures ok <==> Allowed(all, old(visited), v, shard0.Keys)
      ensures ok ==> Valid() && visited == old(visited) + [v]
    {
      hide NamesOk, ValuesOk, CastsOk, Popped, Planned, FqnsOf, Times, Listed, NewTo, SharedOk, Acyclic;
      NameLeft(all, visited, v);
      NextNotPopped(all, visited, v.state);
      NamesOkNext(names, all, visited, v);
      PlannedNext(all, visited, v);
      ValuesState(held, values, at, casts, wire, all, visited, v.state);
      SharedState(shared, all, v, visited);
      var fqn := names[v.state][0];
      names := names[v.state := names[v.state][1..]];
      if !v.spot.isParam && fqn !in shardStates { return false; }
      var value: Value;
      if v.state in shared {
        if v.state !in materialized {
          var created := CreateAndSync(fqn);
          if created.None? { return false; }
          value := created.value;
          CastsNext(old(casts), shard0, rank, Planned(all, visited), fqn);
          materialized := materialized[v.state := value];
        } else {
          if fqn in shardStates {
            shardStates := shardStates - {fqn};
          }
          value := materialized[v.state];
        }
      } else {
        var created := CreateAndSync(fqn);
        if created.None? { return false; }
        value := created.value;
        CastsNext(old(casts), shard0, rank, Planned(all, visited), fqn);
      }
      Fill(v, value, Times(visited, v.state) == 0);
      return true;
    }

    constructor (ms: Modules, root: nat, shard: map<Fqn, Loaded>, rank: nat, meta: set<nat>, wire: nat -> Value)
      requires Acyclic(ms) && root < |ms| && Unique(AllNames(ms, root))
      ensures Valid() && visited == [] && all == AllNames(ms, root)
      ensures this.ms == ms && shard0 == shard && this.rank == rank && this.meta == meta && this.wire == wire
    {
      hide Unique, AllNames, IsNameMap, FqnsOf, Times, Acyclic;
      var list := AllNames(ms, root);
      this.ms, this.rank, this.meta, this.wire, this.all, this.shard0 := ms, rank, meta, wire, list, shard;
      var collected := CollectNames(list);
      names, shared := collected, set s | s in collected && |collected[s]| > 1;
      shardStates, materialized, held, casts := shard, map[], map[], [];
      visited, values, at := [], map[], map[];
      new;
      NothingVisited(collected, list);
      assert shardStates == shard0 - Popped(list, []);
    }

    /** The slots a call has looked up, in order; those not on the meta device then are skipped. */
    method InitSlots(vs: seq<Visit>) returns (ok: bool)
      requires Valid() && Looks(vs, all)
      modifies this
      ensures var now := old(visited) + OnMeta(vs, SpotsOf(old(visited)), meta);
              && (ok <==> AllAllowed(all, now, |old(visited)|, shard0.Keys))
              && (ok ==> Valid() && visited == now)
    {
      HeldSpots();
      hide Valid, Allowed, Looks, OnMeta, AllAllowed, Listed, NewTo, SpotsOf, IsMeta;
      var filled := held.Keys;
      ghost var before := visited;
      NothingYet(all, before, filled, meta, shard0.Keys);
      assert vs[..0] == [];
      for i := 0 to |vs|
        invariant Valid() && visited == before + OnMeta(vs[..i], filled, meta)
        invariant AllAllowed(all, visited, |before|, shard0.Keys)
      {
        NextSlot(before, vs, i, all, meta);
        if IsMeta(vs[i], filled, meta) {
          SlotAllowed(all, before, vs, i, filled, meta, shard0.Keys);
          ok := InitSlot(vs[i]);
          if !ok { return false; }
        }
      }
      assert vs[..|vs|] == vs;
      return true;
    }

    lemma HeldSpots()
      requires Valid()
      ensures held.Keys == SpotsOf(visited) && Acyclic(ms)
    {
    }

    /** `init_fn`: the module object's own slots, then, if asked to, its children, each once. */
    method InitFn(m: nat, recurse: bool) returns (ok: bool)
      requires Valid() && m < |ms| && AllCovered(ms, if recurse then Calls(ms, m) else [m], all)
      modifies this
      ensures var now := After(ms, if recurse then Calls(ms, m) else [m], old(visited), meta);
              && (ok <==> AllAllowed(all, now, |old(visited)|, shard0.Keys))
              && (ok ==> Valid() && visited == now)
      decreases m
    {
      HeldSpots();
      hide Valid, AllAllowed, OnMeta, After, AllCovered, Covered, Looked, Looks, Calls, CallsOf, Acyclic, SpotsOf;
      ghost var before, all, names := visited, this.all, shard0.Keys;
      CallsBegin(ms, m, all, if recurse then Calls(ms, m) else [m], recurse);
      CoveredLooks(ms, m, SpotsOf(visited), all);
      AfterOne(ms, m, visited, meta);
      ok := InitSlots(Looked(ms, m, held.Keys));
      if !recurse { return; }
      var kids := Distinct(ms[m].children);
      CallsThenCalls(ms, [m], CallsOf(ms, m, kids), before, meta, all, |before|, names);
      if !ok { return; }
      assert kids[..0] == [];
      NoCalls(ms, m, visited, meta, all, names);
      ghost var mid := visited;
      for i := 0 to |kids|
        invariant Valid() && visited == After(ms, CallsOf(ms, m, kids[..i]), mid, meta)
        invariant AllAllowed(all, visited, |mid|, names)
      {
        KidStep(ms, m, kids, i, mid, meta, all, names);
        ok := InitFn(kids[i], true);
        if !ok { return false; }
      }
      assert kids[..|kids|] == kids;
      return true;
    }
  }

  ghost predicate SharedOk(shared: set<nat>, all: seq<Name>) {
    forall i :: 0 <= i < |all| ==> (all[i].state in shared <==> |FqnsOf(all, all[i].state)| > 1)
  }

  /** A state that is not shared is visited once. */
  lemma SharedState(shared: set<nat>, all: seq<Name>, v: Visit, visited: seq<Visit>)
    requires SharedOk(shared, all) && Listed(v, all) && NextName(all, visited, v.state).Some?
    ensures v.state !in shared ==> Times(visited, v.state) == 0
  {
    var i :| 0 <= i < |all| && all[i].spot == v.spot && all[i].state == v.state;
  }

  lemma NothingYet(all: seq<Name>, before: seq<Visit>, filled: set<Spot>, meta: set<nat>, names: set<Fqn>)
    ensures before + OnMeta([], filled, meta) == before && AllAllowed(all, before, |before|, names)
  {
  }

  /** The next slot on the meta device, as a part of all the visits. */
  lemma SlotAllowed(all: seq<Name>, before: seq<Visit>, vs: seq<Visit>, i: nat, filled: set<Spot>, meta: set<nat>, names: set<Fqn>)
    requires i < |vs| && IsMeta(vs[i], filled, meta)
    requires AllAllowed(all, before + OnMeta(vs[..i], filled, meta), |before|, names)
    ensures var now := before + OnMeta(vs[..i], filled, meta);
            && vs[i].spot !in filled
            && before + OnMeta(vs[..i + 1], filled, meta) == now + [vs[i]]
            && (Allowed(all, now, vs[i], names) <==> AllAllowed(all, now + [vs[i]], |before|, names))
            && (AllAllowed(all, before + OnMeta(vs, filled, meta), |before|, names) ==> Allowed(all, now, vs[i], names))
  {
    hide Allowed, AllAllowed;
    var now, rest := before + OnMeta(vs[..i], filled, meta), OnMeta(vs[i + 1..], filled, meta);
    assert vs[..i + 1][..i] == vs[..i];
    assert vs == vs[..i + 1] + vs[i + 1..];
    OnMetaConcat(vs[..i + 1], vs[i + 1..], filled, meta);
    AllowedSplit(all, now, [vs[i]], |before|, names);
    AllowedOne(all, now, vs[i], names);
    AllowedSplit(all, now + [vs[i]], rest, |before|, names);
    assert before + OnMeta(vs, filled, meta) == now + [vs[i]] + rest;
  }

  lemma CallsBegin(ms: Modules, m: nat, all: seq<Name>, calls: seq<nat>, recurse: bool)
    requires Acyclic(ms) && m < |ms| && calls == (if recurse then Calls(ms, m) else [m]) && AllCovered(ms, calls, all)
    ensures Covered(ms, m, all) && AllBelow(Distinct(ms[m].children), m)
    ensures recurse ==>
      var below := CallsOf(ms, m, Distinct(ms[m].children)); calls == [m] + below && AllCovered(ms, below, all)
  {
    hide Covered;
    DistinctBelow(ms, m);
    assert calls[0] == m;
    if recurse {
      CoveredConcat(ms, [m], CallsOf(ms, m, Distinct(ms[m].children)), all);
    }
  }

  /** The calls for one more child, as a part of the calls for all children. */
  lemma KidStep(ms: Modules, m: nat, kids: seq<nat>, i: nat, visited: seq<Visit>, meta: set<nat>, all: seq<Name>, names: set<Fqn>)
    requires Acyclic(ms) && m < |ms| && AllBelow(kids, m) && i < |kids| && AllCovered(ms, CallsOf(ms, m, kids), all)
    ensures AllCovered(ms, Calls(ms, kids[i]), all)
    ensures var now := After(ms, CallsOf(ms, m, kids[..i]), visited, meta);
            var next := After(ms, Calls(ms, kids[i]), now, meta);
            && next == After(ms, CallsOf(ms, m, kids[..i + 1]), visited, meta)
            && (AllAllowed(all, next, |visited|, names) <==>
                  AllAllowed(all, now, |visited|, names) && AllAllowed(all, next, |now|, names))
            && (AllAllowed(all, After(ms, CallsOf(ms, m, kids), visited, meta), |visited|, names) ==>
                  AllAllowed(all, next, |visited|, names))
  {
    hide AllAllowed, After, AllCovered, Calls, CallsOf, Acyclic;
    var done := CallsOf(ms, m, kids[..i]);
    var rest := CallsSplit(ms, m, kids, i);
    CallsThenCalls(ms, done, Calls(ms, kids[i]), visited, meta, all, |visited|, names);
    CallsThenCalls(ms, done + Calls(ms, kids[i]), rest, visited, meta, all, |visited|, names);
    CoveredConcat(ms, done + Calls(ms, kids[i]), rest, all);
    CoveredConcat(ms, done, Calls(ms, kids[i]), all);
  }

  lemma NoCalls(ms: Modules, m: nat, visited: seq<Visit>, meta: set<nat>, all: seq<Name>, names: set<Fqn>)
    requires Acyclic(ms) && m < |ms|
    ensures CallsOf(ms, m, []) == [] && After(ms, [], visited, meta) == visited && AllAllowed(all, visited, |visited|, names)
  {
  }
}
