/** Stacking the experts of mixture-of-experts layers and unstacking them again
    (scripts/veomni/moe_merge.py, scripts/veomni/moe_split.py). */
module ExpertStacking {

  datatype Proj = Gate | Up | Down

  /** The names of a state dictionary: one expert's projection, the stacked projections, anything else. */
  datatype Key = Expert(layer: nat, expert: nat, proj: Proj) | Stacked(layer: nat, proj: Proj) | Other(name: string)

  /** A tensor, seen as its slices along dimension 0. */
  datatype Tensor = Scalar(value: int) | Slices(slices: seq<Tensor>)

  type States = map<Key, Tensor>

  datatype Outcome = Done(states: States) | KeyError | IndexError | StackError

  type Place = (nat, Proj)

  // ---------------------------------------------------------------- what the loops have done

  /** The experts of these places have been stacked, all other entries are as before. */
  ghost predicate StackedAt(now: States, before: States, places: set<Place>, experts: nat) {
    && (forall key :: key in now <==>
          match key
          case Expert(i, j, p) => key in before && !((i, p) in places && j < experts)
          case Stacked(i, p) => (i, p) in places || key in before
          case Other(_) => key in before)
    && (forall key <- now :: (key.Stacked? && (key.layer, key.proj) in places) || (key in before && now[key] == before[key]))
    && (forall place <- places :: Stacked(place.0, place.1) in now && IsStack(now[Stacked(place.0, place.1)], before, place, experts))
  }

  ghost predicate IsStack(t: Tensor, before: States, place: Place, experts: nat) {
    && t.Slices? && |t.slices| == experts
    && forall j: nat :: j < experts ==>
         var key := Expert(place.0, j, place.1); key in before && t.slices[j] == before[key]
  }

  /** The stacked entries of these places, where there were any, have been taken apart. */
  ghost predicate UnstackedAt(now: States, before: States, places: set<Place>, experts: nat) {
    && (forall key :: key in now <==>
          match key
          case Expert(i, j, p) => key in before || ((i, p) in places && j < experts && Stacked(i, p) in before)
          case Stacked(i, p) => key in before && (i, p) !in places
          case Other(_) => key in before)
    && (forall key <- now ::
          if key.Expert? && (key.layer, key.proj) in places && key.expert < experts && Stacked(key.layer, key.proj) in before
          then Sliced(before[Stacked(key.layer, key.proj)], key.expert, now[key])
          else key in before && now[key] == before[key])
  }

  ghost predicate Sliced(t: Tensor, j: nat, slice: Tensor) {
    t.Slices? && j < |t.slices| && t.slices[j] == slice
  }

  // ---------------------------------------------------------------- stacking

  /** One projection of one layer: its experts are popped and their stack is stored. */
  method StackOne(states: States, i: nat, p: Proj, experts: nat, ghost before: States, ghost places: set<Place>) returns (r: Outcome)
    requires StackedAt(states, before, places, experts) && (i, p) !in places
    ensures r.Done? || r.KeyError? || r.StackError?
    ensures r.Done? ==> StackedAt(r.states, before, places + {(i, p)}, experts)
    ensures r.Done? <==> experts > 0 && forall j: nat :: j < experts ==> Expert(i, j, p) in before
  {
    var now, list := states, [];
    for j := 0 to experts
      invariant |list| == j
      invariant forall k: nat :: k < j ==> Expert(i, k, p) in before && list[k] == before[Expert(i, k, p)]
      invariant forall key :: key in now <==> key in states && !(key.Expert? && key.layer == i && key.proj == p && key.expert < j)
      invariant forall key <- now :: now[key] == states[key]
    {
      var key := Expert(i, j, p);
      assert key in now <==> key in before;
      if key !in now { return KeyError; }
      list := list + [now[key]];
      now := now - {key};
    }
    if list == [] { return StackError; }
    now := now[Stacked(i, p) := Slices(list)];
    StackedNext(states, now, before, places, experts, i, p);
    return Done(now);
  }

  lemma StackedNext(states: States, now: States, before: States, places: set<Place>, experts: nat, i: nat, p: Proj)
    requires StackedAt(states, before, places, experts) && (i, p) !in places
    requires Stacked(i, p) in now && IsStack(now[Stacked(i, p)], before, (i, p), experts)
    requires forall key :: key in now <==>
      key == Stacked(i, p) || (key in states && !(key.Expert? && key.layer == i && key.proj == p && key.expert < experts))
    requires forall key <- now :: key == Stacked(i, p) || now[key] == states[key]
    ensures StackedAt(now, before, places + {(i, p)}, experts)
  {
  }

  /** All projections of the layers from `start` below n. */
  function Places(start: nat, n: nat): set<Place> {
    if n <= start then {} else Places(start, n - 1) + {(n - 1, Gate), (n - 1, Up), (n - 1, Down)}
  }

  lemma {:induction false} PlacesMembers(start: nat, n: nat)
    ensures forall i: nat, p: Proj :: (i, p) in Places(start, n) <==> start <= i < n
    decreases n
  {
    if n > start {
      PlacesMembers(start, n - 1);
      forall i: nat, p: Proj ensures (i, p) in Places(start, n) <==> start <= i < n {
        assert p == Gate || p == Up || p == Down;
      }
    }
  }

  /** Every expert of the layers from `start` on is there, and there is one. */
  ghost predicate HasExperts(states: States, start: nat, n: nat, experts: nat) {
    start < n ==> experts > 0 && forall i: nat, j: nat, p: Proj :: start <= i < n && j < experts ==> Expert(i, j, p) in states
  }

  ghost predicate LayerHas(states: States, i: nat, experts: nat) {
    experts > 0 && forall j: nat, p: Proj :: j < experts ==> Expert(i, j, p) in states
  }

  lemma HasLayers(states: States, start: nat, i: nat, layers: nat, experts: nat)
    requires start <= i < layers
    ensures HasExperts(states, start, start, experts)
    ensures HasExperts(states, start, i + 1, experts) <==> HasExperts(states, start, i, experts) && LayerHas(states, i, experts)
    ensures HasExperts(states, start, layers, experts) ==> HasExperts(states, start, i + 1, experts)
  {
  }

  lemma NoPlaces(states: States, start: nat, layers: nat, experts: nat)
    ensures StackedAt(states, states, Places(start, start), experts)
    ensures start >= layers ==> Places(start, layers) == Places(start, start) && HasExperts(states, start, layers, experts)
  {
  }

  lemma NextPlaces(start: nat, i: nat)
    requires start <= i
    ensures Places(start, i + 1) == Places(start, i) + {(i, Gate), (i, Up), (i, Down)}
  {
  }

  method StackLayer(states: States, i: nat, experts: nat, ghost before: States, ghost places: set<Place>) returns (r: Outcome)
    requires StackedAt(states, before, places, experts) && forall p: Proj :: (i, p) !in places
    ensures r.Done? <==> LayerHas(before, i, experts)
    ensures r.Done? ==> StackedAt(r.states, before, places + {(i, Gate), (i, Up), (i, Down)}, experts)
  {
    hide StackedAt;
    r := StackOne(states, i, Gate, experts, before, places);
    if !r.Done? { return; }
    r := StackOne(r.states, i, Up, experts, before, places + {(i, Gate)});
    if !r.Done? { return; }
    r := StackOne(r.states, i, Down, experts, before, places + {(i, Gate)} + {(i, Up)});
    if !r.Done? { return; }
    assert places + {(i, Gate)} + {(i, Up)} + {(i, Down)} == places + {(i, Gate), (i, Up), (i, Down)};
    forall j: nat, p: Proj | j < experts ensures Expert(i, j, p) in before {
      assert p == Gate || p == Up || p == Down;
    }
  }

  /** moe_merge: stacks the experts of all layers from the first one that is not dense. */
  method Merge(states: States, start: nat, layers: nat, experts: nat) returns (r: Outcome)
    ensures r.Done? <==> HasExperts(states, start, layers, experts)
    ensures r.Done? ==> StackedAt(r.states, states, Places(start, layers), experts)
  {
    NoPlaces(states, start, layers, experts);
    hide StackedAt, HasExperts, LayerHas, Places;
    var now := states;
    if start >= layers { return Done(now); }
    HasLayers(states, start, start, layers, experts);
    for i := start to layers
      invariant StackedAt(now, states, Places(start, i), experts) && HasExperts(states, start, i, experts)
    {
      NextPlaces(start, i);
      PlacesMembers(start, i);
      HasLayers(states, start, i, layers, experts);
      r := StackLayer(now, i, experts, states, Places(start, i));
      if !r.Done? { return; }
      now := r.states;
    }
    return Done(now);
  }

  // ---------------------------------------------------------------- unstacking

  ghost predicate CanUnstack(states: States, i: nat, p: Proj, experts: nat) {
    Stacked(i, p) in states && experts > 0 ==>
      states[Stacked(i, p)].Slices? && experts <= |states[Stacked(i, p)].slices|
  }

  method UnstackOne(states: States, i: nat, p: Proj, experts: nat, ghost before: States, ghost places: set<Place>) returns (r: Outcome)
    requires UnstackedAt(states, before, places, experts) && (i, p) !in places
    ensures r.Done? || r.IndexError?
    ensures r.Done? ==> UnstackedAt(r.states, before, places + {(i, p)}, experts)
    ensures r.Done? <==> CanUnstack(before, i, p, experts)
  {
    var now, key := states, Stacked(i, p);
    assert key in now <==> key in before;
    assert key in now ==> now[key] == before[key];
    if key in now {
      var stacked := now[key];
      now := now - {key};
      for j := 0 to experts
        invariant j > 0 ==> stacked.Slices? && j <= |stacked.slices|
        invariant forall k :: k in now <==> (k in states && k != key) || (k.Expert? && k.layer == i && k.proj == p && k.expert < j)
        invariant forall k <- now ::
          if k.Expert? && k.layer == i && k.proj == p && k.expert < j then Sliced(stacked, k.expert, now[k]) else now[k] == states[k]
      {
        if !stacked.Slices? || j >= |stacked.slices| { return IndexError; }
        now := now[Expert(i, j, p) := stacked.slices[j]];
      }
    }
    return Done(now);
  }

  /** moe_split: takes every stacked entry apart. */
  method Split(states: States, layers: nat, experts: nat) returns (r: Outcome)
    ensures r.Done? <==> forall i: nat, p: Proj :: i < layers ==> CanUnstack(states, i, p, experts)
    ensures r.Done? ==> UnstackedAt(r.states, states, Places(0, layers), experts)
  {
    var now := states;
    for i := 0 to layers
      invariant UnstackedAt(now, states, Places(0, i), experts)
      invariant forall l: nat, p: Proj :: l < i ==> CanUnstack(states, l, p, experts)
    {
      hide UnstackedAt, CanUnstack;
      PlacesMembers(0, i);
      ghost var done := Places(0, i);
      r := UnstackOne(now, i, Gate, experts, states, done);
      if !r.Done? { return; }
      r := UnstackOne(r.states, i, Up, experts, states, done + {(i, Gate)});
      if !r.Done? { return; }
      r := UnstackOne(r.states, i, Down, experts, states, done + {(i, Gate)} + {(i, Up)});
      if !r.Done? { return; }
      now := r.states;
      assert done + {(i, Gate)} + {(i, Up)} + {(i, Down)} == Places(0, i + 1);
      forall l: nat, p: Proj | l < i + 1 ensures CanUnstack(states, l, p, experts) {
        assert p == Gate || p == Up || p == Down;
      }
    }
    return Done(now);
  }

  // ---------------------------------------------------------------- the round trip

  /** Unstacking after stacking gives back the whole dictionary, dense layers included, exactly when it
      had no stacked entries of its own. */
  lemma UnstackUndoesStackIff(before: States, stacked: States, after: States, start: nat, layers: nat, experts: nat)
    requires StackedAt(stacked, before, Places(start, layers), experts)
    requires UnstackedAt(after, stacked, Places(0, layers), experts)
    ensures after == before <==> forall i: nat, p: Proj :: i < layers ==> Stacked(i, p) !in before
  {
    PlacesMembers(start, layers);
    PlacesMembers(0, layers);
    if forall i: nat, p: Proj :: i < layers ==> Stacked(i, p) !in before {
      forall key ensures key in after <==> key in before {
        SameKey(before, stacked, after, start, layers, experts, key);
      }
      forall key | key in after ensures after[key] == before[key] {
        SameKey(before, stacked, after, start, layers, experts, key);
      }
    }
  }

  lemma SameKey(before: States, stacked: States, after: States, start: nat, layers: nat, experts: nat, key: Key)
    requires StackedAt(stacked, before, Places(start, layers), experts)
    requires UnstackedAt(after, stacked, Places(0, layers), experts)
    requires forall i: nat, p: Proj :: i < layers ==> Stacked(i, p) !in before
    ensures key in after <==> key in before
    ensures key in after ==> after[key] == before[key]
  {
    PlacesMembers(start, layers);
    PlacesMembers(0, layers);
    if key.Expert? {
      var place := (key.layer, key.proj);
      if place in Places(start, layers) && key.expert < experts {
        assert IsStack(stacked[Stacked(key.layer, key.proj)], before, place, experts);
      }
    }
  }

  /** And then unstacking succeeds. */
  lemma StackedCanBeUnstacked(before: States, stacked: States, start: nat, layers: nat, experts: nat)
    requires StackedAt(stacked, before, Places(start, layers), experts)
    requires forall i: nat, p: Proj :: i < layers ==> Stacked(i, p) !in before
    ensures forall i: nat, p: Proj :: i < layers ==> CanUnstack(stacked, i, p, experts)
  {
    PlacesMembers(start, layers);
    forall i: nat, p: Proj | i < layers ensures CanUnstack(stacked, i, p, experts) {
      if (i, p) in Places(start, layers) {
        assert IsStack(stacked[Stacked(i, p)], before, (i, p), experts);
      }
    }
  }

  /** No layer below n has a stacked entry. */
  ghost predicate NothingStacked(states: States, n: nat) {
    forall i: nat, p: Proj :: i < n ==> Stacked(i, p) !in states
  }

  /** moe_merge and then moe_split: a dictionary without stacked entries of its own goes through exactly
      when it has all experts, and comes back as it was; one with such entries never does. */
  method MergeThenSplit(states: States, start: nat, layers: nat, experts: nat) returns (r: Outcome)
    ensures NothingStacked(states, layers) ==> (r.Done? <==> HasExperts(states, start, layers, experts))
    ensures r.Done? ==> HasExperts(states, start, layers, experts)
    ensures r.Done? ==> (r.states == states <==> NothingStacked(states, layers))
  {
    hide StackedAt, UnstackedAt, HasExperts, CanUnstack, Places;
    var stacked := Merge(states, start, layers, experts);
    if !stacked.Done? { return stacked; }
    r := Split(stacked.states, layers, experts);
    if NothingStacked(states, layers) {
      StackedCanBeUnstacked(states, stacked.states, start, layers, experts);
    }
    if r.Done? {
      UnstackUndoesStackIff(states, stacked.states, r.states, start, layers, experts);
    }
  }
}
