/** When activation groups are offloaded and reloaded (verl/utils/activation_offload.py): the window
    map of G offloaded groups over L layers. */
module OffloadSchedule {

  function Min(a: int, b: int): int { if a < b then a else b }

  /** The layer whose commit closes window i. */
  function Window(i: int, groups: nat, layers: nat): int
    requires 0 < groups
  {
    layers / groups * (i + 1) - 1 + Min(i + 1, layers % groups)
  }

  /** The balancing loop of the constructor. */
  method BuildWindowMap(groups: nat, layers: nat) returns (m: map<int, int>)
    requires 0 < groups
    ensures forall i :: i in m <==> 0 <= i < groups
    ensures forall i :: 0 <= i < groups ==> m[i] == Window(i, groups, layers)
  {
    m := map[];
    var constant := 0;
    for i := 0 to groups
      invariant forall j :: j in m <==> 0 <= j < i
      invariant forall j :: 0 <= j < i ==> m[j] == Window(j, groups, layers)
      invariant constant == Min(i, layers % groups)
    {
      var w := layers / groups * (i + 1) - 1;
      if i < layers % groups {
        w := w + (i + 1);
        constant := i + 1;
      } else {
        w := w + constant;
      }
      m := m[i := w];
    }
  }

  /** Windows close one after another. */
  lemma {:induction false} WindowsIncrease(i: nat, j: nat, groups: nat, layers: nat)
    requires i < j < groups <= layers
    ensures Window(i, groups, layers) + (j - i) <= Window(j, groups, layers)
    decreases j - i
  {
    var q := layers / groups;
    assert q >= 1;
    assert q * (j + 1) == q * j + q;
    if i + 1 < j {
      WindowsIncrease(i, j - 1, groups, layers);
    }
  }

  /** The last window closes with the last layer. */
  lemma LastWindow(groups: nat, layers: nat)
    requires 0 < groups
    ensures Window(groups - 1, groups, layers) == layers - 1
  {
    assert layers == layers / groups * groups + layers % groups;
  }

  /** How many layers there are from the end of the window before to the end of window i. */
  function Gap(i: nat, groups: nat, layers: nat): int
    requires 0 < groups
  {
    Window(i, groups, layers) - if i == 0 then -1 else Window(i - 1, groups, layers)
  }

  /** The load is balanced: windows differ by at most one layer, longer ones first. */
  lemma WindowsBalanced(i: nat, j: nat, groups: nat, layers: nat)
    requires i <= j < groups
    ensures Gap(j, groups, layers) <= Gap(i, groups, layers) <= Gap(j, groups, layers) + 1
  {
    var q := layers / groups;
    assert q * (i + 1) == q * i + q && q * (j + 1) == q * j + q;
  }

  /** Window i leaves room for group i + 1 to be pushed first, exactly when a layer is not offloaded. */
  lemma WindowAfterNextGroup(i: nat, groups: nat, layers: nat)
    requires i < groups <= layers
    ensures Window(i, groups, layers) >= i + 1 <==> groups < layers
  {
    var q := layers / groups;
    if groups == layers {
      assert q == 1 && layers % groups == 0;
      assert q * (i + 1) == i + 1;
    } else if q == 1 {
      assert layers == groups + layers % groups;
      assert q * (i + 1) == i + 1;
    } else {
      assert q >= 2;
      assert q * (i + 1) >= 2 * (i + 1);
    }
  }

  /** Offloading all layers but one: window i closes with layer i + 1. */
  lemma WindowsOfAllButOne(i: nat, layers: nat)
    requires i < layers - 1 && 3 <= layers
    ensures Window(i, layers - 1, layers) == i + 1
  {
    assert layers / (layers - 1) == 1 && layers % (layers - 1) == 1;
  }

  // ---------------------------------------------------------------- which groups are away

  /** The commit at which group g is offloaded: layer 0 for group 0, then the end of window g - 1. */
  function OffloadedAt(g: nat, groups: nat, layers: nat): int
    requires 0 < groups
  {
    if g == 0 then 0 else Window(g - 1, groups, layers)
  }

  /** Groups offloaded after `commits` forward commits. */
  function AwayForward(commits: int, groups: nat, layers: nat): set<nat>
    requires 0 < groups
  {
    set g: nat | g < groups && OffloadedAt(g, groups, layers) < commits
  }

  /** Groups not yet reloaded when the backward pass has committed down to layer `current`. */
  function AwayBackward(current: int, groups: nat, layers: nat): set<nat>
    requires 0 < groups
  {
    set g: nat | g < groups && Window(g, groups, layers) < current
  }

  /** Every group is pushed completely before it is offloaded, is offloaded by the end of the forward
      pass, and is back one layer before its own backward pass. */
  lemma EachGroupInTime(g: nat, groups: nat, layers: nat)
    requires g < groups < layers
    ensures g <= OffloadedAt(g, groups, layers) < layers
    ensures g < Window(g, groups, layers) < layers
    ensures g in AwayForward(layers, groups, layers) && g !in AwayForward(g, groups, layers)
    ensures g !in AwayBackward(g + 1, groups, layers)
  {
    LastWindow(groups, layers);
    WindowAfterNextGroup(g, groups, layers);
    if g < groups - 1 {
      WindowsIncrease(g, groups - 1, groups, layers);
    }
    if g > 0 {
      WindowAfterNextGroup(g - 1, groups, layers);
      WindowsIncrease(g - 1, g, groups, layers);
    }
  }

  /** The counter before forward commit `commits`: the windows closed so far. */
  ghost predicate ForwardCount(count: int, commits: int, groups: nat, layers: nat)
    requires 0 < groups
  {
    && 0 <= count <= groups
    && (count > 0 ==> Window(count - 1, groups, layers) < commits)
    && (count < groups ==> commits <= Window(count, groups, layers))
  }

  /** The counter after the backward commit of layer `current`: it stays at 1 until layer 0. */
  ghost predicate BackwardCount(count: int, current: int, groups: nat, layers: nat)
    requires 0 < groups
  {
    if current == 0 then count == 0
    else
      && 1 <= count <= groups
      && (count > 1 ==> Window(count - 1, groups, layers) < current)
      && (count < groups ==> current <= Window(count, groups, layers))
  }

  /** Only the counted window can close at the next commit. */
  lemma ClosingWindow(count: int, c: int, g: nat, groups: nat, layers: nat)
    requires 0 < groups < layers && ForwardCount(count, c, groups, layers) && g < groups
    ensures Window(g, groups, layers) == c ==> g == count
    ensures g < count <==> Window(g, groups, layers) < c
  {
    if g < count - 1 {
      WindowsIncrease(g, count - 1, groups, layers);
    } else if g > count {
      WindowsIncrease(count, g, groups, layers);
    }
  }

  /** One forward commit: the lookup is in range, and exactly the groups that are now due go away. */
  lemma ForwardCommit(count: int, c: int, groups: nat, layers: nat)
    requires 0 < groups < layers && 0 <= c < layers && ForwardCount(count, c, groups, layers)
    ensures count < groups
    ensures var closes := Window(count, groups, layers) == c;
            && (closes ==> c > 0)
            && (closes && count < groups - 1 ==> count + 1 <= c && count + 1 !in AwayForward(c, groups, layers))
            && ForwardCount(if closes then count + 1 else count, c + 1, groups, layers)
            && AwayForward(c + 1, groups, layers) == AwayForward(c, groups, layers)
               + (if c == 0 then {0} else {}) + (if closes && count < groups - 1 then {count + 1} else {})
  {
    hide Window;
    LastWindow(groups, layers);
    WindowAfterNextGroup(count, groups, layers);
    if count + 1 < groups {
      WindowsIncrease(count, count + 1, groups, layers);
    }
    forall g: nat | g < groups
      ensures g > 0 && OffloadedAt(g, groups, layers) == c ==> g - 1 == count
    {
      if g > 0 {
        ClosingWindow(count, c, g - 1, groups, layers);
      }
    }
  }

  /** One backward commit down to layer c: the lookup is in range, and exactly the group whose window
      closed with this layer comes back. */
  lemma BackwardCommit(count: int, c: int, groups: nat, layers: nat)
    requires 0 < groups < layers && 0 <= c < layers && BackwardCount(count, c + 1, groups, layers)
    ensures 0 <= count - 1 < groups
    ensures var closes := Window(count - 1, groups, layers) == c;
            && (closes ==> count - 1 in AwayBackward(c + 1, groups, layers) && c > 0)
            && AwayBackward(c, groups, layers)
               == AwayBackward(c + 1, groups, layers) - (if closes then {count - 1} else {})
            && BackwardCount(if c == 0 then 0 else if closes && count > 1 then count - 1 else count, c, groups, layers)
  {
    hide Window;
    assert Window(0, groups, layers) >= 1 by { WindowAfterNextGroup(0, groups, layers); }
    if count > 1 {
      WindowsIncrease(count - 2, count - 1, groups, layers);
    }
    forall g: nat | g < groups
      ensures g < count - 1 ==> Window(g, groups, layers) < Window(count - 1, groups, layers)
      ensures g >= count ==> Window(g, groups, layers) >= Window(count, groups, layers)
    {
      if g < count - 1 { WindowsIncrease(g, count - 1, groups, layers); }
      if g > count { WindowsIncrease(count, g, groups, layers); }
    }
  }

  /** The forward pass ends where the backward pass begins: everything offloaded is away. */
  lemma ForwardMeetsBackward(count: int, groups: nat, layers: nat)
    requires 0 < groups < layers && ForwardCount(count, layers, groups, layers)
    ensures count == groups && BackwardCount(count, layers, groups, layers)
    ensures AwayForward(layers, groups, layers) == AwayBackward(layers, groups, layers)
  {
    forall g: nat | g < groups
      ensures g in AwayForward(layers, groups, layers) && g in AwayBackward(layers, groups, layers)
      ensures Window(g, groups, layers) < layers
    {
      EachGroupInTime(g, groups, layers);
    }
  }
}
