/** The offload handler (verl/utils/activation_offload.py): saved activations are pushed under a tag in
    the forward pass, bulk-copied to the CPU group by group, bulk-copied back, and popped in the
    backward pass. Autograd must not notice. */
module ActivationOffload {
  import opened Outcomes
  import opened OffloadSchedule

  /** `key` stands for storage address and dtype (`_get_unique_tensor_key`). */
  datatype Tensor = Tensor(key: nat, shape: seq<nat>, flat: seq<int>)

  datatype Tag = Tag(group: nat, n: nat)

  /** What autograd stores: a tag, or the tensor itself when it is not to be offloaded. */
  datatype Saved = Tagged(tag: Tag) | Direct(tensor: Tensor)

  /** What is stored under a tag: the tensor, or where to find its CPU copy. */
  datatype Entry = Live(t: Tensor) | Away(key: nat, shape: seq<nat>)

  ghost predicate SameValue(a: Tensor, b: Tensor) { a.shape == b.shape && a.flat == b.flat }

  /** Tensors of one group with the same key have the same contents, in whatever shape. */
  ghost predicate KeysNameContents(pushed: map<Tag, Tensor>) {
    forall a <- pushed, b <- pushed :: a.group == b.group && pushed[a].key == pushed[b].key ==>
      pushed[a].flat == pushed[b].flat
  }

  // ---------------------------------------------------------------- the book-keeping, as values

  /** `away` groups are recorded by key and shape and have their contents on the CPU; all others are
      on the device with the value that was pushed. */
  ghost predicate Faithful(state: map<Tag, Entry>, copies: map<nat, map<nat, seq<int>>>,
                           pushed: map<Tag, Tensor>, away: set<nat>)
  {
    && state.Keys == pushed.Keys && copies.Keys == away
    && forall tag <- state :: EntryOk(state[tag], copies, pushed[tag], tag.group, away)
  }

  ghost predicate EntryOk(e: Entry, copies: map<nat, map<nat, seq<int>>>, t: Tensor, group: nat, away: set<nat>)
    requires copies.Keys == away
  {
    if group in away
    then e == Away(t.key, t.shape) && t.key in copies[group] && copies[group][t.key] == t.flat
    else e.Live? && SameValue(e.t, t)
  }

  /** Before the backward pass nothing has been recovered yet: live entries are the very tensors. */
  ghost predicate Original(state: map<Tag, Entry>, pushed: map<Tag, Tensor>) {
    forall tag <- state :: state[tag].Live? ==> tag in pushed && state[tag].t == pushed[tag]
  }

  /** Tags come from the groups up to the current one, in the order of pushing; groups whose window has
      closed have no device references. */
  ghost predicate TagsOk(tags: set<Tag>, buf: map<Tag, Option<Tensor>>, current: int, count: nat, closed: int, groups: nat) {
    && (forall tag <- tags :: tag.group <= current)
    && (forall tag <- tags :: tag.group == current ==> tag.n < count)
    && (forall tag <- buf :: tag in tags && tag.group < groups)
    && (forall tag <- buf :: tag.group < closed ==> buf[tag] == None)
  }

  /** The tensors of groups to be offloaded are referenced until the window closes in which they are copied. */
  ghost predicate Kept(buf: map<Tag, Option<Tensor>>, pushed: map<Tag, Tensor>, closed: int, groups: nat) {
    forall tag <- pushed :: closed <= tag.group < groups ==> tag in buf && buf[tag] == Some(pushed[tag])
  }

  lemma KeptAdd(buf: map<Tag, Option<Tensor>>, pushed: map<Tag, Tensor>, closed: int, groups: nat, tag: Tag, t: Tensor)
    requires Kept(buf, pushed, closed, groups)
    ensures Kept(if tag.group < groups then buf[tag := Some(t)] else buf, pushed[tag := t], closed, groups)
  {
  }

  lemma KeptAfterFree(buf: map<Tag, Option<Tensor>>, buf': map<Tag, Option<Tensor>>, pushed: map<Tag, Tensor>, closed: int, groups: nat)
    requires Kept(buf, pushed, closed, groups) && buf'.Keys == buf.Keys
    requires forall tag <- buf' :: buf'[tag] == if tag.group == closed then None else buf[tag]
    ensures Kept(buf', pushed, closed + 1, groups)
  {
  }

  lemma TagsAdd(tags: set<Tag>, buf: map<Tag, Option<Tensor>>, current: nat, count: nat, closed: int, groups: nat, t: Tensor)
    requires TagsOk(tags, buf, current, count, closed, groups)
    ensures var tag := Tag(current, count);
            && tag !in tags
            && TagsOk(tags + {tag}, buf, current, count + 1, closed, groups)
            && (closed <= current < groups ==> TagsOk(tags + {tag}, buf[tag := Some(t)], current, count + 1, closed, groups))
  {
  }

  /** Groups with a tensor still referenced on the device. */
  ghost predicate OnDevice(state: map<Tag, Entry>, buf: map<Tag, Option<Tensor>>, group: nat) {
    || (exists tag <- state :: tag.group == group && state[tag].Live?)
    || (exists tag <- buf :: tag.group == group && buf[tag].Some?)
  }

  lemma FaithfulAdd(state: map<Tag, Entry>, copies: map<nat, map<nat, seq<int>>>, pushed: map<Tag, Tensor>,
                    away: set<nat>, tag: Tag, t: Tensor)
    requires Faithful(state, copies, pushed, away) && Original(state, pushed) && tag.group !in away && tag !in state
    ensures Faithful(state[tag := Live(t)], copies, pushed[tag := t], away)
    ensures Original(state[tag := Live(t)], pushed[tag := t]) && tag !in pushed
  {
    forall other | other in state
      ensures EntryOk(state[tag := Live(t)][other], copies, pushed[tag := t][other], other.group, away)
    {
      assert EntryOk(state[other], copies, pushed[other], other.group, away);
    }
  }

  lemma TagsAfterCommit(tags: set<Tag>, buf: map<Tag, Option<Tensor>>, c: nat, count: nat, closed: int, groups: nat)
    requires TagsOk(tags, buf, c, count, closed, groups)
    ensures TagsOk(tags, buf, c + 1, 0, closed, groups)
  {
  }

  lemma TagsAfterFree(tags: set<Tag>, buf: map<Tag, Option<Tensor>>, buf': map<Tag, Option<Tensor>>,
                      current: int, count: nat, closed: int, groups: nat)
    requires TagsOk(tags, buf, current, count, closed, groups) && buf'.Keys == buf.Keys
    requires forall tag <- buf' :: buf'[tag] == if tag.group == closed then None else buf[tag]
    ensures TagsOk(tags, buf', current, count, closed + 1, groups)
  {
  }

  /** The handler's fields after `c` forward commits. */
  ghost predicate ForwardOk(state: map<Tag, Entry>, buf: map<Tag, Option<Tensor>>, copies: map<nat, map<nat, seq<int>>>,
                            pushed: map<Tag, Tensor>, c: int, tensorCount: nat, closed: int, groups: nat, layers: nat)
    requires 0 < groups
  {
    && 0 <= c <= layers && ForwardCount(closed, c, groups, layers)
    && Faithful(state, copies, pushed, AwayForward(c, groups, layers))
    && Original(state, pushed) && KeysNameContents(pushed)
    && TagsOk(state.Keys, buf, c, tensorCount, closed, groups) && Kept(buf, pushed, closed, groups)
  }

  lemma ForwardOkParts(state: map<Tag, Entry>, buf: map<Tag, Option<Tensor>>, copies: map<nat, map<nat, seq<int>>>,
                       pushed: map<Tag, Tensor>, c: int, tensorCount: nat, closed: int, groups: nat, layers: nat)
    requires 0 < groups && ForwardOk(state, buf, copies, pushed, c, tensorCount, closed, groups, layers)
    ensures 0 <= c <= layers && ForwardCount(closed, c, groups, layers) && 0 <= closed <= groups
    ensures Faithful(state, copies, pushed, AwayForward(c, groups, layers))
    ensures Original(state, pushed) && KeysNameContents(pushed) && TagsOk(state.Keys, buf, c, tensorCount, closed, groups)
    ensures Kept(buf, pushed, closed, groups)
  {
  }

  /** The tensors kept for a group have the contents of every tensor with their key. */
  ghost predicate Keyed(mapping: map<nat, Tensor>, pushed: map<Tag, Tensor>, group: nat) {
    forall tag <- pushed :: tag.group == group && pushed[tag].key in mapping ==>
      mapping[pushed[tag].key].flat == pushed[tag].flat
  }

  lemma NothingKeyed(pushed: map<Tag, Tensor>, group: nat)
    ensures Keyed(map[], pushed, group)
  {
  }

  lemma KeyedAdd(mapping: map<nat, Tensor>, pushed: map<Tag, Tensor>, tag: Tag)
    requires Keyed(mapping, pushed, tag.group) && KeysNameContents(pushed) && tag in pushed
    ensures Keyed(mapping[pushed[tag].key := pushed[tag]], pushed, tag.group)
  {
  }

  lemma KeyedAt(mapping: map<nat, Tensor>, pushed: map<Tag, Tensor>, tag: Tag)
    requires Keyed(mapping, pushed, tag.group) && tag in pushed && pushed[tag].key in mapping
    ensures mapping[pushed[tag].key].flat == pushed[tag].flat
  {
  }

  /** The fields after the next commit, once the due groups are away. */
  lemma ForwardStep(state: map<Tag, Entry>, buf: map<Tag, Option<Tensor>>, copies: map<nat, map<nat, seq<int>>>,
                    pushed: map<Tag, Tensor>, c: int, closed: int, groups: nat, layers: nat, away: set<nat>)
    requires 0 < groups < layers && 0 <= c < layers && ForwardCount(closed, c, groups, layers) && closed < groups
    requires var closes := Window(closed, groups, layers) == c;
             && away == AwayForward(c, groups, layers) + (if c == 0 then {0} else {})
                        + (if closes && closed < groups - 1 then {closed + 1} else {})
             && TagsOk(state.Keys, buf, c + 1, 0, if closes then closed + 1 else closed, groups)
             && Kept(buf, pushed, if closes then closed + 1 else closed, groups)
    requires Faithful(state, copies, pushed, away) && Original(state, pushed) && KeysNameContents(pushed)
    ensures ForwardOk(state, buf, copies, pushed, c + 1, 0,
                      if Window(closed, groups, layers) == c then closed + 1 else closed, groups, layers)
  {
    hide Window, Faithful, Original, KeysNameContents, TagsOk, Kept;
    ForwardCommit(closed, c, groups, layers);
  }

  /** The handler's fields after the backward commit of layer `c`. */
  ghost predicate BackwardOk(state: map<Tag, Entry>, buf: map<Tag, Option<Tensor>>, copies: map<nat, map<nat, seq<int>>>,
                             pushed: map<Tag, Tensor>, c: int, closed: int, groups: nat, layers: nat)
    requires 0 < groups
  {
    && 0 <= c <= layers && BackwardCount(closed, c, groups, layers)
    && Faithful(state, copies, pushed, AwayBackward(c, groups, layers))
    && LeftOver(state.Keys, buf, c)
  }

  /** Only tags up to layer `c` are left, and no device reference of the forward pass is. */
  ghost predicate LeftOver(tags: set<Tag>, buf: map<Tag, Option<Tensor>>, c: int) {
    && (forall tag <- tags :: tag.group <= c)
    && (forall tag <- buf :: tag in tags && buf[tag] == None)
  }

  lemma BackwardOkParts(state: map<Tag, Entry>, buf: map<Tag, Option<Tensor>>, copies: map<nat, map<nat, seq<int>>>,
                        pushed: map<Tag, Tensor>, c: int, closed: int, groups: nat, layers: nat)
    requires 0 < groups && BackwardOk(state, buf, copies, pushed, c, closed, groups, layers)
    ensures 0 <= c <= layers && BackwardCount(closed, c, groups, layers) && state.Keys == pushed.Keys
    ensures Faithful(state, copies, pushed, AwayBackward(c, groups, layers)) && LeftOver(state.Keys, buf, c)
  {
  }

  lemma LeftOverNext(tags: set<Tag>, buf: map<Tag, Option<Tensor>>, c: int)
    requires LeftOver(tags, buf, c + 1) && forall tag <- tags :: tag.group < c + 1
    ensures LeftOver(tags, buf, c)
  {
  }

  /** The fields after a backward commit, once the due group is back. */
  lemma BackwardStep(state: map<Tag, Entry>, buf: map<Tag, Option<Tensor>>, copies: map<nat, map<nat, seq<int>>>,
                     pushed: map<Tag, Tensor>, c: int, closed: int, groups: nat, layers: nat, away: set<nat>)
    requires 0 < groups < layers && 0 <= c < layers && BackwardCount(closed, c + 1, groups, layers) && 0 < closed
    requires var closes := Window(closed - 1, groups, layers) == c;
             away == AwayBackward(c + 1, groups, layers) - (if closes then {closed - 1} else {})
    requires Faithful(state, copies, pushed, away) && LeftOver(state.Keys, buf, c)
    ensures var closes := Window(closed - 1, groups, layers) == c;
            BackwardOk(state, buf, copies, pushed, c,
                       if c == 0 then 0 else if closes && closed > 1 then closed - 1 else closed, groups, layers)
  {
    hide Window, Faithful, LeftOver, AwayBackward;
    BackwardCommit(closed, c, groups, layers);
  }

  /** Popping a tag of the current layer: its entry is live with the pushed value. */
  lemma PopKeeps(state: map<Tag, Entry>, buf: map<Tag, Option<Tensor>>, copies: map<nat, map<nat, seq<int>>>,
                 pushed: map<Tag, Tensor>, c: int, closed: int, groups: nat, layers: nat, tag: Tag)
    requires 0 < groups < layers && tag in pushed && tag.group == c < layers
    requires BackwardOk(state, buf, copies, pushed, c, closed, groups, layers)
    ensures tag in state && state[tag].Live? && SameValue(state[tag].t, pushed[tag])
    ensures BackwardOk(state - {tag}, buf - {tag}, copies, pushed - {tag}, c, closed, groups, layers)
  {
    var away := AwayBackward(c, groups, layers);
    if c < groups {
      EachGroupInTime(c, groups, layers);
    }
    hide Window, AwayBackward, BackwardCount;
    assert EntryOk(state[tag], copies, pushed[tag], tag.group, away);
    forall t | t in state - {tag} ensures EntryOk((state - {tag})[t], copies, (pushed - {tag})[t], t.group, away) {
      assert EntryOk(state[t], copies, pushed[t], t.group, away);
    }
  }

  /** Pushing under the next tag: the tag is new, and everything pushed before is untouched. */
  lemma PushKeeps(state: map<Tag, Entry>, buf: map<Tag, Option<Tensor>>, copies: map<nat, map<nat, seq<int>>>,
                  pushed: map<Tag, Tensor>, c: nat, tensorCount: nat, closed: int, groups: nat, layers: nat, t: Tensor)
    requires 0 < groups < layers && c < layers
    requires ForwardOk(state, buf, copies, pushed, c, tensorCount, closed, groups, layers)
    requires KeysNameContents(pushed[Tag(c, tensorCount) := t])
    ensures var tag := Tag(c, tensorCount);
            && tag !in state && tag !in pushed
            && ForwardOk(state[tag := Live(t)], if c < groups then buf[tag := Some(t)] else buf, copies,
                         pushed[tag := t], c, tensorCount + 1, closed, groups, layers)
  {
    hide TagsOk, KeysNameContents, Window, AwayForward, Faithful, Original, Kept;
    var tag := Tag(c, tensorCount);
    KeptAdd(buf, pushed, closed, groups, tag, t);
    if c < groups {
      EachGroupInTime(c, groups, layers);
    }
    NotYetAway(c, groups, layers);
    if closed > 0 {
      WindowAfterNextGroup(closed - 1, groups, layers);
    }
    TagsAdd(state.Keys, buf, c, tensorCount, closed, groups, t);
    FaithfulAdd(state, copies, pushed, AwayForward(c, groups, layers), tag, t);
    assert state[tag := Live(t)].Keys == state.Keys + {tag};
  }

  /** The group being pushed is not away. */
  lemma NotYetAway(c: nat, groups: nat, layers: nat)
    requires 0 < groups < layers && c < layers
    ensures c !in AwayForward(c, groups, layers)
  {
    if c < groups {
      EachGroupInTime(c, groups, layers);
    }
  }

  class Handler {
    const numOffloadGroup: nat
    const numLayers: nat
    const layerWindowMap: map<int, int>
    var currentGroup: int
    var tensorCount: nat
    var state: map<Tag, Entry>
    var buf: map<Tag, Option<Tensor>>
    var offloadedGroupCount: int
    var copies: map<nat, map<nat, seq<int>>>
    ghost var pushed: map<Tag, Tensor>

    ghost predicate Configured() {
      && 0 < numOffloadGroup < numLayers
      && (forall i :: i in layerWindowMap <==> 0 <= i < numOffloadGroup)
      && (forall i :: 0 <= i < numOffloadGroup ==> layerWindowMap[i] == Window(i, numOffloadGroup, numLayers))
    }

    /** After `c` forward commits. */
    ghost predicate Forward(c: int)
      reads this
    {
      && Configured() && currentGroup == c
      && ForwardOk(state, buf, copies, pushed, c, tensorCount, offloadedGroupCount, numOffloadGroup, numLayers)
    }

    /** After the backward commit of layer `c`. */
    ghost predicate Backward(c: int)
      reads this
    {
      && Configured() && currentGroup == c
      && BackwardOk(state, buf, copies, pushed, c, offloadedGroupCount, numOffloadGroup, numLayers)
    }

    constructor (numOffloadGroup: nat, numModelGroup: nat)
      requires 0 < numOffloadGroup < numModelGroup
      ensures this.numOffloadGroup == numOffloadGroup && numLayers == numModelGroup
      ensures Forward(0) && pushed == map[] && tensorCount == 0
    {
      this.numOffloadGroup, numLayers := numOffloadGroup, numModelGroup;
      currentGroup, tensorCount, offloadedGroupCount := 0, 0, 0;
      state, buf, copies, pushed := map[], map[], map[], map[];
      var m := BuildWindowMap(numOffloadGroup, numModelGroup);
      layerWindowMap := m;
      new;
      WindowAfterNextGroup(0, numOffloadGroup, numModelGroup);
      assert AwayForward(0, numOffloadGroup, numModelGroup) == {} by {
        forall g: nat | g < numOffloadGroup ensures OffloadedAt(g, numOffloadGroup, numModelGroup) >= 0 {
          EachGroupInTime(g, numOffloadGroup, numModelGroup);
        }
      }
    }

    /** Saves a tensor of the layer being computed. */
    method TensorPush(tensor: Tensor, needOffload: bool) returns (saved: Saved)
      requires Forward(currentGroup) && currentGroup < numLayers
      requires needOffload ==> KeysNameContents(pushed[Tag(currentGroup, tensorCount) := tensor])
      modifies this
      ensures Forward(old(currentGroup)) && copies == old(copies) && offloadedGroupCount == old(offloadedGroupCount)
      ensures Tag(old(currentGroup), old(tensorCount)) !in old(pushed)
      ensures saved == if needOffload then Tagged(Tag(old(currentGroup), old(tensorCount))) else Direct(tensor)
      ensures tensorCount == old(tensorCount) + (if needOffload then 1 else 0)
      ensures pushed == if needOffload then old(pushed)[Tag(old(currentGroup), old(tensorCount)) := tensor] else old(pushed)
      ensures state == if needOffload then old(state)[Tag(old(currentGroup), old(tensorCount)) := Live(tensor)] else old(state)
      ensures buf == if needOffload && old(currentGroup) < numOffloadGroup
                     then old(buf)[Tag(old(currentGroup), old(tensorCount)) := Some(tensor)] else old(buf)
    {
      hide ForwardOk, KeysNameContents, Window;
      ForwardOkParts(state, buf, copies, pushed, currentGroup, tensorCount, offloadedGroupCount, numOffloadGroup, numLayers);
      NextTagIsNew();
      if !needOffload { return Direct(tensor); }
      PushKeeps(state, buf, copies, pushed, currentGroup, tensorCount, offloadedGroupCount,
                numOffloadGroup, numLayers, tensor);
      var tag := Tag(currentGroup, tensorCount);
      tensorCount := tensorCount + 1;
      state := state[tag := Live(tensor)];
      if currentGroup < numOffloadGroup {
        buf := buf[tag := Some(tensor)];
      }
      pushed := pushed[tag := tensor];
      saved := Tagged(tag);
    }

    lemma NextTagIsNew()
      requires Forward(currentGroup)
      ensures Tag(currentGroup, tensorCount) !in pushed
    {
    }

    /** Copies a group to the CPU, one copy per key, and leaves key and shape under its tags. */
    method BulkOffloadGroup(group: nat, ghost away: set<nat>)
      requires Faithful(state, copies, pushed, away) && group !in away
      requires Original(state, pushed) && KeysNameContents(pushed)
      modifies this`state, this`copies
      ensures Faithful(state, copies, pushed, away + {group}) && Original(state, pushed)
      ensures state.Keys == old(state).Keys
    {
      var mapping := MarkGroup(group, away);
      var cpu: map<nat, seq<int>> := map[];
      var keys := mapping.Keys;
      while keys != {}
        invariant keys <= mapping.Keys && cpu.Keys == mapping.Keys - keys
        invariant forall k <- cpu :: cpu[k] == mapping[k].flat
        invariant copies == old(copies)
      {
        var k :| k in keys;
        cpu := cpu[k := mapping[k].flat];
        keys := keys - {k};
      }
      copies := copies[group := cpu];
      forall tag | tag in state
        ensures EntryOk(state[tag], copies, pushed[tag], tag.group, away + {group})
      {
        assert EntryOk(old(state)[tag], old(copies), pushed[tag], tag.group, away);
      }
    }

    /** Replaces the group's tensors by key and shape, keeping the first tensor of each key. */
    method MarkGroup(group: nat, ghost away: set<nat>) returns (mapping: map<nat, Tensor>)
      requires Faithful(state, copies, pushed, away) && group !in away
      requires Original(state, pushed) && KeysNameContents(pushed)
      modifies this`state
      ensures state.Keys == old(state).Keys
      ensures forall tag <- state :: tag.group != group ==> state[tag] == old(state)[tag]
      ensures forall tag <- state :: tag.group == group ==>
                && state[tag] == Away(pushed[tag].key, pushed[tag].shape)
                && pushed[tag].key in mapping && mapping[pushed[tag].key].flat == pushed[tag].flat
    {
      hide KeysNameContents, Keyed;
      mapping := map[];
      NothingKeyed(pushed, group);
      var todo := state.Keys;
      while todo != {}
        invariant todo <= state.Keys == pushed.Keys && Keyed(mapping, pushed, group)
        invariant forall tag <- state :: tag in todo || tag.group != group ==> state[tag] == old(state)[tag]
        invariant forall tag <- state :: tag !in todo && tag.group == group ==>
          state[tag] == Away(pushed[tag].key, pushed[tag].shape) && pushed[tag].key in mapping
      {
        var tag :| tag in todo;
        if tag.group == group {
          assert EntryOk(state[tag], copies, pushed[tag], tag.group, away);
          var tensor := state[tag].t;
          if tensor.key !in mapping {
            KeyedAdd(mapping, pushed, tag);
            mapping := mapping[tensor.key := tensor];
          }
          state := state[tag := Away(tensor.key, tensor.shape)];
        }
        todo := todo - {tag};
      }
      forall tag | tag in state && tag.group == group ensures mapping[pushed[tag].key].flat == pushed[tag].flat {
        KeyedAt(mapping, pushed, tag);
      }
    }

    /** The first commit of an iteration starts offloading group 0. */
    method KickStart(ghost away: set<nat>) returns (ghost away': set<nat>)
      requires Faithful(state, copies, pushed, away) && Original(state, pushed) && KeysNameContents(pushed)
      requires currentGroup == 0 ==> 0 !in away
      modifies this`state, this`copies
      ensures away' == away + (if currentGroup == 0 then {0} else {}) && state.Keys == old(state).Keys
      ensures Faithful(state, copies, pushed, away') && Original(state, pushed)
    {
      away' := away;
      if currentGroup == 0 {
        BulkOffloadGroup(0, away);
        away' := away + {0};
      }
    }

    /** The end of a window: free the group whose copy is done, offload the next one. */
    method CloseWindow(ghost away: set<nat>) returns (ghost away': set<nat>)
      requires Faithful(state, copies, pushed, away) && Original(state, pushed) && KeysNameContents(pushed)
      requires 0 <= offloadedGroupCount < numOffloadGroup
      requires offloadedGroupCount < numOffloadGroup - 1 ==> offloadedGroupCount + 1 !in away
      modifies this`state, this`copies, this`buf, this`offloadedGroupCount
      ensures offloadedGroupCount == old(offloadedGroupCount) + 1 && state.Keys == old(state).Keys
      ensures away' == away + (if old(offloadedGroupCount) < numOffloadGroup - 1 then {old(offloadedGroupCount) + 1} else {})
      ensures Faithful(state, copies, pushed, away') && Original(state, pushed)
      ensures buf.Keys == old(buf).Keys
      ensures forall tag <- buf :: buf[tag] == if tag.group == old(offloadedGroupCount) then None else old(buf)[tag]
    {
      FreeBuffers();
      away' := away;
      if offloadedGroupCount < numOffloadGroup - 1 {
        BulkOffloadGroup(offloadedGroupCount + 1, away);
        away' := away + {offloadedGroupCount + 1};
      }
      offloadedGroupCount := offloadedGroupCount + 1;
    }

    /** What a forward commit does besides counting. */
    method SynchronizeOnGroupCommitForward()
      requires Forward(currentGroup) && currentGroup < numLayers
      modifies this`state, this`copies, this`buf, this`offloadedGroupCount
      ensures ForwardOk(state, buf, copies, pushed, currentGroup + 1, 0, offloadedGroupCount, numOffloadGroup, numLayers)
    {
      hide Window, Faithful, Original, KeysNameContents, TagsOk, AwayForward, ForwardCount, ForwardOk, Kept;
      ghost var c, count, tags, buf0 := currentGroup, offloadedGroupCount, state.Keys, buf;
      ForwardOkParts(state, buf, copies, pushed, c, tensorCount, count, numOffloadGroup, numLayers);
      ForwardCommit(count, c, numOffloadGroup, numLayers);
      TagsAfterCommit(tags, buf0, c, tensorCount, count, numOffloadGroup);
      if c == 0 {
        GroupZeroStays();
      }
      ghost var away := KickStart(AwayForward(c, numOffloadGroup, numLayers));
      if layerWindowMap[offloadedGroupCount] == currentGroup {
        away := CloseWindow(away);
        TagsAfterFree(tags, buf0, buf, c + 1, 0, count, numOffloadGroup);
        KeptAfterFree(buf0, buf, pushed, count, numOffloadGroup);
      }
      ForwardStep(state, buf, copies, pushed, c, count, numOffloadGroup, numLayers, away);
    }

    /** The end of a layer in the forward pass. */
    method OnGroupCommitForward()
      requires Forward(currentGroup) && currentGroup < numLayers
      modifies this
      ensures Forward(old(currentGroup) + 1) && pushed == old(pushed) && tensorCount == 0
    {
      SynchronizeOnGroupCommitForward();
      currentGroup := currentGroup + 1;
      tensorCount := 0;
    }

    lemma GroupZeroStays()
      requires Configured()
      ensures AwayForward(0, numOffloadGroup, numLayers) == {}
    {
      forall g: nat | g < numOffloadGroup ensures OffloadedAt(g, numOffloadGroup, numLayers) >= 0 {
        EachGroupInTime(g, numOffloadGroup, numLayers);
      }
    }

    /** Drops the device references of the group whose window closes. */
    method FreeBuffers()
      modifies this`buf
      ensures buf.Keys == old(buf).Keys
      ensures forall tag <- buf :: buf[tag] == if tag.group == offloadedGroupCount then None else old(buf)[tag]
    {
      var todo := buf.Keys;
      while todo != {}
        invariant todo <= buf.Keys == old(buf).Keys
        invariant forall tag <- buf ::
          buf[tag] == if tag !in todo && tag.group == offloadedGroupCount then None else old(buf)[tag]
      {
        var tag :| tag in todo;
        if tag.group == offloadedGroupCount {
          buf := buf[tag := None];
        }
        todo := todo - {tag};
      }
    }

    /** Brings a group back; recovered tensors have new storage but the pushed shapes and contents. */
    method BulkReloadGroup(group: nat, ghost away: set<nat>)
      requires Faithful(state, copies, pushed, away) && group in away
      modifies this`state, this`copies
      ensures Faithful(state, copies, pushed, away - {group}) && state.Keys == old(state).Keys
    {
      var mapping := copies[group];
      copies := copies - {group};
      var todo := state.Keys;
      while todo != {}
        invariant todo <= state.Keys == pushed.Keys && copies == old(copies) - {group}
        invariant forall tag <- todo :: state[tag] == old(state)[tag]
        invariant forall tag <- state.Keys - todo :: tag.group != group ==> state[tag] == old(state)[tag]
        invariant forall tag <- state.Keys - todo :: tag.group == group ==>
          state[tag].Live? && SameValue(state[tag].t, pushed[tag])
      {
        ghost var before := todo;
        var tag :| tag in todo;
        if tag.group == group && !state[tag].Live? {
          assert EntryOk(old(state)[tag], old(copies), pushed[tag], group, away);
          var newStorage: nat := *;
          var key, shape := state[tag].key, state[tag].shape;
          state := state[tag := Live(Tensor(newStorage, shape, mapping[key]))];
        } else {
          assert EntryOk(old(state)[tag], old(copies), pushed[tag], tag.group, away);
        }
        todo := todo - {tag};
        assert state.Keys - todo == (state.Keys - before) + {tag};
      }
      forall tag | tag in state
        ensures EntryOk(state[tag], copies, pushed[tag], tag.group, away - {group})
      {
        assert EntryOk(old(state)[tag], old(copies), pushed[tag], tag.group, away);
      }
    }

    /** Autograd reaches the end of a layer in the backward pass, before anything of it is popped. */
    method OnGroupCommitBackward()
      requires Backward(currentGroup) && currentGroup > 0
      requires forall tag <- pushed :: tag.group < currentGroup
      modifies this
      ensures Backward(old(currentGroup) - 1) && pushed == old(pushed) && tensorCount == old(tensorCount)
    {
      hide Window, Faithful, LeftOver, AwayBackward, BackwardCount, BackwardOk;
      ghost var c := currentGroup - 1;
      BackwardOkParts(state, buf, copies, pushed, c + 1, offloadedGroupCount, numOffloadGroup, numLayers);
      BackwardCommit(offloadedGroupCount, c, numOffloadGroup, numLayers);
      LeftOverNext(state.Keys, buf, c);
      currentGroup := currentGroup - 1;
      ghost var away := AwayBackward(c + 1, numOffloadGroup, numLayers);
      if layerWindowMap[offloadedGroupCount - 1] == currentGroup {
        BulkReloadGroup(offloadedGroupCount - 1, away);
        away := away - {offloadedGroupCount - 1};
        offloadedGroupCount := if offloadedGroupCount > 1 then offloadedGroupCount - 1 else offloadedGroupCount;
      }
      if currentGroup == 0 {
        offloadedGroupCount := 0;
      }
      BackwardStep(state, buf, copies, pushed, c, old(offloadedGroupCount), numOffloadGroup, numLayers, away);
    }

    /** Autograd wants a saved tensor of the current layer back, and gets the value it saved. */
    method TensorPop(saved: Saved) returns (tensor: Tensor)
      requires Backward(currentGroup) && currentGroup < numLayers
      requires saved.Tagged? ==> saved.tag in pushed && saved.tag.group == currentGroup
      modifies this
      ensures Backward(old(currentGroup)) && tensorCount == old(tensorCount)
      ensures saved.Direct? ==> tensor == saved.tensor && pushed == old(pushed)
      ensures saved.Tagged? ==> SameValue(tensor, old(pushed)[saved.tag]) && pushed == old(pushed) - {saved.tag}
    {
      hide BackwardOk, Window;
      if saved.Direct? { return saved.tensor; }
      var tag := saved.tag;
      PopKeeps(state, buf, copies, pushed, currentGroup, offloadedGroupCount, numOffloadGroup, numLayers, tag);
      tensor := state[tag].t;
      state := state - {tag};
      buf := buf - {tag};
      pushed := pushed - {tag};
    }

    lemma PushedNamesContents()
      requires Forward(currentGroup)
      ensures KeysNameContents(pushed)
    {
    }

    /** After the last forward commit the handler is ready for the first backward commit. */
    lemma TurnAround()
      requires Forward(numLayers)
      ensures Backward(numLayers)
    {
      ForwardMeetsBackward(offloadedGroupCount, numOffloadGroup, numLayers);
    }

    /** After the backward pass, once everything has been popped, the handler is as good as new. */
    lemma BackToStart()
      requires Backward(0) && pushed == map[]
      ensures Forward(0) && state == map[] && buf == map[] && copies == map[] && offloadedGroupCount == 0
    {
      GroupZeroStays();
      assert AwayBackward(0, numOffloadGroup, numLayers) == {} by {
        forall g: nat | g < numOffloadGroup ensures Window(g, numOffloadGroup, numLayers) >= 0 {
          EachGroupInTime(g, numOffloadGroup, numLayers);
        }
      }
      WindowAfterNextGroup(0, numOffloadGroup, numLayers);
    }
  }

  // ---------------------------------------------------------------- what is left on the device

  /** Offloading all layers but one: in the forward pass only the group being pushed and the one before
      it can be on the device. */
  lemma TwoGroupsOnDeviceForward(state: map<Tag, Entry>, buf: map<Tag, Option<Tensor>>,
                                 copies: map<nat, map<nat, seq<int>>>, pushed: map<Tag, Tensor>, c: int,
                                 tensorCount: nat, closed: int, layers: nat, g: nat)
    requires 3 <= layers && ForwardOk(state, buf, copies, pushed, c, tensorCount, closed, layers - 1, layers)
    requires OnDevice(state, buf, g)
    ensures c - 1 <= g <= c
  {
    if closed < layers - 1 {
      WindowsOfAllButOne(closed, layers);
    }
    if 0 < g < layers - 1 {
      WindowsOfAllButOne(g - 1, layers);
    }
    if tag :| tag in state && tag.group == g && state[tag].Live? {
      assert EntryOk(state[tag], copies, pushed[tag], g, AwayForward(c, layers - 1, layers));
    }
  }

  /** In the backward pass only the group being popped and the one to be popped next can be. */
  lemma TwoGroupsOnDeviceBackward(state: map<Tag, Entry>, buf: map<Tag, Option<Tensor>>,
                                  copies: map<nat, map<nat, seq<int>>>, pushed: map<Tag, Tensor>, c: int,
                                  closed: int, layers: nat, g: nat)
    requires 3 <= layers && BackwardOk(state, buf, copies, pushed, c, closed, layers - 1, layers)
    requires OnDevice(state, buf, g)
    ensures c - 1 <= g <= c
  {
    if g < layers - 1 {
      WindowsOfAllButOne(g, layers);
    }
    if tag :| tag in state && tag.group == g && state[tag].Live? {
      assert EntryOk(state[tag], copies, pushed[tag], g, AwayBackward(c, layers - 1, layers));
    }
  }

  // ---------------------------------------------------------------- training iterations

  /** One saved tensor: its value and whether the filter lets it be offloaded. */
  datatype Activation = Activation(tensor: Tensor, needOffload: bool)

  /** The tensors of a layer that get a tag, in the order of saving. */
  function Offloaded(layer: seq<Activation>): seq<Tensor> {
    if layer == [] then []
    else
      var last := layer[|layer| - 1];
      Offloaded(layer[..|layer| - 1]) + (if last.needOffload then [last.tensor] else [])
  }

  lemma {:induction false} OffloadedPrefix(layer: seq<Activation>, i: nat)
    requires i <= |layer|
    ensures Offloaded(layer[..i]) <= Offloaded(layer)
    ensures i < |layer| ==> Offloaded(layer[..i + 1])
                            == Offloaded(layer[..i]) + (if layer[i].needOffload then [layer[i].tensor] else [])
    ensures i == 0 ==> Offloaded(layer[..i]) == []
    decreases |layer| - i
  {
    if i < |layer| {
      assert layer[..i + 1][..i] == layer[..i];
      OffloadedPrefix(layer, i + 1);
    } else {
      assert layer[..i] == layer;
    }
  }

  /** Within a layer: one key, one content. */
  ghost predicate LayerKeysNameContents(layer: seq<Activation>) {
    var ts := Offloaded(layer);
    forall i, j :: 0 <= i < |ts| && 0 <= j < |ts| && ts[i].key == ts[j].key ==> ts[i].flat == ts[j].flat
  }

  /** Exactly the offloaded tensors of the first `c` layers, and `n` of the next one, under their tags. */
  ghost predicate Holds(pushed: map<Tag, Tensor>, layers: seq<seq<Activation>>, c: nat, n: nat)
  {
    && (forall tag: Tag :: tag in pushed <==>
          tag.group < |layers| && tag.n < |Offloaded(layers[tag.group])|
          && (tag.group < c || (tag.group == c && tag.n < n)))
    && (forall tag <- pushed :: pushed[tag] == Offloaded(layers[tag.group])[tag.n])
  }

  lemma HoldsAdd(pushed: map<Tag, Tensor>, layers: seq<seq<Activation>>, c: nat, n: nat)
    requires Holds(pushed, layers, c, n) && c < |layers| && n < |Offloaded(layers[c])|
    requires KeysNameContents(pushed) && LayerKeysNameContents(layers[c])
    ensures var t := Offloaded(layers[c])[n];
            && KeysNameContents(pushed[Tag(c, n) := t])
            && Holds(pushed[Tag(c, n) := t], layers, c, n + 1)
  {
    hide Offloaded;
  }

  lemma HoldsNext(pushed: map<Tag, Tensor>, layers: seq<seq<Activation>>, c: nat)
    requires c < |layers| && Holds(pushed, layers, c, |Offloaded(layers[c])|)
    ensures Holds(pushed, layers, c + 1, 0)
  {
    hide Offloaded;
  }

  lemma HoldsEnds(pushed: map<Tag, Tensor>, layers: seq<seq<Activation>>, c: nat)
    requires c == 0 || Holds(pushed, layers, c, 0)
    ensures c == 0 && pushed == map[] ==> Holds(pushed, layers, c, 0)
    ensures c == |layers| && c > 0 ==>
              && (forall tag: Tag :: tag in pushed <==> tag.group < |layers| && tag.n < |Offloaded(layers[tag.group])|)
              && (forall tag <- pushed :: pushed[tag] == Offloaded(layers[tag.group])[tag.n])
  {
    hide Offloaded;
  }

  /** The forward pass of one layer; `tags` are those autograd keeps. */
  method ForwardLayer(h: Handler, layers: seq<seq<Activation>>, c: nat, tags: set<Tag>) returns (tags': set<Tag>)
    requires c < |layers| == h.numLayers && h.Forward(c) && h.tensorCount == 0 && Holds(h.pushed, layers, c, 0)
    requires LayerKeysNameContents(layers[c]) && h.pushed.Keys == tags
    modifies h
    ensures h.Forward(c + 1) && h.tensorCount == 0 && Holds(h.pushed, layers, c + 1, 0) && h.pushed.Keys == tags'
  {
    hide ForwardOk, Holds, Offloaded, LayerKeysNameContents, KeysNameContents, Window;
    var layer := layers[c];
    tags' := tags;
    OffloadedPrefix(layer, 0);
    for i := 0 to |layer|
      invariant h.Forward(c) && h.tensorCount == |Offloaded(layer[..i])| && Holds(h.pushed, layers, c, h.tensorCount)
      invariant h.pushed.Keys == tags'
    {
      OffloadedPrefix(layer, i);
      OffloadedPrefix(layer, i + 1);
      h.PushedNamesContents();
      if layer[i].needOffload {
        HoldsAdd(h.pushed, layers, c, h.tensorCount);
      }
      var saved := h.TensorPush(layer[i].tensor, layer[i].needOffload);
      if saved.Tagged? {
        tags' := tags' + {saved.tag};
      }
    }
    assert layer[..|layer|] == layer;
    HoldsNext(h.pushed, layers, c);
    h.OnGroupCommitForward();
  }

  /** The backward pass of one layer: its saved tensors are wanted back in any order. */
  method BackwardLayer(h: Handler, tags: set<Tag>, c: nat) returns (popped: map<Tag, Tensor>)
    requires c < h.numLayers && h.Backward(c + 1) && tags == h.pushed.Keys
    requires forall tag <- tags :: tag.group <= c
    modifies h
    ensures h.Backward(c) && h.tensorCount == old(h.tensorCount)
    ensures h.pushed == old(h.pushed) - popped.Keys && popped.Keys == set tag | tag in tags && tag.group == c
    ensures forall tag <- popped :: SameValue(popped[tag], old(h.pushed)[tag])
  {
    hide BackwardOk, SameValue, Window;
    h.OnGroupCommitBackward();
    popped := map[];
    var layer := set tag | tag in tags && tag.group == c;
    var todo := layer;
    while todo != {}
      invariant h.Backward(c) && h.pushed == old(h.pushed) - popped.Keys && h.tensorCount == old(h.tensorCount)
      invariant todo <= layer && popped.Keys == layer - todo
      invariant forall tag <- popped :: SameValue(popped[tag], old(h.pushed)[tag])
    {
      var tag :| tag in todo;
      var t := h.TensorPop(Tagged(tag));
      popped := popped[tag := t];
      todo := todo - {tag};
    }
  }

  /** Forward and backward over all layers: what autograd gets back under each tag is what was saved
      there, every tag is popped, no assert of the handler fires, and the handler ends as it began. */
  method TrainIteration(h: Handler, layers: seq<seq<Activation>>) returns (popped: map<Tag, Tensor>)
    requires h.Forward(0) && h.pushed == map[] && h.tensorCount == 0 && |layers| == h.numLayers
    requires forall layer <- layers :: LayerKeysNameContents(layer)
    modifies h
    ensures h.Forward(0) && h.pushed == map[] && h.tensorCount == 0
    ensures h.state == map[] && h.buf == map[] && h.copies == map[] && h.offloadedGroupCount == 0 && h.currentGroup == 0
    ensures forall tag: Tag :: tag in popped <==> tag.group < |layers| && tag.n < |Offloaded(layers[tag.group])|
    ensures forall tag <- popped :: SameValue(popped[tag], Offloaded(layers[tag.group])[tag.n])
  {
    hide LayerKeysNameContents, SameValue, Offloaded, Holds, ForwardOk, BackwardOk, Window;
    var tags: set<Tag> := {};
    HoldsEnds(h.pushed, layers, 0);
    for i := 0 to |layers|
      invariant h.Forward(i) && h.tensorCount == 0 && Holds(h.pushed, layers, i, 0) && h.pushed.Keys == tags
    {
      tags := ForwardLayer(h, layers, i, tags);
    }
    HoldsEnds(h.pushed, layers, |layers|);
    h.TurnAround();
    ghost var all := h.pushed;
    popped := map[];
    for i := |layers| downto 0
      invariant h.Backward(i) && h.tensorCount == 0 && h.pushed.Keys == tags && tags == all.Keys - popped.Keys
      invariant popped.Keys <= all.Keys
      invariant forall tag <- tags :: tag.group < i && h.pushed[tag] == all[tag]
      invariant forall tag <- popped :: SameValue(popped[tag], all[tag])
    {
      var more := BackwardLayer(h, tags, i);
      popped := popped + more;
      tags := tags - more.Keys;
    }
    h.BackToStart();
  }
}
