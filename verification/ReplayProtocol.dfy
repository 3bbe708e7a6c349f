/** Trainer, agent-loop workers, transfer-queue store and background poller around the replay buffer
    (verl/trainer/main_ppo_sync.py), as a state machine over atomic steps. The poller's snapshot and
    its merge into the buffer are separate steps. */
module ReplayProtocol {
  import opened Outcomes
  import opened ReplayBuffer

  /** A dispatched prompt: `done` are the sessions that have put their outputs, `ended` the tag its
      worker has written at the end. */
  datatype PromptInfo = PromptInfo(steps: int, sessions: nat, done: set<nat>, ended: Option<Status>)

  datatype Phase = Idle | Waiting | Training(batch: set<Key>) | Cleared(batch: set<Key>)

  /** One partition. `published` and `delivered` are history: all output keys ever put, and the batches
      returned by `sample` with their step. */
  datatype State = State(
    steps: int, phase: Phase, prompts: map<nat, PromptInfo>, published: set<Key>,
    store: Items, snapshot: Option<Items>, buf: Items, delivered: seq<(int, set<Key>)>)

  datatype Step =
    | Register(sessions: map<nat, nat>)
    | PutOutputs(uid: nat, session: nat, count: nat)
    | Finish(uid: nat)
    | Fail(uid: nat)
    | List
    | Merge
    | Sample
    | Clear
    | Remove(bump: nat)

  function Initial(steps: int): State {
    State(steps, Idle, map[], {}, map[], None, map[], [])
  }

  function RunningItems(uids: set<nat>, steps: int): Items {
    map uid | uid in uids :: Prompt(uid) := Tags(Some(steps), Some(Running))
  }

  function OutputItems(uid: nat, session: nat, count: nat, steps: int): Items {
    map i: nat | i < count :: Output(uid, session, i) := Tags(Some(steps), Some(Success))
  }

  predicate Enabled(s: State, step: Step) {
    match step
    // uids are fresh UUIDs
    case Register(sessions) => s.phase.Idle? && sessions.Keys !! s.prompts.Keys
    // sessions of a failed prompt may still be running
    case PutOutputs(uid, session, _) =>
      && uid in s.prompts && s.prompts[uid].ended != Some(Finished)
      && session < s.prompts[uid].sessions && session !in s.prompts[uid].done
    // gather has returned without an exception
    case Finish(uid) =>
      && uid in s.prompts && s.prompts[uid].ended.None?
      && forall j: nat :: j < s.prompts[uid].sessions ==> j in s.prompts[uid].done
    case Fail(uid) => uid in s.prompts && s.prompts[uid].ended.None?
    case List => s.snapshot.None?
    case Merge => s.snapshot.Some?
    case Sample => s.phase.Waiting? && !HasRunning(s.buf, s.steps)
    case Clear => s.phase.Training?
    case Remove(_) => s.phase.Cleared?
  }

  function Apply(s: State, step: Step): State
    requires Enabled(s, step)
  {
    match step
    case Register(sessions) =>
      s.(phase := Waiting,
         prompts := s.prompts + map uid | uid in sessions :: PromptInfo(s.steps, sessions[uid], {}, None),
         buf := Merged(s.buf, RunningItems(sessions.Keys, s.steps)))
    case PutOutputs(uid, session, count) =>
      var items := OutputItems(uid, session, count, s.prompts[uid].steps);
      s.(prompts := s.prompts[uid := s.prompts[uid].(done := s.prompts[uid].done + {session})],
         published := s.published + items.Keys,
         store := Merged(s.store, items))
    case Finish(uid) =>
      s.(prompts := s.prompts[uid := s.prompts[uid].(ended := Some(Finished))],
         store := Merged(s.store, map[Prompt(uid) := Tags(None, Some(Finished))]))
    case Fail(uid) =>
      s.(prompts := s.prompts[uid := s.prompts[uid].(ended := Some(Failure))],
         store := Merged(s.store, map[Prompt(uid) := Tags(None, Some(Failure))]))
    case List => s.(snapshot := Some(s.store))
    case Merge => s.(snapshot := None, buf := Merged(s.buf, s.snapshot.value))
    case Sample =>
      var batch := Batch(s.buf, s.steps);
      s.(phase := Training(batch), delivered := s.delivered + [(s.steps, batch)])
    case Clear => s.(phase := Cleared(s.phase.batch), store := s.store - s.phase.batch)
    case Remove(bump) =>
      s.(phase := Idle, buf := s.buf - s.phase.batch, steps := s.steps + bump)
  }

  predicate Legal(s: State, run: seq<Step>)
    decreases |run|
  {
    run == [] || (Enabled(s, run[0]) && Legal(Apply(s, run[0]), run[1..]))
  }

  function After(s: State, run: seq<Step>): State
    requires Legal(s, run)
    decreases |run|
  {
    if run == [] then s else After(Apply(s, run[0]), run[1..])
  }

  // ---------------------------------------------------------------- the invariant

  type Prompts = map<nat, PromptInfo>

  function AllDelivered(delivered: seq<(int, set<Key>)>): set<Key> {
    if delivered == [] then {}
    else AllDelivered(delivered[..|delivered| - 1]) + delivered[|delivered| - 1].1
  }

  /** What the store, and hence a snapshot of it, holds about each key. */
  ghost predicate StoreTag(key: Key, t: Tags, prompts: Prompts, published: set<Key>) {
    && key.uid in prompts
    && (key.Prompt? ==> t == Tags(None, prompts[key.uid].ended) && t.status.Some?)
    && (key.Output? ==> key in published && t == Tags(Some(prompts[key.uid].steps), Some(Success)))
  }

  ghost predicate StoreTags(items: Items, prompts: Prompts, published: set<Key>) {
    forall key <- items :: StoreTag(key, items[key], prompts, published)
  }

  /** What the buffer holds: the step of the prompt is always there, and a prompt is running or has the
      tag its worker wrote. */
  ghost predicate BufTag(key: Key, t: Tags, prompts: Prompts, published: set<Key>) {
    && key.uid in prompts && t.steps == Some(prompts[key.uid].steps)
    && (key.Prompt? ==> t.status == Some(Running) || (t.status.Some? && t.status == prompts[key.uid].ended))
    && (key.Output? ==> key in published && t.status == Some(Success))
  }

  ghost predicate BufTags(items: Items, prompts: Prompts, published: set<Key>) {
    forall key <- items :: BufTag(key, items[key], prompts, published)
  }

  /** Wherever the finished tag of a prompt is visible, so are all its outputs not yet delivered. */
  ghost predicate Closed(items: Items, published: set<Key>, gone: set<Key>) {
    forall key <- published :: Prompt(key.uid) in items && items[Prompt(key.uid)].status == Some(Finished) ==>
      key in items || key in gone
  }

  ghost predicate PromptOk(uid: nat, p: PromptInfo, steps: int, store: Items, buf: Items) {
    && Prompt(uid) in buf && p.steps <= steps
    && (p.ended.Some? ==> Prompt(uid) in store && p.ended.value in {Finished, Failure})
    && (p.ended == Some(Finished) ==> forall j: nat :: j < p.sessions ==> j in p.done)
  }

  ghost predicate PromptsOk(prompts: Prompts, steps: int, store: Items, buf: Items) {
    forall uid <- prompts :: PromptOk(uid, prompts[uid], steps, store, buf)
  }

  ghost predicate PublishedOk(published: set<Key>, prompts: Prompts, store: Items, gone: set<Key>) {
    forall key <- published ::
      && key.Output? && key.uid in prompts && key.session in prompts[key.uid].done
      && key.session < prompts[key.uid].sessions
      // what was never delivered is in the store
      && (key in store || key in gone)
  }

  /** A batch holds published outputs of prompts of its step. */
  ghost predicate BatchOf(batch: (int, set<Key>), steps: int, prompts: Prompts, published: set<Key>) {
    batch.0 <= steps && forall key <- batch.1 :: key in published && key.uid in prompts && prompts[key.uid].steps == batch.0
  }

  ghost predicate BatchesOk(delivered: seq<(int, set<Key>)>, steps: int, prompts: Prompts, published: set<Key>) {
    forall i :: 0 <= i < |delivered| ==> BatchOf(delivered[i], steps, prompts, published)
  }

  /** The last batch delivered is the one being trained on; no prompt of its step is running any more. */
  ghost predicate PhaseOk(phase: Phase, steps: int, buf: Items, delivered: seq<(int, set<Key>)>) {
    phase.Training? || phase.Cleared? ==>
      |delivered| > 0 && delivered[|delivered| - 1] == (steps, phase.batch) && !HasRunning(buf, steps)
  }

  ghost predicate Good(s: State) {
    var gone := AllDelivered(s.delivered);
    && PromptsOk(s.prompts, s.steps, s.store, s.buf)
    && PublishedOk(s.published, s.prompts, s.store, gone)
    && StoreTags(s.store, s.prompts, s.published) && Closed(s.store, s.published, gone)
    && BufTags(s.buf, s.prompts, s.published) && Closed(s.buf, s.published, gone)
    && (s.snapshot.Some? ==>
          StoreTags(s.snapshot.value, s.prompts, s.published) && Closed(s.snapshot.value, s.published, gone))
    && BatchesOk(s.delivered, s.steps, s.prompts, s.published)
    && PhaseOk(s.phase, s.steps, s.buf, s.delivered)
  }

  lemma InitialIsGood(steps: int)
    ensures Good(Initial(steps))
  {
  }

  /** Prompts are only added; a known prompt gains sessions that are done and at most one end tag. */
  ghost predicate Extends(prompts: Prompts, prompts': Prompts) {
    forall uid <- prompts ::
      && uid in prompts' && prompts'[uid].steps == prompts[uid].steps && prompts'[uid].sessions == prompts[uid].sessions
      && prompts[uid].done <= prompts'[uid].done
      && (prompts[uid].ended.Some? ==> prompts'[uid].ended == prompts[uid].ended)
  }

  lemma ExtendKeepsTags(items: Items, prompts: Prompts, prompts': Prompts, published: set<Key>, published': set<Key>)
    requires Extends(prompts, prompts') && published <= published'
    ensures StoreTags(items, prompts, published) ==> StoreTags(items, prompts', published')
    ensures BufTags(items, prompts, published) ==> BufTags(items, prompts', published')
  {
  }

  lemma ExtendKeepsBatches(delivered: seq<(int, set<Key>)>, steps: int, prompts: Prompts, prompts': Prompts,
                           published: set<Key>, published': set<Key>)
    requires Extends(prompts, prompts') && published <= published'
    requires BatchesOk(delivered, steps, prompts, published)
    ensures BatchesOk(delivered, steps, prompts', published')
  {
  }

  /** Everything known stays as it was described when prompts are extended. */
  lemma GoodExtends(s: State, prompts: Prompts, published: set<Key>)
    requires Good(s) && Extends(s.prompts, prompts) && s.published <= published
    ensures StoreTags(s.store, prompts, published) && BufTags(s.buf, prompts, published)
    ensures s.snapshot.Some? ==> StoreTags(s.snapshot.value, prompts, published)
    ensures BatchesOk(s.delivered, s.steps, prompts, published)
  {
    hide StoreTags, BufTags, BatchesOk, Closed, PromptsOk, PublishedOk, PhaseOk, Extends;
    ExtendKeepsTags(s.store, s.prompts, prompts, s.published, published);
    ExtendKeepsTags(s.buf, s.prompts, prompts, s.published, published);
    if s.snapshot.Some? {
      ExtendKeepsTags(s.snapshot.value, s.prompts, prompts, s.published, published);
    }
    ExtendKeepsBatches(s.delivered, s.steps, s.prompts, prompts, s.published, published);
  }

  lemma AddedStoreTags(items: Items, more: Items, prompts: Prompts, published: set<Key>)
    requires StoreTags(items, prompts, published) && StoreTags(more, prompts, published)
    ensures StoreTags(Merged(items, more), prompts, published)
  {
    forall key | key in Merged(items, more) ensures StoreTag(key, Merged(items, more)[key], prompts, published) {
      assert key in items ==> StoreTag(key, items[key], prompts, published);
      assert key in more ==> StoreTag(key, more[key], prompts, published);
    }
  }

  /** Registering adds running entries of new prompts and touches nothing else. */
  lemma RegisteredBuf(s: State, uids: set<nat>)
    requires uids !! s.prompts.Keys && BufTags(s.buf, s.prompts, s.published)
    ensures var buf := Merged(s.buf, RunningItems(uids, s.steps));
            && (forall key <- s.buf :: key in buf && buf[key] == s.buf[key])
            && (forall uid <- uids :: Prompt(uid) in buf && buf[Prompt(uid)] == Tags(Some(s.steps), Some(Running)))
            && (forall key <- buf :: key in s.buf || (key.Prompt? && key.uid in uids))
  {
    var items := RunningItems(uids, s.steps);
    forall key | key in s.buf ensures key !in items {
      assert BufTag(key, s.buf[key], s.prompts, s.published);
    }
    assert forall uid <- uids :: Prompt(uid) in items;
  }

  lemma RegisteredTags(s: State, step: Step)
    requires Good(s) && Enabled(s, step) && step.Register?
    ensures var t := Apply(s, step);
            && BufTags(t.buf, t.prompts, t.published) && Closed(t.buf, t.published, AllDelivered(t.delivered))
  {
    hide StoreTags, BatchesOk, AllDelivered, Merged, RunningItems, HasRunning, PromptsOk;
    var t := Apply(s, step);
    RegisteredBuf(s, step.sessions.Keys);
    forall key | key in t.buf ensures BufTag(key, t.buf[key], t.prompts, t.published) {
      assert key in s.buf ==> BufTag(key, s.buf[key], s.prompts, s.published);
    }
  }

  lemma RegisteredPrompts(s: State, step: Step)
    requires Good(s) && Enabled(s, step) && step.Register?
    ensures var t := Apply(s, step);
            && PromptsOk(t.prompts, t.steps, t.store, t.buf)
            && PublishedOk(t.published, t.prompts, t.store, AllDelivered(t.delivered))
            && Extends(s.prompts, t.prompts)
  {
    hide StoreTags, BatchesOk, AllDelivered, Merged, RunningItems, HasRunning, Closed;
    RegisteredBuf(s, step.sessions.Keys);
    hide BufTags;
  }

  lemma RegisterKeeps(s: State, step: Step)
    requires Good(s) && Enabled(s, step) && step.Register?
    ensures Good(Apply(s, step))
  {
    hide StoreTags, BatchesOk, AllDelivered, Merged, RunningItems, HasRunning, BufTags, Closed, PublishedOk, PromptsOk, Extends;
    var t := Apply(s, step);
    RegisteredPrompts(s, step);
    RegisteredTags(s, step);
    GoodExtends(s, t.prompts, t.published);
  }

  lemma PutKeeps(s: State, step: Step)
    requires Good(s) && Enabled(s, step) && step.PutOutputs?
    ensures Good(Apply(s, step))
  {
    var t := Apply(s, step);
    GoodExtends(s, t.prompts, t.published);
    if s.snapshot.Some? {
      StillClosed(s.snapshot.value, s, t, step.uid);
    }
    StillClosed(s.buf, s, t, step.uid);
    StillClosed(s.store, s, t, step.uid);
    var items := OutputItems(step.uid, step.session, step.count, s.prompts[step.uid].steps);
    AddedStoreTags(s.store, items, t.prompts, t.published);
    hide StoreTags, BufTags, BatchesOk, AllDelivered;
  }

  /** Outputs put later belong to a prompt that has not finished. */
  lemma StillClosed(items: Items, s: State, t: State, uid: nat)
    requires var gone := AllDelivered(s.delivered); Closed(items, s.published, gone) && t.delivered == s.delivered
    requires uid in s.prompts && s.prompts[uid].ended != Some(Finished)
    requires StoreTags(items, s.prompts, s.published) || BufTags(items, s.prompts, s.published)
    requires s.published <= t.published && forall key <- t.published - s.published :: key.uid == uid
    ensures Closed(items, t.published, AllDelivered(t.delivered))
  {
    var key := Prompt(uid);
    assert key in items && StoreTags(items, s.prompts, s.published) ==> StoreTag(key, items[key], s.prompts, s.published);
    assert key in items && BufTags(items, s.prompts, s.published) ==> BufTag(key, items[key], s.prompts, s.published);
  }

  /** Writing the end tag of a prompt all of whose outputs are in the store or delivered. */
  lemma EndedStore(s: State, uid: nat, end: Status)
    requires Good(s) && uid in s.prompts && s.prompts[uid].ended.None?
    ensures Prompt(uid) !in s.store
    ensures Merged(s.store, map[Prompt(uid) := Tags(None, Some(end))]) == s.store[Prompt(uid) := Tags(None, Some(end))]
    ensures Closed(s.store[Prompt(uid) := Tags(None, Some(end))], s.published, AllDelivered(s.delivered))
  {
    hide PromptsOk, BufTags, BatchesOk, AllDelivered, PhaseOk, HasRunning;
    var key := Prompt(uid);
    assert key in s.store ==> StoreTag(key, s.store[key], s.prompts, s.published);
  }

  lemma EndedPrompts(s: State, step: Step)
    requires Good(s) && Enabled(s, step) && (step.Finish? || step.Fail?)
    ensures var t := Apply(s, step);
            && PromptsOk(t.prompts, t.steps, t.store, t.buf)
            && PublishedOk(t.published, t.prompts, t.store, AllDelivered(t.delivered))
            && Extends(s.prompts, t.prompts)
  {
    hide StoreTags, BufTags, BatchesOk, AllDelivered, Merged, Closed, HasRunning;
    EndedStore(s, step.uid, if step.Finish? then Finished else Failure);
  }

  lemma EndKeeps(s: State, step: Step)
    requires Good(s) && Enabled(s, step) && (step.Finish? || step.Fail?)
    ensures Good(Apply(s, step))
  {
    hide StoreTags, BufTags, BatchesOk, AllDelivered, Merged, Closed, HasRunning, PromptsOk, PublishedOk, Extends;
    var t := Apply(s, step);
    var key, end := Prompt(step.uid), if step.Finish? then Finished else Failure;
    EndedPrompts(s, step);
    GoodExtends(s, t.prompts, t.published);
    EndedStore(s, step.uid, end);
    EndTagOk(key, end, t.prompts, t.published);
    AddedStoreTags(s.store, map[key := Tags(None, Some(end))], t.prompts, t.published);
  }

  lemma EndTagOk(key: Key, end: Status, prompts: Prompts, published: set<Key>)
    requires key.Prompt? && key.uid in prompts && prompts[key.uid].ended == Some(end)
    ensures StoreTags(map[key := Tags(None, Some(end))], prompts, published)
  {
  }

  lemma ListKeeps(s: State)
    requires Good(s) && Enabled(s, List)
    ensures Good(Apply(s, List))
  {
  }

  lemma MergeKeeps(s: State)
    requires Good(s) && Enabled(s, Merge)
    ensures Good(Apply(s, Merge))
  {
  }

  lemma OneMoreDelivered(delivered: seq<(int, set<Key>)>, batch: (int, set<Key>))
    ensures AllDelivered(delivered + [batch]) == AllDelivered(delivered) + batch.1
  {
    assert (delivered + [batch])[..|delivered|] == delivered;
  }

  lemma MoreGone(items: Items, published: set<Key>, prompts: Prompts, store: Items, gone: set<Key>, more: set<Key>)
    ensures Closed(items, published, gone) ==> Closed(items, published, gone + more)
    ensures PublishedOk(published, prompts, store, gone) ==> PublishedOk(published, prompts, store, gone + more)
  {
  }

  lemma BatchIsOk(s: State)
    requires Good(s)
    ensures BatchOf((s.steps, Batch(s.buf, s.steps)), s.steps, s.prompts, s.published)
  {
    hide PromptsOk, PublishedOk, StoreTags, Closed, BatchesOk, PhaseOk, HasRunning, AllDelivered;
    forall key | key in Batch(s.buf, s.steps)
      ensures key in s.published && key.uid in s.prompts && s.prompts[key.uid].steps == s.steps
    {
      assert BufTag(key, s.buf[key], s.prompts, s.published);
      assert s.prompts[key.uid].ended != Some(Success) by { EndedTag(s, key.uid); }
    }
  }

  lemma EndedTag(s: State, uid: nat)
    requires Good(s) && uid in s.prompts
    ensures s.prompts[uid].ended != Some(Success)
  {
    assert PromptOk(uid, s.prompts[uid], s.steps, s.store, s.buf);
  }

  lemma SampleKeeps(s: State)
    requires Good(s) && Enabled(s, Sample)
    ensures Good(Apply(s, Sample))
  {
    hide PromptsOk, PublishedOk, StoreTags, BufTags, Closed, AllDelivered, BatchOf, Batch, HasRunning;
    var batch, gone := (s.steps, Batch(s.buf, s.steps)), AllDelivered(s.delivered);
    BatchIsOk(s);
    OneMoreDelivered(s.delivered, batch);
    MoreGone(s.store, s.published, s.prompts, s.store, gone, batch.1);
    MoreGone(s.buf, s.published, s.prompts, s.store, gone, batch.1);
    if s.snapshot.Some? {
      MoreGone(s.snapshot.value, s.published, s.prompts, s.store, gone, batch.1);
    }
  }

  lemma DeliveredCovers(delivered: seq<(int, set<Key>)>)
    ensures forall i :: 0 <= i < |delivered| ==> delivered[i].1 <= AllDelivered(delivered)
  {
    if |delivered| > 0 {
      DeliveredCovers(delivered[..|delivered| - 1]);
    }
  }

  lemma ClearKeeps(s: State)
    requires Good(s) && Enabled(s, Clear)
    ensures Good(Apply(s, Clear))
  {
    DeliveredCovers(s.delivered);
  }

  lemma RemoveKeeps(s: State, step: Step)
    requires Good(s) && Enabled(s, step) && step.Remove?
    ensures Good(Apply(s, step))
  {
    DeliveredCovers(s.delivered);
  }

  lemma StepKeeps(s: State, step: Step)
    requires Good(s) && Enabled(s, step)
    ensures Good(Apply(s, step))
  {
    hide Good, Enabled, Apply;
    match step
    case Register(_) => RegisterKeeps(s, step);
    case PutOutputs(_, _, _) => PutKeeps(s, step);
    case Finish(_) => EndKeeps(s, step);
    case Fail(_) => EndKeeps(s, step);
    case List => ListKeeps(s);
    case Merge => MergeKeeps(s);
    case Sample => SampleKeeps(s);
    case Clear => ClearKeeps(s);
    case Remove(_) => RemoveKeeps(s, step);
  }

  lemma {:induction false} RunKeeps(s: State, run: seq<Step>)
    requires Good(s) && Legal(s, run)
    ensures Good(After(s, run))
    decreases |run|
  {
    hide Good, Enabled, Apply;
    if run != [] {
      StepKeeps(s, run[0]);
      RunKeeps(Apply(s, run[0]), run[1..]);
    }
  }
}
