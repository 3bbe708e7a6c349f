/** Validation batches share one step (verl/trainer/main_ppo_sync.py, `_validate`), so sampling cannot
    tell a stale output from a new one: exactly when can an output be delivered again? */
module ReplayValidation {
  import opened Outcomes
  import opened ReplayBuffer
  import opened ReplayProtocol
  import opened ReplayTheorems

  /** The state once the buffer has been cleaned up after a batch, raising the step by `bump`. */
  function Cleaned(s: State, bump: nat): State
    requires s.phase.Cleared?
  {
    Apply(s, Remove(bump))
  }

  /** This continuation delivers an output of the batch just cleaned up a second time. */
  ghost predicate Repeats(s: State, bump: nat, run: seq<Step>)
    requires s.phase.Cleared?
  {
    && Legal(Cleaned(s, bump), run)
    && Later(After(Cleaned(s, bump), run).delivered, |s.delivered|, s.phase.batch)
  }

  ghost predicate Later(delivered: seq<(int, set<Key>)>, from: nat, batch: set<Key>) {
    exists i, key :: from <= i < |delivered| && key in delivered[i].1 && key in batch
  }

  /** The poller holds a snapshot that was listed before the batch was cleared. */
  ghost predicate StaleSnapshot(s: State)
    requires s.phase.Cleared?
  {
    s.snapshot.Some? && exists key :: key in s.snapshot.value && key in s.phase.batch
  }

  /** An output of the batch can be delivered again exactly when the step is not raised and the poller
      is between listing and merging with a snapshot that still has it. */
  lemma RepeatsIffStale(s: State, bump: nat)
    requires Reachable(s) && s.phase.Cleared?
    ensures (exists run :: Repeats(s, bump, run)) <==> bump == 0 && StaleSnapshot(s)
  {
    hide Repeats, StaleSnapshot, Reachable;
    if bump == 0 && StaleSnapshot(s) {
      var run := RepeatingRun(s);
    } else {
      forall run ensures !Repeats(s, bump, run) {
        NeverRepeats(s, bump, run);
      }
    }
  }

  // ---------------------------------------------------------------- without a stale snapshot

  ghost predicate ClearedAway(s: State) {
    s.phase.Cleared? ==> s.phase.batch !! s.store.Keys
  }

  /** Outputs that were published but are nowhere to be found. */
  ghost predicate Absent(s: State, keys: set<Key>) {
    && keys <= s.published && keys !! s.store.Keys && keys !! s.buf.Keys
    && (s.snapshot.Some? ==> keys !! s.snapshot.value.Keys)
    && forall key <- keys :: key.Output?
  }

  /** An output is put only once, so what is not in the store stays out of it. */
  lemma PutOnce(s: State, step: Step, keys: set<Key>)
    requires Good(s) && Enabled(s, step) && keys <= s.published && keys !! s.store.Keys
    requires !step.Clear?
    ensures keys !! Apply(s, step).store.Keys && keys <= Apply(s, step).published
  {
    hide StoreTags, BufTags, Closed, PromptsOk, BatchesOk, PhaseOk, HasRunning, Batch;
  }

  lemma AbsentStays(s: State, step: Step, keys: set<Key>)
    requires Good(s) && Enabled(s, step) && Absent(s, keys)
    ensures Absent(Apply(s, step), keys)
  {
    if !step.Clear? {
      PutOnce(s, step, keys);
    }
    hide Good, HasRunning, Batch, OutputItems;
  }

  lemma {:induction false} AbsentIsNotDelivered(s: State, run: seq<Step>, keys: set<Key>, from: nat)
    requires Good(s) && Legal(s, run) && Absent(s, keys) && from <= |s.delivered| && !Later(s.delivered, from, keys)
    ensures !Later(After(s, run).delivered, from, keys)
    decreases |run|
  {
    hide Good, HasRunning, Merged, OutputItems, RunningItems;
    if run != [] {
      var t := Apply(s, run[0]);
      StepKeeps(s, run[0]);
      AbsentStays(s, run[0], keys);
      assert !Later(t.delivered, from, keys);
      AbsentIsNotDelivered(t, run[1..], keys, from);
    }
  }

  lemma {:induction false} ClearedIsAway(s: State, run: seq<Step>)
    requires Good(s) && Legal(s, run) && ClearedAway(s)
    ensures ClearedAway(After(s, run))
    decreases |run|
  {
    hide Good, HasRunning, Merged, OutputItems, RunningItems, Batch;
    if run != [] {
      StepKeeps(s, run[0]);
      if s.phase.Cleared? && !run[0].Clear? {
        BatchIsPublished(s);
        PutOnce(s, run[0], s.phase.batch);
      }
      ClearedIsAway(Apply(s, run[0]), run[1..]);
    }
  }

  lemma BatchIsPublished(s: State)
    requires Good(s) && s.phase.Cleared?
    ensures forall key <- s.phase.batch ::
      key in s.published && key.Output? && key.uid in s.prompts && s.prompts[key.uid].steps == s.steps
  {
    assert BatchOf(s.delivered[|s.delivered| - 1], s.steps, s.prompts, s.published);
  }

  /** Batches from number `from` on are of step `steps` or later. */
  ghost predicate LaterSteps(s: State, from: nat, steps: int) {
    s.steps >= steps && forall i :: from <= i < |s.delivered| ==> s.delivered[i].0 >= steps
  }

  lemma {:induction false} LaterStepsStay(s: State, run: seq<Step>, from: nat, steps: int)
    requires Legal(s, run) && LaterSteps(s, from, steps)
    ensures LaterSteps(After(s, run), from, steps)
    decreases |run|
  {
    hide HasRunning, Merged, OutputItems, RunningItems, Batch;
    if run != [] {
      assert LaterSteps(Apply(s, run[0]), from, steps);
      LaterStepsStay(Apply(s, run[0]), run[1..], from, steps);
    }
  }

  lemma {:induction false} PromptsStay(s: State, run: seq<Step>)
    requires Legal(s, run)
    ensures forall uid <- s.prompts ::
      uid in After(s, run).prompts && After(s, run).prompts[uid].steps == s.prompts[uid].steps
    decreases |run|
  {
    hide HasRunning, Merged, OutputItems, RunningItems, Batch;
    if run != [] {
      PromptsStay(Apply(s, run[0]), run[1..]);
    }
  }

  lemma ReachableIsAway(s: State)
    requires Reachable(s)
    ensures Good(s) && ClearedAway(s)
  {
    hide Good, Enabled, Apply;
    var steps, run :| Legal(Initial(steps), run) && s == After(Initial(steps), run);
    InitialIsGood(steps);
    RunKeeps(Initial(steps), run);
    ClearedIsAway(Initial(steps), run);
  }

  lemma NeverRepeats(s: State, bump: nat, run: seq<Step>)
    requires Reachable(s) && s.phase.Cleared? && !(bump == 0 && StaleSnapshot(s))
    ensures !Repeats(s, bump, run)
  {
    hide Good, HasRunning, Reachable, Legal, After;
    ReachableIsAway(s);
    BatchIsPublished(s);
    var t := Cleaned(s, bump);
    StepKeeps(s, Remove(bump));
    if Legal(t, run) {
      if bump == 0 {
        AbsentIsNotDelivered(t, run, s.phase.batch, |s.delivered|);
      } else {
        var u := After(t, run);
        LaterStepsStay(t, run, |s.delivered|, s.steps + bump);
        PromptsStay(t, run);
        RunKeeps(t, run);
        forall i, key | |s.delivered| <= i < |u.delivered| && key in u.delivered[i].1
          ensures key.uid in u.prompts && u.prompts[key.uid].steps > s.steps
        {
          BatchSteps(u, i);
        }
      }
    }
  }

  lemma BatchSteps(s: State, i: nat)
    requires Good(s) && i < |s.delivered|
    ensures BatchOf(s.delivered[i], s.steps, s.prompts, s.published)
  {
  }

  // ---------------------------------------------------------------- with a stale snapshot

  lemma FreshUid(uids: set<nat>) returns (uid: nat)
    ensures uid !in uids
  {
    if uids == {} { return 0; }
    uid := Above(uids);
  }

  lemma {:induction false} Above(uids: set<nat>) returns (bound: nat)
    ensures forall uid <- uids :: uid < bound
    decreases uids
  {
    if uids == {} { return 0; }
    var uid :| uid in uids;
    bound := Above(uids - {uid});
    if bound <= uid { bound := uid + 1; }
    assert forall other <- uids :: other == uid || other in uids - {uid};
  }

  lemma Cons(s: State, step: Step, run: seq<Step>)
    requires Enabled(s, step) && Legal(Apply(s, step), run)
    ensures Legal(s, [step] + run) && After(s, [step] + run) == After(Apply(s, step), run)
  {
    assert ([step] + run)[1..] == run;
  }

  lemma MergeStep(s: State)
    requires s.snapshot.Some?
    ensures Enabled(s, Merge) && Apply(s, Merge) == s.(snapshot := None, buf := Merged(s.buf, s.snapshot.value))
  {
  }

  lemma ListStep(s: State)
    requires s.snapshot.None?
    ensures Enabled(s, List) && Apply(s, List) == s.(snapshot := Some(s.store))
  {
  }

  lemma RegisterOne(s: State, uid: nat)
    requires s.phase.Idle? && uid !in s.prompts
    ensures var step := Register(map[uid := 1]);
            && Enabled(s, step)
            && Apply(s, step) == s.(phase := Waiting, prompts := s.prompts[uid := PromptInfo(s.steps, 1, {}, None)],
                                    buf := Merged(s.buf, RunningItems({uid}, s.steps)))
  {
    assert (map[uid := 1]).Keys == {uid};
  }

  lemma FailStep(s: State, uid: nat)
    requires uid in s.prompts && s.prompts[uid].ended.None?
    ensures Enabled(s, Fail(uid))
    ensures Apply(s, Fail(uid)) == s.(prompts := s.prompts[uid := s.prompts[uid].(ended := Some(Failure))],
                                      store := Merged(s.store, map[Prompt(uid) := Tags(None, Some(Failure))]))
  {
  }

  lemma CleanStep(s: State)
    requires s.phase.Cleared?
    ensures Enabled(s, Remove(0)) && Cleaned(s, 0) == Apply(s, Remove(0))
    ensures Cleaned(s, 0) == s.(phase := Idle, buf := s.buf - s.phase.batch)
  {
  }

  lemma SampleStep(s: State)
    requires Enabled(s, Sample)
    ensures Apply(s, Sample).delivered == s.delivered + [(s.steps, Batch(s.buf, s.steps))]
  {
  }

  lemma GoodPhase(s: State)
    requires Good(s) && s.phase.Cleared?
    ensures !HasRunning(s.buf, s.steps)
  {
  }

  /** The stale snapshot is merged and the next validation batch is a fresh prompt that fails. */
  lemma NextBatch(s: State, uid: nat) returns (t0: State, t1: State, t2: State, t3: State)
    requires Good(s) && s.phase.Cleared? && s.snapshot.Some? && uid !in s.prompts
    ensures t0 == Cleaned(s, 0)
    ensures Enabled(t0, Merge) && t1 == Apply(t0, Merge)
    ensures Enabled(t1, Register(map[uid := 1])) && t2 == Apply(t1, Register(map[uid := 1]))
    ensures Enabled(t2, Fail(uid)) && t3 == Apply(t2, Fail(uid)) && Good(t3)
    ensures t3.phase.Waiting? && t3.snapshot.None? && t3.steps == s.steps && t3.delivered == s.delivered
    ensures forall u <- t3.prompts :: t3.prompts[u].steps == s.steps ==> t3.prompts[u].ended.Some?
    ensures forall u <- s.prompts :: u in t3.prompts && t3.prompts[u] == s.prompts[u]
    ensures s.snapshot.value.Keys <= t3.buf.Keys
  {
    hide HasRunning, Merged, RunningItems, Batch, Good, Apply, Enabled, Cleaned;
    GoodPhase(s);
    NoneRunningAllEnded(s);
    CleanStep(s);
    t0 := Cleaned(s, 0);
    StepKeeps(s, Remove(0));
    MergeStep(t0);
    t1 := Apply(t0, Merge);
    StepKeeps(t0, Merge);
    RegisterOne(t1, uid);
    t2 := Apply(t1, Register(map[uid := 1]));
    StepKeeps(t1, Register(map[uid := 1]));
    FailStep(t2, uid);
    t3 := Apply(t2, Fail(uid));
    StepKeeps(t2, Fail(uid));
    KeepsKeys(t0.buf, t0.snapshot.value);
    KeepsKeys(t1.buf, RunningItems({uid}, t1.steps));
  }

  lemma RepeatingRun(s: State) returns (run: seq<Step>)
    requires Reachable(s) && s.phase.Cleared? && StaleSnapshot(s)
    ensures Repeats(s, 0, run)
  {
    hide HasRunning, Reachable, Legal, After, Merged, RunningItems, Batch, Good, Apply, Enabled, Cleaned, Pending;
    ReachableIsGood(s);
    BatchIsPublished(s);
    var key :| key in s.snapshot.value && key in s.phase.batch;
    var uid := FreshUid(s.prompts.Keys);
    var t0, t1, t2, t3 := NextBatch(s, uid);
    ListStep(t3);
    var t4 := Apply(t3, List);
    StepKeeps(t3, List);
    ListedIsPending(t3);
    MergedIsReady(t4, s.steps);
    MergeStep(t4);
    var t5 := Apply(t4, Merge);
    StepKeeps(t4, Merge);
    KeepsKeys(t4.buf, t4.snapshot.value);
    InBatch(t5, key);
    SampleStep(t5);
    run := Six(t0, Merge, Register(map[uid := 1]), Fail(uid), List, Merge, Sample);
    ghost var all := After(t0, run).delivered;
    assert key in all[|s.delivered|].1;
  }

  lemma KeepsKeys(buf: Items, items: Items)
    ensures Merged(buf, items).Keys == buf.Keys + items.Keys
  {
  }

  lemma InBatch(s: State, key: Key)
    requires Good(s) && key in s.buf && key.Output? && key.uid in s.prompts && s.prompts[key.uid].steps == s.steps
    ensures key in Batch(s.buf, s.steps)
  {
    assert BufTag(key, s.buf[key], s.prompts, s.published);
  }

  lemma Six(s0: State, a: Step, b: Step, c: Step, d: Step, e: Step, f: Step) returns (run: seq<Step>)
    requires Enabled(s0, a) && Enabled(Apply(s0, a), b) && Enabled(Apply(Apply(s0, a), b), c)
    requires Enabled(Apply(Apply(Apply(s0, a), b), c), d)
    requires Enabled(Apply(Apply(Apply(Apply(s0, a), b), c), d), e)
    requires Enabled(Apply(Apply(Apply(Apply(Apply(s0, a), b), c), d), e), f)
    ensures Legal(s0, run)
    ensures After(s0, run) == Apply(Apply(Apply(Apply(Apply(Apply(s0, a), b), c), d), e), f)
  {
    hide Enabled, Apply;
    var s1 := Apply(s0, a);
    var s2 := Apply(s1, b);
    var s3 := Apply(s2, c);
    var s4 := Apply(s3, d);
    var s5 := Apply(s4, e);
    var s6 := Apply(s5, f);
    assert Legal(s6, []) && After(s6, []) == s6;
    Cons(s5, f, []);
    Cons(s4, e, [f] + []);
    Cons(s3, d, [e] + ([f] + []));
    Cons(s2, c, [d] + ([e] + ([f] + [])));
    Cons(s1, b, [c] + ([d] + ([e] + ([f] + []))));
    run := [a] + ([b] + ([c] + ([d] + ([e] + ([f] + [])))));
    Cons(s0, a, [b] + ([c] + ([d] + ([e] + ([f] + [])))));
  }

  // ---------------------------------------------------------------- it does happen

  lemma OneMore(s: State, step: Step)
    requires Reachable(s) && Enabled(s, step)
    ensures Reachable(Apply(s, step)) && Good(Apply(s, step))
  {
    hide Legal, After, Enabled, Apply, Good;
    var steps, run :| Legal(Initial(steps), run) && s == After(Initial(steps), run);
    OneStep(s, step);
    AfterConcat(Initial(steps), run, [step]);
    assert Reachable(Apply(s, step));
    ReachableIsGood(Apply(s, step));
  }

  lemma InitialReachable(steps: int)
    ensures Reachable(Initial(steps)) && Good(Initial(steps))
  {
    hide Good, Enabled, Apply;
    var run: seq<Step> := [];
    assert Legal(Initial(steps), run) && Initial(steps) == After(Initial(steps), run);
    InitialIsGood(steps);
  }

  lemma PutStep(s: State)
    requires s.prompts == map[0 := PromptInfo(0, 1, {}, None)]
    ensures var step := PutOutputs(0, 0, 1);
            && Enabled(s, step) && Output(0, 0, 0) in Apply(s, step).store
            && Apply(s, step) == s.(prompts := map[0 := PromptInfo(0, 1, {0}, None)],
                                    published := Apply(s, step).published, store := Apply(s, step).store)
  {
    assert Output(0, 0, 0) in OutputItems(0, 0, 1, 0);
    var empty: set<nat> := {};
    assert empty + {0} == {0};
    assert s.prompts[0 := PromptInfo(0, 1, {0}, None)] == map[0 := PromptInfo(0, 1, {0}, None)];
  }

  lemma FinishStep(s: State)
    requires s.prompts == map[0 := PromptInfo(0, 1, {0}, None)] && Output(0, 0, 0) in s.store
    ensures var step := Finish(0);
            && Enabled(s, step) && Output(0, 0, 0) in Apply(s, step).store
            && Apply(s, step) == s.(prompts := map[0 := PromptInfo(0, 1, {0}, Some(Finished))], store := Apply(s, step).store)
  {
    KeepsKeys(s.store, map[Prompt(0) := Tags(None, Some(Finished))]);
  }

  /** One prompt of one session is dispatched, puts one output, and finishes. */
  lemma OneFinished() returns (s: State)
    ensures Reachable(s) && Good(s) && s.phase.Waiting? && s.steps == 0 && s.snapshot.None?
    ensures s.prompts == map[0 := PromptInfo(0, 1, {0}, Some(Finished))] && Output(0, 0, 0) in s.store
  {
    hide Good, Reachable, Apply, Enabled, Legal, After, Merged, RunningItems;
    var s0 := Initial(0);
    InitialReachable(0);
    RegisterOne(s0, 0);
    OneMore(s0, Register(map[0 := 1]));
    var s1 := Apply(s0, Register(map[0 := 1]));
    PutStep(s1);
    OneMore(s1, PutOutputs(0, 0, 1));
    var s2 := Apply(s1, PutOutputs(0, 0, 1));
    FinishStep(s2);
    OneMore(s2, Finish(0));
    s := Apply(s2, Finish(0));
  }

  lemma ClearStep(s: State)
    requires s.phase.Training?
    ensures Enabled(s, Clear) && Apply(s, Clear).phase == Cleared(s.phase.batch) && Apply(s, Clear).snapshot == s.snapshot
  {
  }

  /** Listing again between sampling and clearing leaves the poller with a stale snapshot. */
  lemma StaleStateIsReachable() returns (s: State)
    ensures Reachable(s) && s.phase.Cleared? && StaleSnapshot(s)
  {
    hide Good, Reachable, Apply, Enabled, Merged, Batch, HasRunning, Pending;
    var s3 := OneFinished();
    ListStep(s3);
    OneMore(s3, List);
    ListedIsPending(s3);
    var s4 := Apply(s3, List);
    MergedIsReady(s4, 0);
    MergeStep(s4);
    OneMore(s4, Merge);
    var s5 := Apply(s4, Merge);
    KeepsKeys(s4.buf, s4.snapshot.value);
    InBatch(s5, Output(0, 0, 0));
    SampledState(s5);
    OneMore(s5, Sample);
    var s6 := Apply(s5, Sample);
    ListStep(s6);
    OneMore(s6, List);
    var s7 := Apply(s6, List);
    ClearStep(s7);
    OneMore(s7, Clear);
    s := Apply(s7, Clear);
  }

  /** So some run delivers an output of one validation step twice. */
  lemma DeliveredTwice() returns (s: State, run: seq<Step>)
    ensures Reachable(s) && s.phase.Cleared? && Repeats(s, 0, run)
  {
    hide Repeats, StaleSnapshot, Reachable;
    s := StaleStateIsReachable();
    run := RepeatingRun(s);
  }
}
