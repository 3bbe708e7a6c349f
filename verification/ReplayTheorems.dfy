/** What `sample` may rely on over every interleaving of trainer, workers, store and poller. */
module ReplayTheorems {
  import opened Outcomes
  import opened ReplayBuffer
  import opened ReplayProtocol

  ghost predicate Reachable(s: State) {
    exists steps, run :: Legal(Initial(steps), run) && s == After(Initial(steps), run)
  }

  lemma ReachableIsGood(s: State)
    requires Reachable(s)
    ensures Good(s)
  {
    hide Good, Enabled, Apply;
    var steps, run :| Legal(Initial(steps), run) && s == After(Initial(steps), run);
    InitialIsGood(steps);
    RunKeeps(Initial(steps), run);
  }

  /** No lookup in `sample` meets a missing tag, although end tags carry no step. */
  lemma NoMissingTag(s: State, steps: int)
    requires Reachable(s)
    ensures forall key <- s.buf :: Readable(s.buf[key], steps)
  {
    ReachableIsGood(s);
    forall key | key in s.buf ensures Readable(s.buf[key], steps) {
      assert BufTag(key, s.buf[key], s.prompts, s.published);
    }
  }

  lemma NoneRunningAllEnded(s: State)
    requires Good(s) && !HasRunning(s.buf, s.steps)
    ensures forall uid <- s.prompts :: s.prompts[uid].steps == s.steps ==>
      s.prompts[uid].ended.Some? && Prompt(uid) in s.buf && s.buf[Prompt(uid)].status == s.prompts[uid].ended
  {
    forall uid | uid in s.prompts && s.prompts[uid].steps == s.steps
      ensures Prompt(uid) in s.buf && s.buf[Prompt(uid)].status == s.prompts[uid].ended && s.prompts[uid].ended.Some?
    {
      assert PromptOk(uid, s.prompts[uid], s.steps, s.store, s.buf);
      assert BufTag(Prompt(uid), s.buf[Prompt(uid)], s.prompts, s.published);
    }
  }

  /** An output of a prompt of the current step whose worker has finished normally. */
  ghost predicate FinishedOutput(s: State, key: Key) {
    && key in s.published && key.uid in s.prompts
    && s.prompts[key.uid].steps == s.steps && s.prompts[key.uid].ended == Some(Finished)
  }

  /** When `sample` returns for a step, every prompt registered for it has ended, and the batch consists
      of published outputs of these prompts, among them every output of a finished prompt that has not
      been delivered before. */
  lemma SampleIsComplete(s: State)
    requires Reachable(s) && Enabled(s, Sample)
    ensures forall uid <- s.prompts :: s.prompts[uid].steps == s.steps ==> s.prompts[uid].ended.Some?
    ensures forall key <- Batch(s.buf, s.steps) ::
      key in s.published && key.uid in s.prompts && s.prompts[key.uid].steps == s.steps
    ensures forall key :: FinishedOutput(s, key) ==> key in Batch(s.buf, s.steps) || key in AllDelivered(s.delivered)
  {
    ReachableIsGood(s);
    CompleteBatch(s);
  }

  lemma CompleteBatch(s: State)
    requires Good(s) && Enabled(s, Sample)
    ensures forall uid <- s.prompts :: s.prompts[uid].steps == s.steps ==> s.prompts[uid].ended.Some?
    ensures forall key <- Batch(s.buf, s.steps) ::
      key in s.published && key.uid in s.prompts && s.prompts[key.uid].steps == s.steps
    ensures forall key :: FinishedOutput(s, key) ==> key in Batch(s.buf, s.steps) || key in AllDelivered(s.delivered)
  {
    hide AllDelivered;
    NoneRunningAllEnded(s);
    forall key | key in s.buf ensures BufTag(key, s.buf[key], s.prompts, s.published) {}
  }

  // ---------------------------------------------------------------- one step per batch

  /** The training loop raises the step after every batch. */
  ghost predicate StepPerBatch(run: seq<Step>) {
    forall i :: 0 <= i < |run| && run[i].Remove? ==> run[i].bump > 0
  }

  /** Delivered steps increase, and stay below the current one until it is sampled. */
  ghost predicate Increasing(s: State) {
    && (forall i, j :: 0 <= i < j < |s.delivered| ==> s.delivered[i].0 < s.delivered[j].0)
    && (s.phase.Idle? || s.phase.Waiting? ==> forall i :: 0 <= i < |s.delivered| ==> s.delivered[i].0 < s.steps)
    && (forall i :: 0 <= i < |s.delivered| ==> s.delivered[i].0 <= s.steps)
  }

  lemma StepIncreases(s: State, step: Step)
    requires Increasing(s) && Enabled(s, step) && (step.Remove? ==> step.bump > 0)
    ensures Increasing(Apply(s, step))
  {
    hide Merged, HasRunning, Batch, RunningItems, OutputItems;
  }

  lemma {:induction false} RunIncreases(s: State, run: seq<Step>)
    requires Increasing(s) && Legal(s, run) && StepPerBatch(run)
    ensures Increasing(After(s, run))
    decreases |run|
  {
    hide Increasing, Enabled, Apply;
    if run != [] {
      StepIncreases(s, run[0]);
      RunIncreases(Apply(s, run[0]), run[1..]);
    }
  }

  lemma DeliveredIn(delivered: seq<(int, set<Key>)>, key: Key) returns (i: nat)
    requires key in AllDelivered(delivered)
    ensures i < |delivered| && key in delivered[i].1
  {
    i := |delivered| - 1;
    if key !in delivered[i].1 {
      i := DeliveredIn(delivered[..i], key);
    }
  }

  /** In training no output is ever delivered twice, even when a stale snapshot brings removed keys
      back into the buffer. What is about to be delivered is new, is still in the store, and contains
      every output of every finished prompt of the step. */
  lemma TrainingDeliversOnce(steps: int, run: seq<Step>)
    requires Legal(Initial(steps), run) && StepPerBatch(run)
    ensures var s := After(Initial(steps), run);
            && (forall i, j :: 0 <= i < j < |s.delivered| ==> s.delivered[i].1 !! s.delivered[j].1)
            && (Enabled(s, Sample) ==>
                  && Batch(s.buf, s.steps) !! AllDelivered(s.delivered) && Batch(s.buf, s.steps) <= s.store.Keys
                  && forall key :: FinishedOutput(s, key) ==> key in Batch(s.buf, s.steps))
  {
    hide Legal, After, Merged, HasRunning;
    var s := After(Initial(steps), run);
    RunIncreases(Initial(steps), run);
    ReachableIsGood(s);
    forall i, j | 0 <= i < j < |s.delivered| ensures s.delivered[i].1 !! s.delivered[j].1 {
      assert BatchOf(s.delivered[i], s.steps, s.prompts, s.published);
      assert BatchOf(s.delivered[j], s.steps, s.prompts, s.published);
    }
    if Enabled(s, Sample) {
      forall key | key in AllDelivered(s.delivered) ensures key.uid in s.prompts && s.prompts[key.uid].steps < s.steps {
        var i := DeliveredIn(s.delivered, key);
        assert BatchOf(s.delivered[i], s.steps, s.prompts, s.published);
      }
      SampleIsComplete(s);
    }
  }

  // ---------------------------------------------------------------- what is put is delivered

  /** This step puts this output. */
  ghost predicate Puts(step: Step, key: Key) {
    && step.PutOutputs? && key.Output?
    && key.uid == step.uid && key.session == step.session && key.index < step.count
  }

  /** A session that has made `count` outputs puts one key for each of them, and no other. */
  lemma PutPublishes(s: State, step: Step)
    requires Enabled(s, step)
    ensures forall key :: key in Apply(s, step).published <==> key in s.published || Puts(step, key)
    ensures forall key :: Puts(step, key) ==>
      key in Apply(s, step).store && Apply(s, step).store[key] == Tags(Some(s.prompts[key.uid].steps), Some(Success))
  {
    hide RunningItems, Batch, HasRunning;
    if step.PutOutputs? {
      var items := OutputItems(step.uid, step.session, step.count, s.prompts[step.uid].steps);
      forall key ensures key in items <==> Puts(step, key) {
        if Puts(step, key) {
          assert key == Output(step.uid, step.session, key.index);
        }
      }
    }
  }

  /** Over any run exactly the outputs that were put have been published. */
  lemma {:induction false} PublishedIffPut(s: State, run: seq<Step>, key: Key)
    requires Legal(s, run)
    ensures key in After(s, run).published <==> key in s.published || exists k :: 0 <= k < |run| && Puts(run[k], key)
    decreases |run|
  {
    hide Apply, Enabled, Puts;
    if run != [] {
      var rest := run[1..];
      PutPublishes(s, run[0]);
      PublishedIffPut(Apply(s, run[0]), rest, key);
      assert forall k :: 0 <= k < |rest| ==> rest[k] == run[k + 1];
      if k :| 0 <= k < |run| && Puts(run[k], key) {
        assert k > 0 ==> run[k] == rest[k - 1];
      }
    }
  }

  /** The prompts of this step have been sampled. */
  ghost predicate Past(s: State, steps: int) {
    steps < s.steps || (steps == s.steps && (s.phase.Training? || s.phase.Cleared?))
  }

  /** Every prompt of a step that has been sampled has ended, and all outputs of finished ones are delivered. */
  ghost predicate Settled(s: State) {
    && (forall uid <- s.prompts :: Past(s, s.prompts[uid].steps) ==> s.prompts[uid].ended.Some?)
    && forall key <- s.published ::
         key.uid in s.prompts && Past(s, s.prompts[key.uid].steps) && s.prompts[key.uid].ended == Some(Finished) ==>
           key in AllDelivered(s.delivered)
  }

  lemma SampleSettles(s: State)
    requires Good(s) && Settled(s) && Enabled(s, Sample)
    ensures Settled(Apply(s, Sample))
  {
    var t := Apply(s, Sample);
    CompleteBatch(s);
    hide Good, Batch, HasRunning;
    assert t.delivered[..|s.delivered|] == s.delivered;
  }

  lemma PutSettles(s: State, step: Step)
    requires Settled(s) && Enabled(s, step) && step.PutOutputs?
    ensures Settled(Apply(s, step))
  {
    hide AllDelivered, RunningItems, Batch, HasRunning, Merged;
    PutPublishes(s, step);
    hide OutputItems;
  }

  lemma RegisteredState(s: State, step: Step)
    requires Enabled(s, step) && step.Register?
    ensures var t := Apply(s, step);
            && t.steps == s.steps && t.phase.Waiting? && t.published == s.published && t.delivered == s.delivered
            && (forall uid <- s.prompts :: uid in t.prompts && t.prompts[uid] == s.prompts[uid])
            && forall uid <- t.prompts :: uid in s.prompts || t.prompts[uid].steps == s.steps
  {
    hide RunningItems, Merged;
  }

  lemma RegisterSettles(s: State, step: Step)
    requires Good(s) && Settled(s) && Enabled(s, step) && step.Register?
    ensures Settled(Apply(s, step))
  {
    PublishedPrompts(s);
    RegisteredState(s, step);
    hide AllDelivered, Good, Apply;
  }

  lemma EndSettles(s: State, step: Step)
    requires Good(s) && Settled(s) && Enabled(s, step) && (step.Finish? || step.Fail?)
    ensures Settled(Apply(s, step))
  {
    PublishedPrompts(s);
    hide AllDelivered, Good, Merged;
  }

  lemma PublishedPrompts(s: State)
    requires Good(s)
    ensures forall key <- s.published :: key.uid in s.prompts
    ensures forall uid <- s.prompts :: s.prompts[uid].steps <= s.steps
  {
  }

  lemma StepSettles(s: State, step: Step)
    requires Good(s) && Settled(s) && Enabled(s, step)
    ensures Settled(Apply(s, step))
  {
    if step.Sample? {
      SampleSettles(s);
    } else if step.PutOutputs? {
      PutSettles(s, step);
    } else if step.Register? {
      RegisterSettles(s, step);
    } else if step.Finish? || step.Fail? {
      EndSettles(s, step);
    } else {
      PublishedPrompts(s);
      hide AllDelivered, Batch, HasRunning, Good, Merged;
    }
  }

  lemma {:induction false} RunSettles(s: State, run: seq<Step>)
    requires Good(s) && Settled(s) && Legal(s, run)
    ensures Settled(After(s, run))
    decreases |run|
  {
    hide Good, Settled, Enabled, Apply;
    if run != [] {
      StepKeeps(s, run[0]);
      StepSettles(s, run[0]);
      RunSettles(Apply(s, run[0]), run[1..]);
    }
  }

  /** Over every run, every single output that any session has put is published; once the step of its
      prompt has been sampled, if the prompt has finished, it is in a delivered batch, and in training in
      exactly one. */
  lemma EveryPutIsDelivered(steps: int, run: seq<Step>, k: nat, i: nat)
    requires Legal(Initial(steps), run) && k < |run| && run[k].PutOutputs? && i < run[k].count
    ensures var s, key := After(Initial(steps), run), Output(run[k].uid, run[k].session, i);
            && key in s.published && key.uid in s.prompts
            && (s.prompts[key.uid].ended == Some(Finished) && Past(s, s.prompts[key.uid].steps) ==>
                  exists j :: 0 <= j < |s.delivered| && key in s.delivered[j].1)
            && (StepPerBatch(run) ==>
                  forall j, j' :: 0 <= j < j' < |s.delivered| ==> !(key in s.delivered[j].1 && key in s.delivered[j'].1))
  {
    var s, key := After(Initial(steps), run), Output(run[k].uid, run[k].session, i);
    assert Puts(run[k], key);
    PublishedIffPut(Initial(steps), run, key);
    RunFacts(steps, run);
    PublishedPrompts(s);
    if StepPerBatch(run) {
      TrainingDeliversOnce(steps, run);
    }
    hide Legal, After, Good, StepPerBatch, Enabled, Batch, HasRunning, Puts, Past;
    if key in AllDelivered(s.delivered) {
      var j := DeliveredIn(s.delivered, key);
    }
  }

  lemma RunFacts(steps: int, run: seq<Step>)
    requires Legal(Initial(steps), run)
    ensures Good(After(Initial(steps), run)) && Settled(After(Initial(steps), run))
  {
    InitialIsGood(steps);
    hide Good, Enabled, Apply, Legal, After;
    RunKeeps(Initial(steps), run);
    RunSettles(Initial(steps), run);
  }

  /** The batch about to be returned completes the delivery of every output put for its step. */
  lemma EveryPutIsInTheBatch(steps: int, run: seq<Step>, k: nat, i: nat)
    requires Legal(Initial(steps), run) && k < |run| && run[k].PutOutputs? && i < run[k].count
    requires Enabled(After(Initial(steps), run), Sample)
    ensures var s, key := After(Initial(steps), run), Output(run[k].uid, run[k].session, i);
            && key.uid in s.prompts
            && |Apply(s, Sample).delivered| == |s.delivered| + 1
            && (s.prompts[key.uid].ended == Some(Finished) && s.prompts[key.uid].steps == s.steps ==>
                  || key in Apply(s, Sample).delivered[|s.delivered|].1
                  || exists j :: 0 <= j < |s.delivered| && key in s.delivered[j].1)
  {
    var s, key := After(Initial(steps), run), Output(run[k].uid, run[k].session, i);
    AfterConcat(Initial(steps), run, [Sample]);
    OneStep(s, Sample);
    assert (run + [Sample])[k] == run[k];
    EveryPutIsDelivered(steps, run, k, i);
    EveryPutIsDelivered(steps, run + [Sample], k, i);
    SampledState(s);
    hide Legal, After, Good, StepPerBatch, Enabled, Batch, HasRunning, Apply;
    var t := After(Initial(steps), run + [Sample]);
    if s.prompts[key.uid].ended == Some(Finished) && s.prompts[key.uid].steps == s.steps {
      var j :| 0 <= j < |t.delivered| && key in t.delivered[j].1;
      assert j < |s.delivered| ==> t.delivered[j] == s.delivered[j];
    }
  }

  lemma SampledState(s: State)
    requires Enabled(s, Sample)
    ensures Apply(s, Sample) == s.(phase := Training(Batch(s.buf, s.steps)),
                                   delivered := s.delivered + [(s.steps, Batch(s.buf, s.steps))])
  {
  }

  // ---------------------------------------------------------------- progress

  /** A snapshot taken when every prompt of the step had ended is waiting to be merged. */
  ghost predicate Pending(s: State, steps: int) {
    && s.phase.Waiting? && s.steps == steps && s.snapshot.Some?
    && forall uid <- s.prompts :: s.prompts[uid].steps == steps ==>
         s.prompts[uid].ended.Some? && Prompt(uid) in s.snapshot.value
  }

  lemma {:induction false} PendingStays(s: State, run: seq<Step>, steps: int)
    requires Legal(s, run) && Pending(s, steps) && forall step <- run :: !step.Merge? && !step.Sample?
    ensures Pending(After(s, run), steps)
    decreases |run|
  {
    hide Merged, HasRunning, OutputItems;
    if run != [] {
      assert run[0] in run && Pending(Apply(s, run[0]), steps);
      PendingStays(Apply(s, run[0]), run[1..], steps);
    }
  }

  lemma {:induction false} AfterConcat(s: State, run: seq<Step>, more: seq<Step>)
    ensures Legal(s, run + more) <==> Legal(s, run) && Legal(After(s, run), more)
    ensures Legal(s, run + more) ==> After(s, run + more) == After(After(s, run), more)
    decreases |run|
  {
    hide Enabled, Apply;
    if run == [] {
      assert run + more == more;
    } else {
      assert (run + more)[1..] == run[1..] + more && (run + more)[0] == run[0];
      if Enabled(s, run[0]) {
        AfterConcat(Apply(s, run[0]), run[1..], more);
      }
    }
  }

  /** Once every prompt of the step has ended, the next full poll lets `sample` return, whatever the
      workers do between listing and merging. */
  lemma PollEndsTheWait(s: State, between: seq<Step>)
    requires Reachable(s) && s.phase.Waiting?
    requires forall uid <- s.prompts :: s.prompts[uid].steps == s.steps ==> s.prompts[uid].ended.Some?
    requires Legal(s, [List] + between + [Merge]) && forall step <- between :: !step.Merge? && !step.Sample?
    ensures Enabled(After(s, [List] + between + [Merge]), Sample)
  {
    hide Good, Enabled, Apply, Legal, After, Pending;
    ReachableIsGood(s);
    AfterConcat(s, [List] + between, [Merge]);
    AfterConcat(s, [List], between);
    OneStep(s, List);
    var t := Apply(s, List);
    StepKeeps(s, List);
    ListedIsPending(s);
    PendingStays(t, between, s.steps);
    RunKeeps(t, between);
    var u := After(t, between);
    MergedIsReady(u, s.steps);
    OneStep(u, Merge);
  }

  lemma OneStep(s: State, step: Step)
    ensures Legal(s, [step]) <==> Enabled(s, step)
    ensures Enabled(s, step) ==> After(s, [step]) == Apply(s, step)
  {
    if Enabled(s, step) {
      assert [step][1..] == [];
    }
  }

  lemma ListedIsPending(s: State)
    requires Good(s) && s.phase.Waiting? && Enabled(s, List)
    requires forall uid <- s.prompts :: s.prompts[uid].steps == s.steps ==> s.prompts[uid].ended.Some?
    ensures Pending(Apply(s, List), s.steps)
  {
    forall uid | uid in s.prompts && s.prompts[uid].ended.Some? ensures Prompt(uid) in s.store {
      assert PromptOk(uid, s.prompts[uid], s.steps, s.store, s.buf);
    }
  }

  lemma MergedIsReady(s: State, steps: int)
    requires Good(s) && Pending(s, steps)
    ensures Enabled(s, Merge) && Enabled(Apply(s, Merge), Sample)
  {
    var buf := Merged(s.buf, s.snapshot.value);
    forall key | key in buf ensures buf[key] != Tags(Some(steps), Some(Running)) {
      assert key in s.buf ==> BufTag(key, s.buf[key], s.prompts, s.published);
      assert key in s.snapshot.value ==> StoreTag(key, s.snapshot.value[key], s.prompts, s.published);
      assert key.uid in s.prompts ==> PromptOk(key.uid, s.prompts[key.uid], s.steps, s.store, s.buf);
    }
  }
}
