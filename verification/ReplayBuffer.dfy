/** The replay buffer of the asynchronous trainer (verl/trainer/main_ppo_sync.py): what the trainer
    knows about prompts and their outputs, polled from the transfer queue. */
module ReplayBuffer {
  import opened Outcomes

  datatype Status = Running | Finished | Failure | Success

  /** The tag dictionary: `global_steps` and `status`, either of which may be missing. */
  datatype Tags = Tags(steps: Option<int>, status: Option<Status>)

  /** A prompt's uid, or the key of one output of one of its sessions. */
  datatype Key = Prompt(uid: nat) | Output(uid: nat, session: nat, index: nat)

  type Items = map<Key, Tags>

  /** `dict.update` of the tags of one key. */
  function Update(had: Tags, given: Tags): Tags {
    Tags(if given.steps.Some? then given.steps else had.steps, if given.status.Some? then given.status else had.status)
  }

  /** A partition after items have been added to it. */
  function Merged(partition: Items, items: Items): Items {
    map key | key in partition.Keys + items.Keys ::
      if key !in items then partition[key]
      else if key in partition then Update(partition[key], items[key])
      else items[key]
  }

  /** Looking up the tags of an entry raises no KeyError. */
  predicate Readable(t: Tags, steps: int) {
    t.steps.Some? && (t.steps == Some(steps) ==> t.status.Some?)
  }

  predicate HasRunning(partition: Items, steps: int) {
    exists key :: key in partition && partition[key] == Tags(Some(steps), Some(Running))
  }

  /** The keys a batch of this step consists of. */
  function Batch(partition: Items, steps: int): set<Key> {
    set key | key in partition && partition[key] == Tags(Some(steps), Some(Success))
  }

  /** The outcome of one pass of `sample`: wait and look again, a batch, or a missing tag. */
  datatype Attempt = Wait | Ready(keys: seq<Key>, tags: seq<Tags>) | KeyError

  function PartitionOf(partitions: map<string, Items>, id: string): Items {
    if id in partitions then partitions[id] else map[]
  }

  class ReplayBuffer {
    /** A `defaultdict`: looking a partition up creates it. */
    var partitions: map<string, Items>

    constructor ()
      ensures partitions == map[]
    {
      partitions := map[];
    }

    method Add(id: string, items: Items)
      modifies this
      ensures partitions == old(partitions)[id := Merged(PartitionOf(old(partitions), id), items)]
    {
      var before := PartitionOf(partitions, id);
      var partition := before;
      var todo := items.Keys;
      while todo != {}
        invariant todo <= items.Keys && partition.Keys == before.Keys + (items.Keys - todo)
        invariant forall key <- partition ::
          && (key in items && key !in todo ==>
                partition[key] == Update(if key in before then before[key] else Tags(None, None), items[key]))
          && (key !in items || key in todo ==> partition[key] == before[key])
      {
        var key :| key in todo;
        if key !in partition {
          partition := partition[key := Tags(None, None)];
        }
        partition := partition[key := Update(partition[key], items[key])];
        todo := todo - {key};
      }
      assert partition == Merged(before, items);
      partitions := partitions[id := partition];
    }

    method Remove(id: string, keys: seq<Key>)
      modifies this
      ensures partitions == old(partitions)[id := PartitionOf(old(partitions), id) - set key | key in keys]
    {
      var before := PartitionOf(partitions, id);
      var partition := before;
      for i := 0 to |keys|
        invariant partition == before - set key | key in keys[..i]
      {
        if keys[i] in partition {
          partition := partition - {keys[i]};
        }
      }
      assert keys[..|keys|] == keys;
      partitions := partitions[id := partition];
    }

    /** One pass over the partition. A running prompt of the step stops it; otherwise the batch is all
        successful outputs of the step, each once, with the tags they have now. */
    method TrySample(id: string, steps: int) returns (r: Attempt)
      modifies this
      ensures partitions == old(partitions)[id := PartitionOf(old(partitions), id)]
      ensures var p := PartitionOf(old(partitions), id);
        match r
        case Wait => HasRunning(p, steps)
        case KeyError => exists key :: key in p && !Readable(p[key], steps)
        case Ready(keys, tags) =>
          && !HasRunning(p, steps) && (forall key <- p :: Readable(p[key], steps))
          && (forall key :: key in keys <==> key in Batch(p, steps)) && |keys| == |tags| == |Batch(p, steps)|
          && forall i :: 0 <= i < |keys| ==> keys[i] in p && tags[i] == p[keys[i]]
    {
      var partition := PartitionOf(partitions, id);
      partitions := partitions[id := partition];
      var keys, tags := [], [];
      var todo := partition.Keys;
      ghost var found: set<Key> := {};
      while todo != {}
        invariant todo <= partition.Keys
        invariant forall key :: key in partition && key !in todo ==>
          Readable(partition[key], steps) && partition[key] != Tags(Some(steps), Some(Running))
        invariant found == Batch(partition, steps) - todo
        invariant (forall key :: key in keys <==> key in found) && |keys| == |tags| == |found|
        invariant forall i :: 0 <= i < |keys| ==> keys[i] in partition && tags[i] == partition[keys[i]]
      {
        var key :| key in todo;
        var tag := partition[key];
        if tag.steps.None? { return KeyError; }
        if tag.steps.value == steps {
          if tag.status.None? { return KeyError; }
          if tag.status.value == Running { return Wait; }
          if tag.status.value == Success {
            keys, tags := keys + [key], tags + [tag];
            found := found + {key};
          }
        }
        todo := todo - {key};
      }
      return Ready(keys, tags);
    }
  }
}
