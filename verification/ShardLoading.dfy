/** Which rank loads which checkpoint file (verl/utils/fsdp_utils.py, `parallel_load_safetensors`). */
module ShardLoading {
  import opened Outcomes
  import opened Arithmetic

  /** A dotted parameter name, by its parts. */
  type Fqn = seq<string>

  datatype Value = Value(data: seq<int>)

  /** What a rank knows about a parameter: its value, or the rank that holds it. */
  datatype Loaded = Here(value: Value) | AtRank(rank: nat)

  /** A checkpoint file: the parameters in it. */
  datatype File = File(name: string, params: map<Fqn, Value>)

  /** A Python slice with non-negative bounds. */
  function Slice<A>(s: seq<A>, from: nat, to: nat): seq<A> {
    var hi := if to < |s| then to else |s|;
    if from <= hi then s[from..hi] else []
  }

  function ChunkOf<A>(files: seq<A>, world: nat, rank: nat): seq<A>
    requires world > 0
  {
    var size := CeilDiv(|files|, world);
    Slice(files, rank * size, rank * size + size)
  }

  function Chunks<A>(files: seq<A>, world: nat, ranks: nat): seq<A>
    requires world > 0
  {
    if ranks == 0 then [] else Chunks(files, world, ranks - 1) + ChunkOf(files, world, ranks - 1)
  }

  lemma {:induction false} ChunksTakePrefix<A>(files: seq<A>, world: nat, ranks: nat)
    requires world > 0
    ensures Chunks(files, world, ranks) == Slice(files, 0, ranks * CeilDiv(|files|, world))
  {
    if ranks > 0 {
      var size := CeilDiv(|files|, world);
      ChunksTakePrefix(files, world, ranks - 1);
      assert (ranks - 1) * size + size == ranks * size;
    }
  }

  /** The chunks of all ranks, in order, are the files: each file belongs to one rank. */
  lemma ChunksAreTheFiles<A>(files: seq<A>, world: nat)
    requires world > 0
    ensures Chunks(files, world, world) == files
  {
    ChunksTakePrefix(files, world, world);
    RoundUp(|files|, world);
  }

  /** The rank in whose chunk file i is. */
  function Owner(i: nat, files: nat, world: nat): nat
    requires world > 0 && i < files
  {
    i / CeilDiv(files, world)
  }

  lemma OwnerHasIt<A>(files: seq<A>, world: nat, i: nat, rank: nat)
    requires world > 0 && i < |files|
    ensures CeilDiv(|files|, world) > 0 && Owner(i, |files|, world) < world
    ensures var size := CeilDiv(|files|, world);
            rank == Owner(i, |files|, world) <==> rank * size <= i < rank * size + size
  {
    var size := CeilDiv(|files|, world);
    RoundUp(|files|, world);
    MulCancel(0, size, world);
    var q := i / size;
    assert q * size <= i < q * size + size;
    MulCancel(q, world, size);
    if rank * size <= i < rank * size + size {
      SameMultiple(q, rank, size, i);
    }
  }

  lemma SameMultiple(a: nat, b: nat, size: nat, i: nat)
    requires a * size <= i < a * size + size && b * size <= i < b * size + size
    ensures a == b
  {
    assert (a + 1) * size == a * size + size && (b + 1) * size == b * size + size;
    MulCancel(a, b + 1, size);
    MulCancel(b, a + 1, size);
  }

  /** No parameter is in two files. */
  ghost predicate Disjoint(files: seq<File>) {
    forall i, j :: 0 <= i < j < |files| ==> files[i].params.Keys !! files[j].params.Keys
  }

  /** What a rank should know about a parameter of file i: the owner of the file has the value, everybody
      else knows who that is. */
  function Knowledge(files: seq<File>, world: nat, rank: nat, i: nat, p: Fqn): Loaded
    requires world > 0 && i < |files| && p in files[i].params
  {
    var owner := Owner(i, |files|, world);
    if owner == rank then Here(files[i].params[p]) else AtRank(owner)
  }

  /** `known` is right about the parameters of the first n files. */
  ghost predicate KnowsFiles(known: map<Fqn, Loaded>, files: seq<File>, world: nat, rank: nat, n: nat)
    requires world > 0 && n <= |files|
  {
    && (forall p <- known :: exists i :: 0 <= i < n && p in files[i].params)
    && forall i, p :: 0 <= i < n && p in files[i].params ==> p in known && known[p] == Knowledge(files, world, rank, i, p)
  }

  /** File i is in the chunk of this rank: the chunks have the rounded-up quotient of files each, in order. */
  ghost predicate InChunk(i: nat, rank: nat, files: nat, world: nat)
    requires world > 0
  {
    rank * CeilDiv(files, world) <= i < rank * CeilDiv(files, world) + CeilDiv(files, world)
  }

  /** The value, for the rank in whose chunk the file is; for all others, the number of that rank. */
  ghost predicate KnownRightly(loaded: Loaded, value: Value, i: nat, files: nat, world: nat, me: nat)
    requires world > 0
  {
    match loaded
    case Here(v) => v == value && InChunk(i, me, files, world)
    case AtRank(rank) => rank < world && rank != me && InChunk(i, rank, files, world)
  }

  lemma KnowledgeIsRight(files: seq<File>, world: nat, me: nat, i: nat, p: Fqn)
    requires 0 < world && me < world && i < |files| && p in files[i].params
    ensures KnownRightly(Knowledge(files, world, me, i, p), files[i].params[p], i, |files|, world, me)
  {
    OwnerHasIt(files, world, i, Owner(i, |files|, world));
  }

  lemma AllKnownRightly(known: map<Fqn, Loaded>, files: seq<File>, world: nat, me: nat)
    requires 0 < world && me < world && KnowsFiles(known, files, world, me, |files|)
    ensures forall i, p :: 0 <= i < |files| && p in files[i].params ==>
      p in known && KnownRightly(known[p], files[i].params[p], i, |files|, world, me)
  {
    hide KnownRightly, Knowledge, Owner;
    forall i, p | 0 <= i < |files| && p in files[i].params
      ensures p in known && KnownRightly(known[p], files[i].params[p], i, |files|, world, me)
    {
      KnowledgeIsRight(files, world, me, i, p);
    }
  }

  /** The loading loop of one rank over the chunks of all ranks; `files` are sorted by name. */
  method ParallelLoad(files: seq<File>, world: nat, me: nat) returns (known: map<Fqn, Loaded>)
    requires 0 < world && me < world && Disjoint(files)
    ensures KnowsFiles(known, files, world, me, |files|)
    ensures forall p <- known :: exists i :: 0 <= i < |files| && p in files[i].params
    ensures forall i, p :: 0 <= i < |files| && p in files[i].params ==>
      p in known && KnownRightly(known[p], files[i].params[p], i, |files|, world, me)
  {
    hide KnownRightly;
    known := map[];
    var size := CeilDiv(|files|, world);
    ghost var seen := 0;
    for rank := 0 to world
      invariant seen == (if rank * size < |files| then rank * size else |files|)
      invariant KnowsFiles(known, files, world, me, seen)
    {
      assert (rank + 1) * size == rank * size + size;
      var chunk := ChunkOf(files, world, rank);
      for j := 0 to |chunk|
        invariant seen == rank * size + j || (chunk == [] && seen == |files|)
        invariant seen + (|chunk| - j) <= |files|
        invariant KnowsFiles(known, files, world, me, seen)
      {
        OwnerHasIt(files, world, seen, rank);
        known := LoadFile(known, files, chunk[j], world, me, rank, seen);
        seen := seen + 1;
      }
    }
    RoundUp(|files|, world);
    AllKnownRightly(known, files, world, me);
  }

  /** One file of `rank`'s chunk, as rank `me` sees it. */
  method LoadFile(known: map<Fqn, Loaded>, ghost files: seq<File>, file: File, ghost world: nat, me: nat, rank: nat, ghost i: nat)
    returns (known': map<Fqn, Loaded>)
    requires 0 < world && i < |files| && files[i] == file && Disjoint(files) && Owner(i, |files|, world) == rank
    requires KnowsFiles(known, files, world, me, i)
    ensures KnowsFiles(known', files, world, me, i + 1)
  {
    hide Owner, KnowsFiles, Disjoint, Knowledge;
    known' := known;
    var todo := file.params.Keys;
    while todo != {}
      invariant todo <= file.params.Keys
      invariant known'.Keys == known.Keys + (file.params.Keys - todo)
      invariant forall p <- known' :: p in known && (p !in file.params || p in todo) ==> known'[p] == known[p]
      invariant forall p <- known' :: p in file.params && p !in todo ==>
        known'[p] == if rank == me then Here(file.params[p]) else AtRank(rank)
    {
      var p :| p in todo;
      known' := known'[p := if rank == me then Here(file.params[p]) else AtRank(rank)];
      todo := todo - {p};
    }
    FileKnown(known, known', files, world, me, i);
  }

  lemma FileKnown(known: map<Fqn, Loaded>, known': map<Fqn, Loaded>, files: seq<File>, world: nat, me: nat, i: nat)
    requires 0 < world && i < |files| && Disjoint(files) && KnowsFiles(known, files, world, me, i)
    requires known'.Keys == known.Keys + files[i].params.Keys
    requires forall p <- known' :: p in known && p !in files[i].params ==> known'[p] == known[p]
    requires forall p <- files[i].params ::
      && p in known'
      && known'[p] == if Owner(i, |files|, world) == me then Here(files[i].params[p]) else AtRank(Owner(i, |files|, world))
    ensures KnowsFiles(known', files, world, me, i + 1)
  {
  }
}
