/** How `build_topology` wires trainer and rollout workers into the relay chain. */
module NixlTopology {
  import opened Outcomes
  import opened WeightChunks

  /** A Python slice bound: negative bounds count from the end, and both ends are clamped. */
  function Bound(i: int, n: nat): nat {
    if i < 0 then (if i + n < 0 then 0 else i + n) else if i > n then n else i
  }

  function Slice<A>(m: seq<A>, from: int, to: int): seq<A> {
    var lo, hi := Bound(from, |m|), Bound(to, |m|);
    if lo <= hi then m[lo..hi] else []
  }

  /** A Python index; the source would raise outside the list. */
  function Index<A>(m: seq<A>, i: int): Option<A> {
    if 0 <= i < |m| then Some(m[i]) else if -|m| <= i < 0 then Some(m[|m| + i]) else None
  }

  function Somes<A>(m: seq<A>): seq<Option<A>> { seq(|m|, k requires 0 <= k < |m| => Some(m[k])) }

  function Repeat<A>(a: A, n: int): seq<A> { if n <= 0 then [] else seq(n, _ => a) }

  /** Per worker: rank, and the agents of the previous and the next node. */
  datatype Wiring<A> = Wiring(ranks: seq<int>, prev: seq<Option<A>>, next: seq<Option<A>>)

  function TrainerWiring<A>(trainers: nat, rollouts: nat, m: seq<A>): Wiring<A> {
    Wiring([0] + Repeat(-1, trainers - 1),
           Repeat(None, trainers),
           [Index(m, -(rollouts as int))] + Repeat(None, trainers - 1))
  }

  function RolloutWiring<A>(rollouts: nat, m: seq<A>): Wiring<A> {
    Wiring(seq(rollouts, k => k + 1),
           [Index(m, 0)] + Somes(Slice(m, -(rollouts as int), -1)),
           Somes(Slice(m, -(rollouts as int) + 1, |m|)) + [None])
  }

  /** `build_process_group` insists on one entry per worker. */
  ghost predicate OnePerWorker<A>(w: Wiring<A>, workers: nat) {
    |w.ranks| == |w.prev| == |w.next| == workers
  }

  /** The asserts of `init_process_group`. */
  ghost predicate RankAccepts<A>(rank: int, worldSize: nat, prev: Option<A>, next: Option<A>) {
    if rank < 0 then prev.None? && next.None?
    else if rank == 0 then prev.None? && next.Some?
    else if rank < worldSize - 1 then prev.Some? && next.Some?
    else rank == worldSize - 1 ==> prev.Some? && next.None?
  }

  ghost predicate AllAccept<A>(w: Wiring<A>, worldSize: nat)
    requires |w.ranks| == |w.prev| == |w.next|
  {
    forall k :: 0 <= k < |w.ranks| ==> RankAccepts(w.ranks[k], worldSize, w.prev[k], w.next[k])
  }

  /** The agent of node n: trainer 0, then the rollout workers in order. */
  function AgentOf<A>(trainers: nat, m: seq<A>, n: nat): A
    requires 0 < trainers && trainers - 1 + n < |m|
  {
    if n == 0 then m[0] else m[trainers - 1 + n]
  }

  /** The wiring is a chain: node n's next is node n + 1, whose prev is node n, and the last has none. */
  ghost predicate IsChain<A>(trainers: nat, rollouts: nat, m: seq<A>)
    requires 0 < trainers && |m| == trainers + rollouts
  {
    var t, r := TrainerWiring(trainers, rollouts, m), RolloutWiring(rollouts, m);
    && OnePerWorker(t, trainers) && OnePerWorker(r, rollouts)
    && AllAccept(t, rollouts + 1) && AllAccept(r, rollouts + 1)
    && t.next[0] == Some(AgentOf(trainers, m, 1))
    && (forall n :: 0 <= n < rollouts ==> r.prev[n] == Some(AgentOf(trainers, m, n)))
    && (forall n :: 0 <= n < rollouts - 1 ==> r.next[n] == Some(AgentOf(trainers, m, n + 2)))
    && r.next[rollouts - 1] == None
  }

  lemma RolloutSlices<A>(trainers: nat, rollouts: nat, m: seq<A>)
    requires 0 < trainers && |m| == trainers + rollouts && rollouts >= 2
    ensures Slice(m, -(rollouts as int), -1) == m[trainers..trainers + rollouts - 1]
    ensures Slice(m, -(rollouts as int) + 1, |m|) == m[trainers + 1..]
  {
  }

  /** What each rollout worker is told, entry by entry. */
  lemma RolloutEntries<A>(trainers: nat, rollouts: nat, m: seq<A>)
    requires 0 < trainers && |m| == trainers + rollouts && rollouts >= 2
    ensures var r := RolloutWiring(rollouts, m);
            && |r.ranks| == |r.prev| == |r.next| == rollouts
            && (forall n :: 0 <= n < rollouts ==> r.ranks[n] == n + 1 && r.prev[n] == Some(AgentOf(trainers, m, n)))
            && (forall n :: 0 <= n < rollouts - 1 ==> r.next[n] == Some(AgentOf(trainers, m, n + 2)))
            && r.next[rollouts - 1] == None
  {
    RolloutSlices(trainers, rollouts, m);
    hide Slice;
  }

  lemma TrainerEntries<A>(trainers: nat, rollouts: nat, m: seq<A>)
    requires 0 < trainers && |m| == trainers + rollouts && rollouts >= 1
    ensures var t := TrainerWiring(trainers, rollouts, m);
            && |t.ranks| == |t.prev| == |t.next| == trainers
            && t.ranks[0] == 0 && t.next[0] == Some(AgentOf(trainers, m, 1)) && t.prev[0] == None
            && (forall n :: 0 < n < trainers ==> t.ranks[n] == -1 && t.prev[n] == None && t.next[n] == None)
  {
  }

  /** With at least two rollout workers the wiring is a chain that every worker accepts; with fewer,
      the lists do not even have one entry per worker, because the slice that drops the first rollout
      worker starts at 0 and is the whole list. */
  lemma ChainIffTwoRollouts<A>(trainers: nat, rollouts: nat, m: seq<A>)
    requires 0 < trainers && |m| == trainers + rollouts
    ensures OnePerWorker(RolloutWiring(rollouts, m), rollouts) <==> rollouts >= 2
    ensures rollouts >= 2 ==> IsChain(trainers, rollouts, m)
  {
    if rollouts >= 2 {
      RolloutEntries(trainers, rollouts, m);
      TrainerEntries(trainers, rollouts, m);
      hide RolloutWiring, TrainerWiring, AgentOf;
    } else {
      assert |Slice(m, -(rollouts as int) + 1, |m|)| == |m| - (1 - rollouts);
    }
  }

  /** Node reached from rank 0 by following `next` k times, when agents are told apart by identity. */
  ghost predicate Follows<A>(trainers: nat, rollouts: nat, m: seq<A>, path: seq<A>)
    requires 0 < trainers && |m| == trainers + rollouts && rollouts >= 2
  {
    && |path| == rollouts + 1 && path[0] == m[0]
    && (forall k :: 0 <= k < rollouts ==> NextAgent(trainers, rollouts, m, k) == Some(path[k + 1]))
    && NextAgent(trainers, rollouts, m, rollouts) == None
  }

  /** The `next` entry given to node n. */
  function NextAgent<A>(trainers: nat, rollouts: nat, m: seq<A>, n: nat): Option<A> {
    if n == 0 then TrainerWiring(trainers, rollouts, m).next[0]
    else if n - 1 < |RolloutWiring(rollouts, m).next| then RolloutWiring(rollouts, m).next[n - 1]
    else None
  }

  /** No ring: following `next` from rank 0 visits every rollout agent once, in order, and stops. */
  lemma RelayVisitsEveryRolloutOnce<A>(trainers: nat, rollouts: nat, m: seq<A>)
    requires 0 < trainers && |m| == trainers + rollouts && rollouts >= 2
    requires forall i, j :: 0 <= i < j < |m| ==> m[i] != m[j]
    ensures Follows(trainers, rollouts, m, [m[0]] + m[trainers..])
    ensures forall i, j :: 0 <= i < j <= rollouts ==> ([m[0]] + m[trainers..])[i] != ([m[0]] + m[trainers..])[j]
  {
    ChainIffTwoRollouts(trainers, rollouts, m);
    var path := [m[0]] + m[trainers..];
    forall k | 0 <= k < rollouts ensures NextAgent(trainers, rollouts, m, k) == Some(path[k + 1]) {
      assert path[k + 1] == AgentOf(trainers, m, k + 1);
      if k > 0 {
        assert RolloutWiring(rollouts, m).next[k - 1] == Some(AgentOf(trainers, m, k - 1 + 2));
      }
    }
  }
}
