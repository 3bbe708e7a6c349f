/** What the NIXL relay chain guarantees, for every chain length, weight list, bucket size and
    interleaving: no corruption, no overwriting, no deadlock, termination, exact delivery. */
module NixlTheorems {
  import opened Outcomes
  import opened WeightChunks
  import opened NixlReceiver
  import opened NixlSender
  import opened NixlChain

  /** `s` is reached from an initial state by some run. */
  ghost predicate Reachable(cfg: Config, s: Chain) {
    exists s0: Chain, acts: seq<Action> :: ReachedBy(cfg, s0, acts, s)
  }

  ghost predicate ReachedBy(cfg: Config, s0: Chain, acts: seq<Action>, s: Chain) {
    Initial(cfg, s0) && Run(cfg, s0, acts) == Some(s)
  }

  lemma ReachableIsGood(cfg: Config, s: Chain)
    requires cfg.Valid() && Reachable(cfg, s)
    ensures Inv(cfg, s)
  {
    var s0, acts :| ReachedBy(cfg, s0, acts, s);
    InitialIsGood(cfg, s0);
    RunKeeps(cfg, s0, acts);
  }

  // ---------------------------------------------------------------- delivery

  lemma {:induction false} FlattenPrefix(groups: seq<seq<Chunk>>, n: nat)
    requires n <= |groups|
    ensures Flatten(groups[..n]) <= Flatten(groups)
    decreases |groups| - n
  {
    if n == |groups| {
      assert groups[..n] == groups;
    } else {
      FlattenPrefix(groups, n + 1);
      assert groups[..n + 1][..n] == groups[..n];
    }
  }

  lemma YieldedIsPrefix(groups: seq<seq<Chunk>>, n: nat, k: nat)
    requires n <= |groups| && (n < |groups| || k == 0) && (n < |groups| ==> k <= |groups[n]|)
    ensures YieldedAt(groups, n, k) <= Flatten(groups)
  {
    if n < |groups| {
      FlattenPrefix(groups, n + 1);
      assert groups[..n + 1][..n] == groups[..n];
      assert Flatten(groups[..n + 1]) == Flatten(groups[..n]) + groups[n];
    } else {
      assert groups[..n] == groups;
    }
  }

  lemma RankYieldsPrefix(r: Receiver, groups: seq<seq<Chunk>>, bucketSize: nat, hasNext: bool)
    requires ReceiverInv(r, groups, bucketSize, hasNext)
    ensures r.yielded <= Flatten(groups)
    ensures r.pc.Done? ==> r.yielded == Flatten(groups)
  {
    hide Flatten;
    if r.pc.Yield? {
      YieldedIsPrefix(groups, r.taken - 1, r.pc.k);
    } else if r.pc.AwaitAck? || r.pc.AwaitRead? || r.pc.Done? || r.taken == 0 {
      YieldedIsPrefix(groups, r.taken, 0);
      if r.pc.Done? {
        assert groups[..r.taken] == groups;
      }
    } else {
      YieldedIsPrefix(groups, r.taken - 1, 0);
    }
  }

  /** In every reachable state every rank has yielded a prefix of what rank 0 packed, no assert has
      fired anywhere, and a rank that is done has yielded all of it. */
  lemma EveryRankYieldsAPrefix(cfg: Config, s: Chain, i: nat)
    requires cfg.Valid() && Reachable(cfg, s) && i < |s.ranks|
    ensures s.ranks[i].yielded <= Flatten(cfg.Sent())
    ensures s.ranks[i].pc.Done? ==> s.ranks[i].yielded == Flatten(cfg.Sent())
    ensures !s.ranks[i].pc.Failed? && !s.sender.pc.SenderFailed?
  {
    hide Linked, UpInv, SenderAround, Flatten;
    ReachableIsGood(cfg, s);
    SenderNotFailed(cfg, s);
    assert RankOk(cfg, s, i);
    RankYieldsPrefix(s.ranks[i], cfg.Sent(), cfg.bucketSize, i + 1 < |s.ranks|);
  }

  lemma KeysMatch(r: Receiver, l: Link, next: Receiver, groups: seq<seq<Chunk>>, bucketSize: nat, hasNext: bool)
    requires ReceiverInv(r, groups, bucketSize, true) && Placed(UpOf(r), l, next, groups, bucketSize, hasNext)
    requires r.pc.AwaitAck? && l.notifs != []
    ensures l.notifs == [r.posts - 1]
  {
  }

  /** The next notification a rank waiting for an acknowledgement can see is the one it expects. */
  lemma NotifyKeysMatch(cfg: Config, s: Chain, i: nat)
    requires cfg.Valid() && Reachable(cfg, s) && i + 1 < |s.ranks| && |s.links| == |s.ranks| + 1
    requires s.ranks[i].pc.AwaitAck? && s.links[i + 1].notifs != []
    ensures s.links[i + 1].notifs == [s.ranks[i].posts - 1]
  {
    hide ReceiverInv, UpInv, Linked, SenderInv;
    ReachableIsGood(cfg, s);
    assert RankOk(cfg, s, i) && RankOk(cfg, s, i + 1);
    KeysMatch(s.ranks[i], s.links[i + 1], s.ranks[i + 1], cfg.Sent(), cfg.bucketSize, i + 2 < |s.ranks|);
  }

  // ---------------------------------------------------------------- buffers

  /** The buffer of node `n` (0 is rank 0, i + 1 is rollout rank i) being written just now. */
  function WriteTarget(s: Chain, n: nat): Option<Side>
    requires n <= |s.ranks|
  {
    if n == 0 then (if s.sender.pc.NextChunk? || s.sender.pc.PutChunk? then Some(s.sender.send) else None)
    else if s.ranks[n - 1].xfer.Running? then Some(s.ranks[n - 1].send.Other())
    else None
  }

  /** The buffer of node `n` that its successor has been told to read and has not finished reading. */
  ghost predicate AwaitsReader(s: Chain, n: nat, side: Side)
    requires n < |s.ranks| && |s.links| == |s.ranks| + 1
  {
    var l, r := s.links[n], s.ranks[n];
    || (exists m <- l.msgs :: m.buf == side)
    || ((r.pc.BeginRead? || r.xfer.Running?) && r.msg.Some? && r.msg.value.buf == side)
  }

  /** What a successor is still to read is the posted buffer, and that once. */
  lemma ReadsThePosted(s: Chain, n: nat, up: Up, groups: seq<seq<Chunk>>, bucketSize: nat, hasNext: bool)
    requires n < |s.ranks| && |s.links| == |s.ranks| + 1
    requires Placed(up, s.links[n], s.ranks[n], groups, bucketSize, hasNext)
    ensures !AwaitsReader(s, n, up.posted.Other())
    ensures |s.links[n].msgs| + (if s.ranks[n].pc.BeginRead? || s.ranks[n].xfer.Running? then 1 else 0)
            + |s.links[n].notifs| <= 1
  {
  }

  /** Never is a buffer written while its successor is still to read it, or while it is yielded from,
      and never has a node two posted buckets unread. */
  lemma NoBufferIsOverwritten(cfg: Config, s: Chain, n: nat)
    requires cfg.Valid() && Reachable(cfg, s) && n <= |s.ranks| && |s.links| == |s.ranks| + 1
    ensures n < |s.ranks| && WriteTarget(s, n).Some? ==> !AwaitsReader(s, n, WriteTarget(s, n).value)
    ensures 0 < n && s.ranks[n - 1].pc.Yield? ==> WriteTarget(s, n) != Some(s.ranks[n - 1].send)
    ensures n < |s.ranks| ==>
              |s.links[n].msgs| + (if s.ranks[n].pc.BeginRead? || s.ranks[n].xfer.Running? then 1 else 0)
              + |s.links[n].notifs| <= 1
  {
    hide ReceiverInv, UpInv, Linked, SenderAround, AwaitsReader;
    ReachableIsGood(cfg, s);
    if n < |s.ranks| {
      assert RankOk(cfg, s, n);
      ReadsThePosted(s, n, UpAt(s, n), cfg.Sent(), cfg.bucketSize, n + 1 < |s.ranks|);
    }
  }

  // ---------------------------------------------------------------- no deadlock

  ghost predicate Stuck(cfg: Config, s: Chain)
    requires |s.links| == |s.ranks| + 1
  {
    forall a: Action :: Next(cfg, s, a).None?
  }

  ghost predicate AllDone(s: Chain) {
    s.sender.pc.SenderDone? && forall i :: 0 <= i < |s.ranks| ==> s.ranks[i].pc.Done?
  }

  /** A rank that waits for its upstream neighbour, or for nothing at all. */
  predicate Quiet(r: Receiver, inbound: Link) {
    r.pc.Done? || (r.pc.ReadMeta? && inbound.msgs == [])
  }

  /** If the successor is quiet, everything posted to it has been read and notified. */
  lemma QuietAcknowledges(up: Up, l: Link, r: Receiver, groups: seq<seq<Chunk>>, bucketSize: nat, hasNext: bool)
    requires Placed(up, l, r, groups, bucketSize, hasNext) && Quiet(r, l) && up.acks < up.posts
    ensures l.notifs != []
  {
  }

  /** A running transfer can always copy a byte or complete. */
  lemma TransferMoves(r: Receiver, inbound: Link, up: Up, groups: seq<seq<Chunk>>, bucketSize: nat, hasNext: bool)
    requires Placed(up, inbound, r, groups, bucketSize, hasNext)
    requires Complete(r, inbound).None? && forall k: nat :: CopyByte(r, k, up.bufs).None?
    ensures !r.xfer.Running?
  {
    if r.xfer.Running? && r.xfer.pending != {} {
      var k :| k in r.xfer.pending;
      var copied := CopyByte(r, k, up.bufs);
    }
  }

  /** A rank waiting for anything but its upstream neighbour can move once its successor is quiet. */
  lemma BlockedIsQuiet(up: Up, inbound: Link, r: Receiver, outbound: Link, next: Option<Receiver>,
                       groups: seq<seq<Chunk>>, bucketSize: nat)
    requires Around(up, inbound, r, outbound, next, groups, bucketSize) && !r.xfer.Running?
    requires Control(r, next.Some?, inbound, outbound).None?
    requires next.Some? && r.pc.AwaitAck? ==> outbound.notifs != []
    ensures Quiet(r, inbound)
  {
  }

  /** A rank that cannot move while its successor is quiet is quiet itself. */
  lemma StuckRankIsQuiet(cfg: Config, s: Chain, i: nat)
    requires |s.links| == |s.ranks| + 1 && Inv(cfg, s) && Stuck(cfg, s) && i < |s.ranks|
    requires i + 1 < |s.ranks| ==> Quiet(s.ranks[i + 1], s.links[i + 1])
    ensures Quiet(s.ranks[i], s.links[i])
  {
    hide ReceiverInv, UpInv, Linked, SenderInv, Control, CopyByte, Complete, Quiet;
    var r, inbound, up := s.ranks[i], s.links[i], UpAt(s, i);
    AroundRank(cfg, s, i);
    assert RankOk(cfg, s, i);
    assert Next(cfg, s, RankAct(i)).None?;
    assert Next(cfg, s, CompleteAct(i)).None?;
    forall k: nat ensures CopyByte(r, k, up.bufs).None? {
      assert Next(cfg, s, CopyAct(i, k)).None?;
    }
    TransferMoves(r, inbound, up, cfg.Sent(), cfg.bucketSize, i + 1 < |s.ranks|);
    if i + 1 < |s.ranks| && r.pc.AwaitAck? {
      assert RankOk(cfg, s, i + 1);
      AwaitingIsOwed(r, cfg.Sent(), cfg.bucketSize);
      QuietAcknowledges(UpOf(r), s.links[i + 1], s.ranks[i + 1], cfg.Sent(), cfg.bucketSize, i + 2 < |s.ranks|);
    }
    BlockedIsQuiet(up, inbound, r, s.links[i + 1], NextOf(s, i), cfg.Sent(), cfg.bucketSize);
  }

  lemma AwaitingIsOwed(r: Receiver, groups: seq<seq<Chunk>>, bucketSize: nat)
    requires ReceiverInv(r, groups, bucketSize, true) && r.pc.AwaitAck?
    ensures Acks(r) < Posts(r)
  {
  }

  lemma {:induction false} StuckRanksAreQuiet(cfg: Config, s: Chain, i: nat)
    requires Inv(cfg, s) && Stuck(cfg, s) && i < |s.ranks|
    ensures Quiet(s.ranks[i], s.links[i])
    decreases |s.ranks| - i
  {
    if i + 1 < |s.ranks| {
      StuckRanksAreQuiet(cfg, s, i + 1);
    }
    StuckRankIsQuiet(cfg, s, i);
  }

  lemma StuckSenderIsDone(cfg: Config, s: Chain)
    requires Inv(cfg, s) && Stuck(cfg, s)
    ensures s.sender.pc.SenderDone?
  {
    hide Linked, ReceiverInv, UpInv, FillsOpen, Quiet, Pack, Groups;
    StuckRanksAreQuiet(cfg, s, 0);
    assert RankOk(cfg, s, 0);
    assert Next(cfg, s, SenderAct).None?;
    if s.sender.acks < s.sender.posts {
      QuietAcknowledges(UpOfSender(s.sender), s.links[0], s.ranks[0], cfg.Sent(), cfg.bucketSize, 1 < |s.ranks|);
    }
  }

  /** Behind an upstream that has handed over everything, a quiet rank is done. */
  lemma QuietBehindDone(up: Up, l: Link, r: Receiver, groups: seq<seq<Chunk>>, bucketSize: nat, hasNext: bool)
    requires Placed(up, l, r, groups, bucketSize, hasNext) && Quiet(r, l) && up.posts == |groups|
    ensures r.pc.Done?
  {
  }

  lemma DoneSenderPostedAll(s: Sender, l: Link, r: Receiver, chunks: seq<Chunk>, bucketSize: nat)
    requires SenderInv(s, l, r, chunks, bucketSize) && s.pc.SenderDone?
    ensures UpOfSender(s).posts == |Groups(chunks, bucketSize)|
  {
    assert chunks[..|chunks|] == chunks;
  }

  lemma DonePostedAll(r: Receiver, groups: seq<seq<Chunk>>, bucketSize: nat, hasNext: bool)
    requires ReceiverInv(r, groups, bucketSize, hasNext) && r.pc.Done?
    ensures UpOf(r).posts == |groups|
  {
  }

  lemma {:induction false} StuckRanksAreDone(cfg: Config, s: Chain, i: nat)
    requires Inv(cfg, s) && Stuck(cfg, s) && i < |s.ranks|
    ensures s.ranks[i].pc.Done?
  {
    hide ReceiverInv, UpInv, Linked, SenderAround, Stuck, Quiet;
    StuckRanksAreQuiet(cfg, s, i);
    assert RankOk(cfg, s, i);
    if i == 0 {
      StuckSenderIsDone(cfg, s);
      DoneSenderPostedAll(s.sender, s.links[0], s.ranks[0], cfg.chunks, cfg.bucketSize);
    } else {
      StuckRanksAreDone(cfg, s, i - 1);
      assert RankOk(cfg, s, i - 1);
      DonePostedAll(s.ranks[i - 1], cfg.Sent(), cfg.bucketSize, true);
    }
    QuietBehindDone(UpAt(s, i), s.links[i], s.ranks[i], cfg.Sent(), cfg.bucketSize, i + 1 < |s.ranks|);
  }

  /** No deadlock: a reachable state in which nobody can move is one where everybody is done. */
  lemma NoDeadlock(cfg: Config, s: Chain)
    requires cfg.Valid() && Reachable(cfg, s) && |s.links| == |s.ranks| + 1
    ensures Stuck(cfg, s) <==> AllDone(s)
  {
    hide Linked, UpInv, SenderAround, CurInv, MsgInv, YieldInv;
    ReachableIsGood(cfg, s);
    if Stuck(cfg, s) {
      StuckSenderIsDone(cfg, s);
      forall i | 0 <= i < |s.ranks| ensures s.ranks[i].pc.Done? {
        StuckRanksAreDone(cfg, s, i);
      }
    }
    if AllDone(s) {
      forall a: Action ensures Next(cfg, s, a).None? {
        match a
        case SenderAct =>
        case RankAct(i) =>
        case CopyAct(i, k) =>
          if i < |s.ranks| {
            assert RankOk(cfg, s, i);
          }
        case CompleteAct(i) =>
          if i < |s.ranks| {
            assert RankOk(cfg, s, i);
          }
      }
    }
  }

  // ---------------------------------------------------------------- termination

  function PcRank(pc: Pc): nat {
    match pc
    case Top => 6
    case ReadMeta => 5
    case BeginRead => 4
    case FirstWait => 3
    case Yield(_) => 3
    case AwaitAck => 2
    case AwaitRead => 1
    case Done => 0
    case Failed => 0
  }

  function TransferRank(x: Transfer, bucketSize: nat): nat {
    match x
    case NotStarted => bucketSize + 2
    case Running(pending) => |pending| + 1
    case Arrived => 0
  }

  /** Work left at a rollout rank: chunks to yield, buckets to swap in, steps until then. */
  function RankWork(r: Receiver, groups: seq<seq<Chunk>>, bucketSize: nat): int {
    |Flatten(groups)| - |r.yielded| + (|groups| - r.taken) * (bucketSize + 10)
    + PcRank(r.pc) + TransferRank(r.xfer, bucketSize)
  }

  /** Work left at rank 0: chunks to pack, steps until the next. */
  function SenderWork(s: Sender, chunks: seq<Chunk>): int {
    (|chunks| - s.next) * 5 +
      match s.pc
      case NextChunk => 4
      case FlushWait => 2
      case FlushPost => 1
      case PutChunk => 0
      case FinalWait => 3
      case FinalPost => 2
      case FinalAck => 1
      case SenderDone => 0
      case SenderFailed => 0
  }

  function RanksWork(ranks: seq<Receiver>, groups: seq<seq<Chunk>>, bucketSize: nat): int {
    if ranks == [] then 0
    else RanksWork(ranks[..|ranks| - 1], groups, bucketSize) + RankWork(ranks[|ranks| - 1], groups, bucketSize)
  }

  function Work(cfg: Config, s: Chain): int {
    SenderWork(s.sender, cfg.chunks) + RanksWork(s.ranks, cfg.Sent(), cfg.bucketSize)
  }

  lemma {:induction false} RanksWorkUpdate(ranks: seq<Receiver>, i: nat, r: Receiver, groups: seq<seq<Chunk>>, bucketSize: nat)
    requires i < |ranks|
    ensures RanksWork(ranks[i := r], groups, bucketSize)
            == RanksWork(ranks, groups, bucketSize) - RankWork(ranks[i], groups, bucketSize) + RankWork(r, groups, bucketSize)
    decreases |ranks|
  {
    var n := |ranks| - 1;
    var after := ranks[i := r];
    if i == n {
      assert after[..n] == ranks[..n];
    } else {
      RanksWorkUpdate(ranks[..n], i, r, groups, bucketSize);
      assert after[..n] == ranks[..n][i := r];
    }
  }

  lemma SwapInWorks(groups: seq<seq<Chunk>>, taken: nat, bucketSize: nat)
    ensures (|groups| - (taken + 1)) * (bucketSize + 10) == (|groups| - taken) * (bucketSize + 10) - (bucketSize + 10)
  {
  }

  lemma ControlWorks(r: Receiver, hasNext: bool, inbound: Link, outbound: Link, groups: seq<seq<Chunk>>, bucketSize: nat)
    requires ReceiverInv(r, groups, bucketSize, hasNext) && Control(r, hasNext, inbound, outbound).Some?
    ensures RankWork(Control(r, hasNext, inbound, outbound).value.r, groups, bucketSize) < RankWork(r, groups, bucketSize)
  {
    hide Flatten, Holds, YieldedAt;
    SwapInWorks(groups, r.taken, bucketSize);
  }

  lemma SenderWorks(s: Sender, chunks: seq<Chunk>, outbound: Link)
    requires SendStep(s, chunks, outbound).Some? && !SendStep(s, chunks, outbound).value.0.pc.SenderFailed?
    ensures SenderWork(SendStep(s, chunks, outbound).value.0, chunks) < SenderWork(s, chunks)
  {
  }

  lemma TransferWorks(r: Receiver, inbound: Link, remote: Buffers, groups: seq<seq<Chunk>>, bucketSize: nat, k: nat)
    ensures CopyByte(r, k, remote).Some? ==>
              RankWork(CopyByte(r, k, remote).value, groups, bucketSize) < RankWork(r, groups, bucketSize)
    ensures Complete(r, inbound).Some? ==>
              RankWork(Complete(r, inbound).value.0, groups, bucketSize) < RankWork(r, groups, bucketSize)
  {
  }

  /** Every action leaves less work. */
  lemma NextWorks(cfg: Config, s: Chain, a: Action)
    requires cfg.Valid() && |s.links| == |s.ranks| + 1 && Inv(cfg, s) && Next(cfg, s, a).Some?
    ensures Work(cfg, Next(cfg, s, a).value) < Work(cfg, s)
  {
    hide ReceiverInv, UpInv, Linked, SenderAround, Control, CopyByte, Complete, SendStep, RankWork, SenderWork, RanksWork;
    var s' := Next(cfg, s, a).value;
    match a
    case SenderAct =>
      NextKeeps(cfg, s, a);
      SenderNotFailed(cfg, s');
      SenderWorks(s.sender, cfg.chunks, s.links[0]);
    case RankAct(i) =>
      assert RankOk(cfg, s, i);
      ControlWorks(s.ranks[i], i + 1 < |s.ranks|, s.links[i], s.links[i + 1], cfg.Sent(), cfg.bucketSize);
      RanksWorkUpdate(s.ranks, i, s'.ranks[i], cfg.Sent(), cfg.bucketSize);
    case CopyAct(i, k) =>
      TransferWorks(s.ranks[i], s.links[i], BufsBefore(s, i), cfg.Sent(), cfg.bucketSize, k);
      RanksWorkUpdate(s.ranks, i, s'.ranks[i], cfg.Sent(), cfg.bucketSize);
    case CompleteAct(i) =>
      TransferWorks(s.ranks[i], s.links[i], BufsBefore(s, i), cfg.Sent(), cfg.bucketSize, 0);
      RanksWorkUpdate(s.ranks, i, s'.ranks[i], cfg.Sent(), cfg.bucketSize);
  }

  lemma SenderNotFailed(cfg: Config, s: Chain)
    requires Inv(cfg, s)
    ensures !s.sender.pc.SenderFailed?
  {
  }

  lemma RankWorkIsLeft(r: Receiver, groups: seq<seq<Chunk>>, bucketSize: nat, hasNext: bool)
    requires ReceiverInv(r, groups, bucketSize, hasNext)
    ensures RankWork(r, groups, bucketSize) >= 0
  {
    RankYieldsPrefix(r, groups, bucketSize, hasNext);
    hide Flatten, CurInv, MsgInv, YieldInv, PcInv;
    ProductIsNat(|groups| - r.taken, bucketSize + 10);
  }

  lemma ProductIsNat(a: nat, b: nat)
    ensures a * b >= 0
  {
  }

  lemma {:induction false} RanksWorkIsLeft(ranks: seq<Receiver>, groups: seq<seq<Chunk>>, bucketSize: nat)
    requires forall r <- ranks :: RankWork(r, groups, bucketSize) >= 0
    ensures RanksWork(ranks, groups, bucketSize) >= 0
    decreases |ranks|
  {
    hide RankWork;
    if ranks != [] {
      RanksWorkIsLeft(ranks[..|ranks| - 1], groups, bucketSize);
    }
  }

  lemma WorkIsLeft(cfg: Config, s: Chain)
    requires Inv(cfg, s)
    ensures Work(cfg, s) >= 0
  {
    hide ReceiverInv, UpInv, Linked, RankWork;
    forall r | r in s.ranks ensures RankWork(r, cfg.Sent(), cfg.bucketSize) >= 0 {
      var i :| 0 <= i < |s.ranks| && s.ranks[i] == r;
      assert RankOk(cfg, s, i);
      RankWorkIsLeft(r, cfg.Sent(), cfg.bucketSize, i + 1 < |s.ranks|);
    }
    RanksWorkIsLeft(s.ranks, cfg.Sent(), cfg.bucketSize);
  }

  /** No run is longer than the work it started with. */
  lemma {:induction false} RunsAreBounded(cfg: Config, s: Chain, acts: seq<Action>)
    requires cfg.Valid() && |s.links| == |s.ranks| + 1 && Inv(cfg, s) && Run(cfg, s, acts).Some?
    ensures |acts| <= Work(cfg, s)
    decreases acts
  {
    hide Inv, Next, Work;
    if acts == [] {
      WorkIsLeft(cfg, s);
    } else {
      NextKeeps(cfg, s, acts[0]);
      NextWorks(cfg, s, acts[0]);
      var s' := Next(cfg, s, acts[0]).value;
      InvShape(cfg, s');
      RunsAreBounded(cfg, s', acts[1..]);
    }
  }

  lemma InvShape(cfg: Config, s: Chain)
    requires Inv(cfg, s)
    ensures |s.links| == |s.ranks| + 1
  {
  }

  /** The whole update: every run is finite, and one that cannot go on has given every rollout rank
      exactly the weights that have bytes, whatever the interleaving. */
  lemma EveryRunDelivers(weights: seq<Weight>, cfg: Config, s0: Chain, acts: seq<Action>)
    requires cfg.Valid() && cfg.chunks == Split(weights, cfg.bucketSize)
    requires Initial(cfg, s0) && Run(cfg, s0, acts).Some?
    ensures var s := Run(cfg, s0, acts).value;
            && |acts| <= Work(cfg, s0)
            && |s.links| == |s.ranks| + 1 && |s.ranks| == cfg.rollouts
            && (Stuck(cfg, s) ==> forall i :: 0 <= i < |s.ranks| ==>
                  Merge(Idle, s.ranks[i].yielded, cfg.bucketSize) == Ok(NonEmpty(weights)))
  {
    hide Next, Work, Run, RankOk, SenderInv;
    InitialIsGood(cfg, s0);
    RunsAreBounded(cfg, s0, acts);
    RunKeeps(cfg, s0, acts);
    var s := Run(cfg, s0, acts).value;
    assert ReachedBy(cfg, s0, acts, s);
    if Stuck(cfg, s) {
      NoDeadlock(cfg, s);
      BucketRoundTrip(weights, cfg.bucketSize);
      forall i | 0 <= i < |s.ranks|
        ensures Merge(Idle, s.ranks[i].yielded, cfg.bucketSize) == Ok(NonEmpty(weights))
      {
        EveryRankYieldsAPrefix(cfg, s, i);
      }
    }
  }

  /** The chain is usable for every weight list with distinct names. */
  lemma DistinctNamesStream(weights: seq<Weight>, bucketSize: nat, rollouts: nat)
    requires 0 < bucketSize && 0 < rollouts && DistinctWeightNames(weights)
    ensures Config(Split(weights, bucketSize), bucketSize, rollouts).Valid()
  {
    DistinctNamesPack(weights, bucketSize);
    SplitSizes(weights, bucketSize);
  }
}
