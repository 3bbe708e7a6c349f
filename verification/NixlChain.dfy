/** The whole NIXL relay chain: rank 0, the rollout ranks behind it, the links between neighbours, and
    every interleaving of their coroutines with the READ transfers copying single bytes. */
module NixlChain {
  import opened Outcomes
  import opened WeightChunks
  import opened NixlReceiver
  import opened NixlSender

  /** Element i of `links` is the link into rollout rank i; the last one leads nowhere. */
  datatype Chain = Chain(sender: Sender, ranks: seq<Receiver>, links: seq<Link>)

  datatype Config = Config(chunks: seq<Chunk>, bucketSize: nat, rollouts: nat) {
    ghost predicate Valid() {
      0 < bucketSize && 0 < rollouts && Streamable(chunks, bucketSize)
    }
    function Sent(): seq<seq<Chunk>> { Groups(chunks, bucketSize) }
  }

  datatype Action =
    | SenderAct
    | RankAct(i: nat)
    | CopyAct(i: nat, k: nat)
    | CompleteAct(i: nat)

  ghost predicate Initial(cfg: Config, s: Chain) {
    && TwoBuffers(s.sender.bufs, cfg.bucketSize)
    && s.sender == Sender(NextChunk, s.sender.bufs, First, 0, [], 0, 0, 0)
    && |s.ranks| == cfg.rollouts && |s.links| == cfg.rollouts + 1
    && (forall i :: 0 <= i < |s.ranks| ==>
         && TwoBuffers(s.ranks[i].bufs, cfg.bucketSize)
         && s.ranks[i] == Receiver(ReadMeta, s.ranks[i].bufs, First, None, None, NotStarted, 0, 0, []))
    && (forall i :: 0 <= i < |s.links| ==> s.links[i] == Link([], []))
  }

  function BufsBefore(s: Chain, i: nat): Buffers
    requires i < |s.ranks|
  {
    if i == 0 then s.sender.bufs else s.ranks[i - 1].bufs
  }

  function Next(cfg: Config, s: Chain, a: Action): Option<Chain>
    requires |s.links| == |s.ranks| + 1
  {
    match a
    case SenderAct =>
      (match SendStep(s.sender, cfg.chunks, s.links[0])
       case None => None
       case Some((sender, outbound)) => Some(s.(sender := sender, links := s.links[0 := outbound])))
    case RankAct(i) =>
      if i >= |s.ranks| then None
      else
        (match Control(s.ranks[i], i + 1 < |s.ranks|, s.links[i], s.links[i + 1])
         case None => None
         case Some(o) => Some(s.(ranks := s.ranks[i := o.r], links := s.links[i := o.inbound][i + 1 := o.outbound])))
    case CopyAct(i, k) =>
      if i >= |s.ranks| then None
      else
        (match CopyByte(s.ranks[i], k, BufsBefore(s, i))
         case None => None
         case Some(r) => Some(s.(ranks := s.ranks[i := r])))
    case CompleteAct(i) =>
      if i >= |s.ranks| then None
      else
        (match Complete(s.ranks[i], s.links[i])
         case None => None
         case Some((r, inbound)) => Some(s.(ranks := s.ranks[i := r], links := s.links[i := inbound])))
  }

  /** The state after a run, if every one of its actions was enabled. */
  function Run(cfg: Config, s: Chain, acts: seq<Action>): Option<Chain>
    requires |s.links| == |s.ranks| + 1
    decreases acts
  {
    if acts == [] then Some(s)
    else
      match Next(cfg, s, acts[0])
      case None => None
      case Some(s') => Run(cfg, s', acts[1..])
  }

  // ---------------------------------------------------------------- the invariant

  function UpAt(s: Chain, i: nat): Up
    requires i < |s.ranks|
  {
    if i == 0 then UpOfSender(s.sender) else UpOf(s.ranks[i - 1])
  }

  /** A rank, what is upstream of it, and the link between them. */
  ghost predicate Placed(up: Up, inbound: Link, r: Receiver, groups: seq<seq<Chunk>>, bucketSize: nat, hasNext: bool) {
    && UpInv(up, groups, bucketSize)
    && ReceiverInv(r, groups, bucketSize, hasNext)
    && Linked(up, inbound, r, groups)
  }

  ghost predicate RankOk(cfg: Config, s: Chain, i: nat)
    requires |s.links| == |s.ranks| + 1 && i < |s.ranks|
  {
    Placed(UpAt(s, i), s.links[i], s.ranks[i], cfg.Sent(), cfg.bucketSize, i + 1 < |s.ranks|)
  }

  ghost predicate Inv(cfg: Config, s: Chain) {
    && |s.ranks| == cfg.rollouts && |s.links| == |s.ranks| + 1 && 0 < |s.ranks|
    && SenderInv(s.sender, s.links[0], s.ranks[0], cfg.chunks, cfg.bucketSize)
    && forall i :: 0 <= i < |s.ranks| ==> RankOk(cfg, s, i)
  }

  lemma InitialIsGood(cfg: Config, s: Chain)
    requires cfg.Valid() && Initial(cfg, s)
    ensures Inv(cfg, s)
  {
    assert cfg.chunks[..0] == [];
    assert cfg.Sent()[..0] == [];
    forall i | 0 <= i < |s.ranks| ensures RankOk(cfg, s, i) {
    }
  }

  lemma SenderActKeeps(cfg: Config, s: Chain)
    requires cfg.Valid() && Inv(cfg, s) && Next(cfg, s, SenderAct).Some?
    ensures Inv(cfg, Next(cfg, s, SenderAct).value)
  {
    var s' := Next(cfg, s, SenderAct).value;
    SenderKeeps(s.sender, s.links[0], s.ranks[0], cfg.chunks, cfg.bucketSize);
    forall i | 0 <= i < |s'.ranks| ensures RankOk(cfg, s', i) {
      assert RankOk(cfg, s, i);
    }
  }

  /** What remains true of the sender when its neighbour or their link changes. */
  lemma SenderUnmoved(cfg: Config, s: Chain, l: Link, r: Receiver)
    requires |s.links| == |s.ranks| + 1 && 0 < |s.ranks|
    requires SenderInv(s.sender, s.links[0], s.ranks[0], cfg.chunks, cfg.bucketSize)
    requires Placed(UpOfSender(s.sender), l, r, cfg.Sent(), cfg.bucketSize, 1 < |s.ranks|)
    ensures SenderInv(s.sender, l, r, cfg.chunks, cfg.bucketSize)
  {
  }

  function NextOf(s: Chain, i: nat): Option<Receiver> {
    if i + 1 < |s.ranks| then Some(s.ranks[i + 1]) else None
  }

  function ReplaceRank(s: Chain, i: nat, inbound: Link, r: Receiver, outbound: Link): Chain
    requires |s.links| == |s.ranks| + 1 && i < |s.ranks|
  {
    s.(ranks := s.ranks[i := r], links := s.links[i := inbound][i + 1 := outbound])
  }

  /** A rank may change together with its two links, as long as both neighbours still fit. */
  lemma ReplaceRankKeeps(cfg: Config, s: Chain, i: nat, inbound: Link, r: Receiver, outbound: Link)
    requires Inv(cfg, s) && i < |s.ranks|
    requires Around(UpAt(s, i), inbound, r, outbound, NextOf(s, i), cfg.Sent(), cfg.bucketSize)
    ensures Inv(cfg, ReplaceRank(s, i, inbound, r, outbound))
  {
    hide UpInv, ReceiverInv, Linked, SenderInv;
    var s' := ReplaceRank(s, i, inbound, r, outbound);
    ReceiverIsGoodUpstream(r, cfg.Sent(), cfg.bucketSize, i + 1 < |s.ranks|);
    forall j | 0 <= j < |s'.ranks| ensures RankOk(cfg, s', j) {
      assert RankOk(cfg, s, j);
      if j == i + 1 {
        assert UpAt(s', j) == UpOf(r) && s'.links[j] == outbound && s'.ranks[j] == s.ranks[j];
      } else {
        assert UpAt(s', j) == UpAt(s, j);
        assert j != i ==> s'.links[j] == s.links[j] && s'.ranks[j] == s.ranks[j];
        assert j == i ==> s'.links[j] == inbound && s'.ranks[j] == r;
      }
    }
    assert RankOk(cfg, s', 0);
    SenderUnmoved(cfg, s, s'.links[0], s'.ranks[0]);
  }

  lemma AroundRank(cfg: Config, s: Chain, i: nat)
    requires Inv(cfg, s) && i < |s.ranks|
    ensures Around(UpAt(s, i), s.links[i], s.ranks[i], s.links[i + 1], NextOf(s, i), cfg.Sent(), cfg.bucketSize)
  {
    assert RankOk(cfg, s, i);
    if i + 1 < |s.ranks| {
      assert RankOk(cfg, s, i + 1);
    }
  }

  lemma RankActKeeps(cfg: Config, s: Chain, i: nat)
    requires Inv(cfg, s) && |s.links| == |s.ranks| + 1 && Next(cfg, s, RankAct(i)).Some?
    ensures Inv(cfg, Next(cfg, s, RankAct(i)).value)
  {
    hide Around, Inv, Control;
    AroundRank(cfg, s, i);
    ControlKeeps(UpAt(s, i), s.links[i], s.ranks[i], s.links[i + 1], NextOf(s, i), cfg.Sent(), cfg.bucketSize);
    var o := Control(s.ranks[i], i + 1 < |s.ranks|, s.links[i], s.links[i + 1]).value;
    ReplaceRankKeeps(cfg, s, i, o.inbound, o.r, o.outbound);
  }

  /** Downstream depends on the posted buffer alone. */
  lemma LinkReadsPostedOnly(up: Up, up': Up, l: Link, r: Receiver, groups: seq<seq<Chunk>>, bucketSize: nat)
    requires TwoBuffers(r.bufs, bucketSize) && UpInv(up, groups, bucketSize)
    requires Linked(up, l, r, groups)
    requires up' == up.(bufs := up'.bufs) && up'.bufs.At(up.posted) == up.bufs.At(up.posted)
    ensures Linked(up', l, r, groups)
  {
  }

  lemma CopyActKeeps(cfg: Config, s: Chain, i: nat, k: nat)
    requires Inv(cfg, s) && |s.links| == |s.ranks| + 1 && Next(cfg, s, CopyAct(i, k)).Some?
    ensures Inv(cfg, Next(cfg, s, CopyAct(i, k)).value)
  {
    hide Inv, CopyByte, UpInv, ReceiverInv, Linked;
    AroundRank(cfg, s, i);
    CopyKeeps(UpAt(s, i), s.links[i], s.ranks[i], k, cfg.Sent(), cfg.bucketSize, i + 1 < |s.ranks|);
    var r := CopyByte(s.ranks[i], k, BufsBefore(s, i)).value;
    assert s.links[i := s.links[i]][i + 1 := s.links[i + 1]] == s.links;
    if i + 1 < |s.ranks| {
      ReceiverIsGoodUpstream(s.ranks[i], cfg.Sent(), cfg.bucketSize, true);
      LinkReadsPostedOnly(UpOf(s.ranks[i]), UpOf(r), s.links[i + 1], s.ranks[i + 1], cfg.Sent(), cfg.bucketSize);
    }
    ReplaceRankKeeps(cfg, s, i, s.links[i], r, s.links[i + 1]);
  }

  lemma CompleteActKeeps(cfg: Config, s: Chain, i: nat)
    requires Inv(cfg, s) && |s.links| == |s.ranks| + 1 && Next(cfg, s, CompleteAct(i)).Some?
    ensures Inv(cfg, Next(cfg, s, CompleteAct(i)).value)
  {
    hide Inv, Complete, UpInv, ReceiverInv, Linked;
    AroundRank(cfg, s, i);
    CompleteKeeps(UpAt(s, i), s.links[i], s.ranks[i], cfg.Sent(), cfg.bucketSize, i + 1 < |s.ranks|);
    var (r, inbound) := Complete(s.ranks[i], s.links[i]).value;
    assert s.links[i := inbound][i + 1 := s.links[i + 1]] == s.links[i := inbound];
    ReplaceRankKeeps(cfg, s, i, inbound, r, s.links[i + 1]);
  }

  /** Every action of every participant keeps the invariant. */
  lemma NextKeeps(cfg: Config, s: Chain, a: Action)
    requires cfg.Valid() && Inv(cfg, s) && Next(cfg, s, a).Some?
    ensures Inv(cfg, Next(cfg, s, a).value)
  {
    match a
    case SenderAct => SenderActKeeps(cfg, s);
    case RankAct(i) => RankActKeeps(cfg, s, i);
    case CopyAct(i, k) => CopyActKeeps(cfg, s, i, k);
    case CompleteAct(i) => CompleteActKeeps(cfg, s, i);
  }

  lemma {:induction false} RunKeeps(cfg: Config, s: Chain, acts: seq<Action>)
    requires cfg.Valid() && Inv(cfg, s) && Run(cfg, s, acts).Some?
    ensures Inv(cfg, Run(cfg, s, acts).value)
    decreases acts
  {
    if acts != [] {
      NextKeeps(cfg, s, acts[0]);
      RunKeeps(cfg, Next(cfg, s, acts[0]).value, acts[1..]);
    }
  }
}
