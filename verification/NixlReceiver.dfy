/** One rollout rank of the NIXL relay chain (verl/checkpoint_engine/nixl_checkpoint_engine.py): the
    coroutine `_receive_weight_chunks` as a program counter, the READ transfer it starts as a second
    activity that copies bytes in any order, and the two queues it shares with each neighbour. */
module NixlReceiver {
  import opened Outcomes
  import opened WeightChunks

  datatype Metadata = Metadata(metas: seq<TensorMeta>, isLast: bool)

  /** Which of a rank's two buffers. */
  datatype Side = First | Second {
    function Other(): Side { if First? then Second else First }
  }

  datatype Buffers = Buffers(first: seq<Byte>, second: seq<Byte>) {
    function At(side: Side): seq<Byte> { if side.First? then first else second }
    function Put(side: Side, data: seq<Byte>): Buffers {
      if side.First? then Buffers(data, second) else Buffers(first, data)
    }
  }

  /** A posted bucket: notify key, which of the sender's two buffers to read, and the metadata. */
  datatype Message = Message(key: nat, buf: Side, body: Metadata)

  /** Between two neighbours: metadata messages downstream, read notifications upstream. */
  datatype Link = Link(msgs: seq<Message>, notifs: seq<nat>)

  /** The READ of the next bucket; `pending` are the bytes not yet copied. */
  datatype Transfer = NotStarted | Running(pending: set<nat>) | Arrived

  datatype Pc =
    | ReadMeta            // await read_metadata
    | BeginRead
    | FirstWait           // await the very first read
    | Top                 // loop head: post the bucket to the next agent
    | Yield(k: nat)       // yield chunk k of the current bucket
    | AwaitAck            // await the next agent's read of the posted bucket
    | AwaitRead           // await the read from the previous agent
    | Done
    | Failed              // an assert of the source fired

  /** `taken` counts the buckets swapped in so far; `posts` makes notify keys unique. */
  datatype Receiver = Receiver(
    pc: Pc, bufs: Buffers, send: Side, cur: Option<Metadata>, msg: Option<Message>,
    xfer: Transfer, posts: nat, taken: nat, yielded: seq<Chunk>)

  /** What a receiver sees of its upstream neighbour. */
  datatype Up = Up(bufs: Buffers, posted: Side, posts: nat, acks: nat)

  datatype Outcome = Outcome(r: Receiver, inbound: Link, outbound: Link)

  function AllBytes(n: nat): (s: set<nat>)
    ensures |s| == n && forall k: nat :: k in s <==> k < n
  {
    if n == 0 then {} else AllBytes(n - 1) + {n - 1}
  }

  /** Swap the buffers: what was read becomes what is yielded and posted. */
  function SwapIn(r: Receiver): Receiver
    requires r.msg.Some?
  {
    r.(pc := Top, send := r.send.Other(), cur := Some(r.msg.value.body), msg := None,
       xfer := NotStarted, taken := r.taken + 1)
  }

  /** The next step of the coroutine, unless it has to wait. */
  function Control(r: Receiver, hasNext: bool, inbound: Link, outbound: Link): Option<Outcome> {
    match r.pc
    case ReadMeta =>
      if inbound.msgs == [] then None
      else Some(Outcome(r.(pc := BeginRead, msg := Some(inbound.msgs[0])),
                        inbound.(msgs := inbound.msgs[1..]), outbound))
    case BeginRead =>
      if r.msg.None? then Some(Outcome(r.(pc := Failed), inbound, outbound))
      else Some(Outcome(r.(xfer := Running(AllBytes(|r.bufs.At(r.send.Other())|)),
                           pc := if r.cur.None? then FirstWait else Yield(0)), inbound, outbound))
    case FirstWait =>
      if r.xfer.Arrived? && r.msg.Some?
      then Some(Outcome(SwapIn(r), inbound, outbound)) else None
    case Top =>
      if r.cur.None? then Some(Outcome(r.(pc := Failed), inbound, outbound))
      else
        var pc' := if r.cur.value.isLast then Yield(0) else ReadMeta;
        if hasNext
        then Some(Outcome(r.(pc := pc', posts := r.posts + 1), inbound,
                          outbound.(msgs := outbound.msgs + [Message(r.posts, r.send, r.cur.value)])))
        else Some(Outcome(r.(pc := pc'), inbound, outbound))
    case Yield(k) =>
      if r.cur.None? then Some(Outcome(r.(pc := Failed), inbound, outbound))
      else if k >= |r.cur.value.metas| then Some(Outcome(r.(pc := AwaitAck), inbound, outbound))
      else
        var m, buf := r.cur.value.metas[k], r.bufs.At(r.send);
        if m.offset.None? || m.offset.value + m.chunkSize > |buf|
        then Some(Outcome(r.(pc := Failed), inbound, outbound))
        else Some(Outcome(
          r.(pc := Yield(k + 1),
             yielded := r.yielded + [Chunk(m, buf[m.offset.value..m.offset.value + m.chunkSize])]),
          inbound, outbound))
    case AwaitAck =>
      if r.cur.None? then Some(Outcome(r.(pc := Failed), inbound, outbound))
      else
        var pc' := if r.cur.value.isLast then Done else AwaitRead;
        if !hasNext then Some(Outcome(r.(pc := pc'), inbound, outbound))
        else if outbound.notifs == [] then None
        else Some(Outcome(r.(pc := if outbound.notifs[0] + 1 == r.posts then pc' else Failed),
                          inbound, outbound.(notifs := outbound.notifs[1..])))
    case AwaitRead =>
      if r.xfer.Arrived? && r.msg.Some?
      then Some(Outcome(SwapIn(r), inbound, outbound)) else None
    case Done => None
    case Failed => None
  }

  /** The transfer copies byte `k` from the remote buffer into the receive buffer. */
  function CopyByte(r: Receiver, k: nat, remote: Buffers): Option<Receiver> {
    if r.xfer.Running? && k in r.xfer.pending && r.msg.Some?
       && k < |remote.At(r.msg.value.buf)| && k < |r.bufs.At(r.send.Other())|
    then Some(r.(bufs := r.bufs.Put(r.send.Other(), r.bufs.At(r.send.Other())[k := remote.At(r.msg.value.buf)[k]]),
                 xfer := Running(r.xfer.pending - {k})))
    else None
  }

  /** The transfer ends: the reader sees DONE and the remote agent gets the notify key. */
  function Complete(r: Receiver, inbound: Link): Option<(Receiver, Link)> {
    if r.xfer.Running? && r.xfer.pending == {} && r.msg.Some?
    then Some((r.(xfer := Arrived), inbound.(notifs := inbound.notifs + [r.msg.value.key])))
    else None
  }

  // ---------------------------------------------------------------- counters

  /** Buckets posted to the next agent, and acknowledged by it. */
  function Posts(r: Receiver): nat {
    if r.pc.Top? && r.taken > 0 then r.taken - 1 else r.taken
  }

  function Acks(r: Receiver): nat {
    if r.pc.AwaitRead? || r.pc.Done? || r.taken == 0 then r.taken else r.taken - 1
  }

  /** Metadata messages consumed, and reads completed. */
  function MetaReads(r: Receiver): nat {
    if r.pc.BeginRead? || !r.xfer.NotStarted? then r.taken + 1 else r.taken
  }

  function Reads(r: Receiver): nat {
    if r.xfer.Arrived? then r.taken + 1 else r.taken
  }

  function UpOf(r: Receiver): Up { Up(r.bufs, r.send, Posts(r), Acks(r)) }

  // ---------------------------------------------------------------- invariants

  function MetadataOf(groups: seq<seq<Chunk>>, n: nat): Metadata
    requires n < |groups|
  {
    Metadata(Metas(groups[n]), n == |groups| - 1)
  }

  /** Two buffers of the bucket size. */
  ghost predicate TwoBuffers(bufs: Buffers, bucketSize: nat) {
    |bufs.first| == |bufs.second| == bucketSize
  }

  /** What has been yielded after `n` whole buckets and `k` chunks of the next. */
  function YieldedAt(groups: seq<seq<Chunk>>, n: nat, k: nat): seq<Chunk>
    requires n <= |groups| && (n < |groups| || k == 0) && (n < |groups| ==> k <= |groups[n]|)
  {
    Flatten(groups[..n]) + (if n < |groups| then groups[n][..k] else [])
  }

  ghost predicate PcInv(r: Receiver, groups: seq<seq<Chunk>>) {
    match r.pc
    case ReadMeta => r.taken < |groups| && r.xfer.NotStarted?
    case BeginRead => r.taken < |groups| && r.xfer.NotStarted? && r.msg.Some?
    case FirstWait => r.taken == 0 && !r.xfer.NotStarted?
    case Top => r.taken >= 1 && r.xfer.NotStarted?
    case Yield(k) => 1 <= r.taken <= |groups| && k <= |groups[r.taken - 1]| && (r.xfer.NotStarted? <==> r.taken == |groups|)
    case AwaitAck => r.taken >= 1 && (r.xfer.NotStarted? <==> r.taken == |groups|)
    case AwaitRead => 1 <= r.taken < |groups| && !r.xfer.NotStarted?
    case Done => r.taken == |groups| && r.xfer.NotStarted?
    case Failed => false
  }

  /** The current bucket is intact in the send buffer, and the metadata names it. */
  ghost predicate CurInv(r: Receiver, groups: seq<seq<Chunk>>)
    requires r.taken <= |groups|
  {
    if r.taken == 0 then r.cur == None
    else r.cur == Some(MetadataOf(groups, r.taken - 1)) && Holds(r.bufs.At(r.send), groups[r.taken - 1])
  }

  ghost predicate MsgInv(r: Receiver, groups: seq<seq<Chunk>>) {
    MetaReads(r) == r.taken + 1 ==>
      && r.taken < |groups|
      && r.msg.Some? && r.msg.value.key == r.taken && r.msg.value.body == MetadataOf(groups, r.taken)
  }

  ghost predicate YieldInv(r: Receiver, groups: seq<seq<Chunk>>)
    requires r.taken <= |groups| && PcInv(r, groups)
  {
    r.yielded ==
      if r.pc.Yield? then YieldedAt(groups, r.taken - 1, r.pc.k)
      else if r.pc.AwaitAck? || r.pc.AwaitRead? || r.pc.Done? || r.taken == 0 then YieldedAt(groups, r.taken, 0)
      else YieldedAt(groups, r.taken - 1, 0)
  }

  ghost predicate ReceiverInv(r: Receiver, groups: seq<seq<Chunk>>, bucketSize: nat, hasNext: bool) {
    && TwoBuffers(r.bufs, bucketSize) && r.taken <= |groups|
    && PcInv(r, groups) && CurInv(r, groups) && MsgInv(r, groups)
    && (r.xfer.Arrived? ==> Holds(r.bufs.At(r.send.Other()), groups[r.taken]))
    && r.posts == (if hasNext then Posts(r) else 0)
    && YieldInv(r, groups)
  }

  /** Upstream: at most one posted bucket is unacknowledged, and it is intact in its buffer. */
  ghost predicate UpInv(up: Up, groups: seq<seq<Chunk>>, bucketSize: nat) {
    && TwoBuffers(up.bufs, bucketSize)
    && up.acks <= up.posts <= up.acks + 1 && up.posts <= |groups|
    && (up.acks < up.posts ==> Holds(up.bufs.At(up.posted), groups[up.posts - 1]))
  }

  /** Two neighbours and the queues between them agree on every bucket. */
  ghost predicate Linked(up: Up, l: Link, r: Receiver, groups: seq<seq<Chunk>>)
    requires up.posts <= |groups|
    requires |up.bufs.At(up.posted)| == |r.bufs.At(r.send.Other())|
  {
    && up.posts == MetaReads(r) + |l.msgs|
    && Reads(r) == up.acks + |l.notifs|
    && (forall j :: 0 <= j < |l.msgs| ==>
         l.msgs[j] == Message(MetaReads(r) + j, up.posted, MetadataOf(groups, MetaReads(r) + j)))
    && (forall j :: 0 <= j < |l.notifs| ==> l.notifs[j] == up.acks + j)
    && (MetaReads(r) > Reads(r) ==> r.msg.Some? && r.msg.value.buf == up.posted)
    && (r.xfer.Running? ==> Copied(r.bufs.At(r.send.Other()), up.bufs.At(up.posted), r.xfer.pending))
  }

  ghost predicate Copied(dst: seq<Byte>, src: seq<Byte>, pending: set<nat>)
    requires |dst| == |src|
  {
    && (forall k <- pending :: k < |dst|)
    && (forall k: nat :: k < |dst| && k !in pending ==> dst[k] == src[k])
  }

  // ---------------------------------------------------------------- preservation

  lemma ReceiverIsGoodUpstream(r: Receiver, groups: seq<seq<Chunk>>, bucketSize: nat, hasNext: bool)
    requires ReceiverInv(r, groups, bucketSize, hasNext)
    ensures UpInv(UpOf(r), groups, bucketSize)
  {
  }

  lemma YieldMore(groups: seq<seq<Chunk>>, n: nat, k: nat)
    requires n < |groups| && k < |groups[n]|
    ensures YieldedAt(groups, n, k + 1) == YieldedAt(groups, n, k) + [groups[n][k]]
  {
    assert groups[n][..k + 1] == groups[n][..k] + [groups[n][k]];
    assert Flatten(groups[..n]) + (groups[n][..k] + [groups[n][k]])
        == Flatten(groups[..n]) + groups[n][..k] + [groups[n][k]];
  }

  lemma YieldWhole(groups: seq<seq<Chunk>>, n: nat)
    requires n < |groups|
    ensures YieldedAt(groups, n, |groups[n]|) == YieldedAt(groups, n + 1, 0)
  {
    assert groups[..n + 1][..n] == groups[..n];
    assert groups[n][..|groups[n]|] == groups[n];
  }

  /** A rank with its upstream neighbour and, unless it is the last, its downstream one. */
  ghost predicate Around(up: Up, inbound: Link, r: Receiver, outbound: Link, next: Option<Receiver>,
                         groups: seq<seq<Chunk>>, bucketSize: nat)
  {
    && UpInv(up, groups, bucketSize)
    && ReceiverInv(r, groups, bucketSize, next.Some?) && Linked(up, inbound, r, groups)
    && (next.Some? ==>
        && TwoBuffers(next.value.bufs, bucketSize)
        && Linked(UpOf(r), outbound, next.value, groups))
  }

  /** Once the read has arrived and nothing is posted, the buffers may be swapped. */
  lemma SwapInKeepsRank(r: Receiver, groups: seq<seq<Chunk>>, bucketSize: nat, hasNext: bool)
    requires ReceiverInv(r, groups, bucketSize, hasNext)
    requires (r.pc.FirstWait? || r.pc.AwaitRead?) && r.xfer.Arrived?
    ensures ReceiverInv(SwapIn(r), groups, bucketSize, hasNext)
    ensures MetaReads(SwapIn(r)) == MetaReads(r) && Reads(SwapIn(r)) == Reads(r)
    ensures Posts(SwapIn(r)) == Posts(r) == r.taken && Acks(SwapIn(r)) == Acks(r) == r.taken
  {
  }

  lemma KeepsReadMeta(up: Up, inbound: Link, r: Receiver, outbound: Link, next: Option<Receiver>,
                groups: seq<seq<Chunk>>, bucketSize: nat)
    requires Around(up, inbound, r, outbound, next, groups, bucketSize) && r.pc.ReadMeta?
    requires Control(r, next.Some?, inbound, outbound).Some?
    ensures var o := Control(r, next.Some?, inbound, outbound).value;
            Around(up, o.inbound, o.r, o.outbound, next, groups, bucketSize)
  {
  }

  lemma KeepsBeginRead(up: Up, inbound: Link, r: Receiver, outbound: Link, next: Option<Receiver>,
                groups: seq<seq<Chunk>>, bucketSize: nat)
    requires Around(up, inbound, r, outbound, next, groups, bucketSize) && r.pc.BeginRead?
    requires Control(r, next.Some?, inbound, outbound).Some?
    ensures var o := Control(r, next.Some?, inbound, outbound).value;
            Around(up, o.inbound, o.r, o.outbound, next, groups, bucketSize)
  {
  }

  lemma KeepsFirstWait(up: Up, inbound: Link, r: Receiver, outbound: Link, next: Option<Receiver>,
                groups: seq<seq<Chunk>>, bucketSize: nat)
    requires Around(up, inbound, r, outbound, next, groups, bucketSize) && r.pc.FirstWait?
    requires Control(r, next.Some?, inbound, outbound).Some?
    ensures var o := Control(r, next.Some?, inbound, outbound).value;
            Around(up, o.inbound, o.r, o.outbound, next, groups, bucketSize)
  {
    hide YieldedAt, Holds, MetadataOf, Copied;
    SwapInKeepsRank(r, groups, bucketSize, next.Some?);
  }

  lemma KeepsTop(up: Up, inbound: Link, r: Receiver, outbound: Link, next: Option<Receiver>,
                groups: seq<seq<Chunk>>, bucketSize: nat)
    requires Around(up, inbound, r, outbound, next, groups, bucketSize) && r.pc.Top?
    requires Control(r, next.Some?, inbound, outbound).Some?
    ensures var o := Control(r, next.Some?, inbound, outbound).value;
            Around(up, o.inbound, o.r, o.outbound, next, groups, bucketSize)
  {
  }

  /** Yielding touches neither buffers nor counters. */
  lemma YieldKeepsLinks(up: Up, inbound: Link, r: Receiver, r': Receiver, groups: seq<seq<Chunk>>, bucketSize: nat)
    requires UpInv(up, groups, bucketSize) && TwoBuffers(r.bufs, bucketSize)
    requires r.pc.Yield? && Linked(up, inbound, r, groups)
    requires (r'.pc.Yield? || r'.pc.AwaitAck?) && r' == r.(pc := r'.pc, yielded := r'.yielded)
    ensures Linked(up, inbound, r', groups) && UpOf(r') == UpOf(r)
  {
  }

  lemma YieldKeepsRank(r: Receiver, groups: seq<seq<Chunk>>, bucketSize: nat, hasNext: bool, inbound: Link, outbound: Link)
    requires ReceiverInv(r, groups, bucketSize, hasNext) && r.pc.Yield?
    ensures var o := Control(r, hasNext, inbound, outbound);
            && o.Some? && o.value.inbound == inbound && o.value.outbound == outbound
            && (o.value.r.pc.Yield? || o.value.r.pc.AwaitAck?)
            && o.value.r == r.(pc := o.value.r.pc, yielded := o.value.r.yielded)
            && ReceiverInv(o.value.r, groups, bucketSize, hasNext)
  {
    if r.pc.k < |groups[r.taken - 1]| {
      YieldChunkKeepsRank(r, groups, bucketSize, hasNext, inbound, outbound);
    } else {
      YieldEndKeepsRank(r, groups, bucketSize, hasNext, inbound, outbound);
    }
  }

  lemma YieldEndKeepsRank(r: Receiver, groups: seq<seq<Chunk>>, bucketSize: nat, hasNext: bool, inbound: Link, outbound: Link)
    requires ReceiverInv(r, groups, bucketSize, hasNext) && r.pc.Yield? && r.pc.k == |groups[r.taken - 1]|
    ensures var r' := r.(pc := AwaitAck);
            && Control(r, hasNext, inbound, outbound) == Some(Outcome(r', inbound, outbound))
            && ReceiverInv(r', groups, bucketSize, hasNext)
  {
    YieldWhole(groups, r.taken - 1);
    hide YieldedAt, Holds, MetadataOf, TwoBuffers;
  }

  lemma YieldChunkKeepsRank(r: Receiver, groups: seq<seq<Chunk>>, bucketSize: nat, hasNext: bool, inbound: Link, outbound: Link)
    requires ReceiverInv(r, groups, bucketSize, hasNext) && r.pc.Yield? && r.pc.k < |groups[r.taken - 1]|
    ensures var k := r.pc.k;
            var r' := r.(pc := Yield(k + 1), yielded := r.yielded + [groups[r.taken - 1][k]]);
            && Control(r, hasNext, inbound, outbound) == Some(Outcome(r', inbound, outbound))
            && ReceiverInv(r', groups, bucketSize, hasNext)
  {
    var k, g := r.pc.k, groups[r.taken - 1];
    assert Held(r.bufs.At(r.send), g[k]);
    assert r.cur.value.metas[k] == g[k].meta;
    assert Chunk(g[k].meta, g[k].data) == g[k];
    YieldMore(groups, r.taken - 1, k);
  }

  lemma KeepsYield(up: Up, inbound: Link, r: Receiver, outbound: Link, next: Option<Receiver>,
                groups: seq<seq<Chunk>>, bucketSize: nat)
    requires Around(up, inbound, r, outbound, next, groups, bucketSize) && r.pc.Yield?
    ensures var o := Control(r, next.Some?, inbound, outbound);
            o.Some? && Around(up, o.value.inbound, o.value.r, o.value.outbound, next, groups, bucketSize)
  {
    YieldKeepsRank(r, groups, bucketSize, next.Some?, inbound, outbound);
    YieldKeepsLinks(up, inbound, r, Control(r, next.Some?, inbound, outbound).value.r, groups, bucketSize);
  }

  lemma KeepsAwaitAck(up: Up, inbound: Link, r: Receiver, outbound: Link, next: Option<Receiver>,
                groups: seq<seq<Chunk>>, bucketSize: nat)
    requires Around(up, inbound, r, outbound, next, groups, bucketSize) && r.pc.AwaitAck?
    requires Control(r, next.Some?, inbound, outbound).Some?
    ensures var o := Control(r, next.Some?, inbound, outbound).value;
            Around(up, o.inbound, o.r, o.outbound, next, groups, bucketSize)
  {
  }

  lemma KeepsAwaitRead(up: Up, inbound: Link, r: Receiver, outbound: Link, next: Option<Receiver>,
                groups: seq<seq<Chunk>>, bucketSize: nat)
    requires Around(up, inbound, r, outbound, next, groups, bucketSize) && r.pc.AwaitRead?
    requires Control(r, next.Some?, inbound, outbound).Some?
    ensures var o := Control(r, next.Some?, inbound, outbound).value;
            Around(up, o.inbound, o.r, o.outbound, next, groups, bucketSize)
  {
    hide YieldedAt, Holds, MetadataOf, Copied;
    SwapInKeepsRank(r, groups, bucketSize, next.Some?);
  }

  /** Any step of the coroutine keeps the rank's own invariant and both links. */
  lemma ControlKeeps(up: Up, inbound: Link, r: Receiver, outbound: Link, next: Option<Receiver>,
                     groups: seq<seq<Chunk>>, bucketSize: nat)
    requires Around(up, inbound, r, outbound, next, groups, bucketSize)
    requires Control(r, next.Some?, inbound, outbound).Some?
    ensures var o := Control(r, next.Some?, inbound, outbound).value;
            Around(up, o.inbound, o.r, o.outbound, next, groups, bucketSize)
  {
    match r.pc
    case ReadMeta => KeepsReadMeta(up, inbound, r, outbound, next, groups, bucketSize);
    case BeginRead => KeepsBeginRead(up, inbound, r, outbound, next, groups, bucketSize);
    case FirstWait => KeepsFirstWait(up, inbound, r, outbound, next, groups, bucketSize);
    case Top => KeepsTop(up, inbound, r, outbound, next, groups, bucketSize);
    case Yield(_) => KeepsYield(up, inbound, r, outbound, next, groups, bucketSize);
    case AwaitAck => KeepsAwaitAck(up, inbound, r, outbound, next, groups, bucketSize);
    case AwaitRead => KeepsAwaitRead(up, inbound, r, outbound, next, groups, bucketSize);
  }

  lemma CopyKeeps(up: Up, inbound: Link, r: Receiver, k: nat, groups: seq<seq<Chunk>>, bucketSize: nat, hasNext: bool)
    requires UpInv(up, groups, bucketSize)
    requires ReceiverInv(r, groups, bucketSize, hasNext) && Linked(up, inbound, r, groups)
    requires CopyByte(r, k, up.bufs).Some?
    ensures var r' := CopyByte(r, k, up.bufs).value;
            && ReceiverInv(r', groups, bucketSize, hasNext) && Linked(up, inbound, r', groups)
            && r'.bufs.At(r.send) == r.bufs.At(r.send) && UpOf(r') == UpOf(r).(bufs := r'.bufs)
  {
    var r' := CopyByte(r, k, up.bufs).value;
    var dst' := r.bufs.At(r.send.Other())[k := up.bufs.At(up.posted)[k]];
    assert r' == r.(bufs := r.bufs.Put(r.send.Other(), dst'), xfer := Running(r.xfer.pending - {k}));
    CopyMore(r.bufs.At(r.send.Other()), up.bufs.At(up.posted), r.xfer.pending, k);
    WritingRecvKeepsRank(r, dst', r.xfer.pending - {k}, groups, bucketSize, hasNext);
  }

  /** Writing the receive buffer while a transfer runs disturbs nothing the rank relies on. */
  lemma WritingRecvKeepsRank(r: Receiver, dst: seq<Byte>, pending: set<nat>,
                             groups: seq<seq<Chunk>>, bucketSize: nat, hasNext: bool)
    requires ReceiverInv(r, groups, bucketSize, hasNext) && r.xfer.Running? && |dst| == bucketSize
    ensures ReceiverInv(r.(bufs := r.bufs.Put(r.send.Other(), dst), xfer := Running(pending)), groups, bucketSize, hasNext)
  {
  }

  lemma CopyMore(dst: seq<Byte>, src: seq<Byte>, pending: set<nat>, k: nat)
    requires |dst| == |src| && Copied(dst, src, pending) && k in pending
    ensures Copied(dst[k := src[k]], src, pending - {k})
  {
  }

  lemma CompleteKeeps(up: Up, inbound: Link, r: Receiver, groups: seq<seq<Chunk>>, bucketSize: nat, hasNext: bool)
    requires UpInv(up, groups, bucketSize)
    requires ReceiverInv(r, groups, bucketSize, hasNext) && Linked(up, inbound, r, groups)
    requires Complete(r, inbound).Some?
    ensures var (r', inbound') := Complete(r, inbound).value;
            && ReceiverInv(r', groups, bucketSize, hasNext) && Linked(up, inbound', r', groups)
            && UpOf(r') == UpOf(r)
  {
    assert r.bufs.At(r.send.Other()) == up.bufs.At(up.posted);
  }
}
