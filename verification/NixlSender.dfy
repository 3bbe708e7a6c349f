/** Rank 0 of the NIXL relay chain: the packing loop of `send_weights` as a program counter. */
module NixlSender {
  import opened Outcomes
  import opened WeightChunks
  import opened BucketLayout
  import opened NixlReceiver

  datatype SenderPc =
    | NextChunk
    | FlushWait        // bucket full: await the previous read
    | FlushPost
    | PutChunk
    | FinalWait
    | FinalPost
    | FinalAck
    | SenderDone
    | SenderFailed     // an assert of the source fired

  /** `next` chunks have been packed, `posts` buckets handed over, `acks` of them acknowledged. */
  datatype Sender = Sender(
    pc: SenderPc, bufs: Buffers, send: Side, next: nat, metas: seq<TensorMeta>, offset: nat,
    posts: nat, acks: nat)

  function Write(buf: seq<Byte>, offset: nat, data: seq<Byte>): seq<Byte>
    requires offset + |data| <= |buf|
  {
    buf[..offset] + data + buf[offset + |data|..]
  }

  predicate NameTaken(metas: seq<TensorMeta>, name: string) { exists m <- metas :: m.name == name }

  /** Awaits the notification of the last post, if there was one. */
  function AwaitLast(s: Sender, then_: SenderPc, outbound: Link): Option<(Sender, Link)> {
    if s.posts == 0 then Some((s.(pc := then_), outbound))
    else if outbound.notifs == [] then None
    else if outbound.notifs[0] + 1 == s.posts
    then Some((s.(pc := then_, acks := s.acks + 1), outbound.(notifs := outbound.notifs[1..])))
    else Some((s.(pc := SenderFailed), outbound))
  }

  function PostBucket(s: Sender, isLast: bool, outbound: Link): Link {
    outbound.(msgs := outbound.msgs + [Message(s.posts, s.send, Metadata(s.metas, isLast))])
  }

  /** The next step of the packing loop, unless it has to wait. */
  function SendStep(s: Sender, chunks: seq<Chunk>, outbound: Link): Option<(Sender, Link)> {
    match s.pc
    case NextChunk =>
      if s.next >= |chunks| then Some((s.(pc := FinalWait), outbound))
      else if s.offset + chunks[s.next].meta.chunkSize > |s.bufs.At(s.send)|
      then Some((s.(pc := FlushWait), outbound))
      else Some((s.(pc := PutChunk), outbound))
    case FlushWait => AwaitLast(s, FlushPost, outbound)
    case FlushPost =>
      Some((s.(pc := PutChunk, posts := s.posts + 1, send := s.send.Other(), metas := [], offset := 0),
            PostBucket(s, false, outbound)))
    case PutChunk =>
      if s.next >= |chunks| then Some((s.(pc := SenderFailed), outbound))
      else
        var c, buf := chunks[s.next], s.bufs.At(s.send);
        if s.offset + c.meta.chunkSize > |buf| || |c.data| != c.meta.chunkSize
           || NameTaken(s.metas, c.meta.name)
        then Some((s.(pc := SenderFailed), outbound))
        else Some((
          s.(pc := NextChunk, next := s.next + 1, offset := s.offset + c.meta.chunkSize,
             metas := s.metas + [c.meta.(offset := Some(s.offset))],
             bufs := s.bufs.Put(s.send, Write(buf, s.offset, c.data))), outbound))
    case FinalWait => AwaitLast(s, FinalPost, outbound)
    case FinalPost => Some((s.(pc := FinalAck, posts := s.posts + 1), PostBucket(s, true, outbound)))
    case FinalAck => AwaitLast(s, SenderDone, outbound)
    case SenderDone => None
    case SenderFailed => None
  }

  /** The buffer of the last post: swapped away, except for the final bucket. */
  function PostedSide(s: Sender): Side {
    if s.pc.FinalAck? || s.pc.SenderDone? then s.send else s.send.Other()
  }

  function UpOfSender(s: Sender): Up { Up(s.bufs, PostedSide(s), s.posts, s.acks) }

  ghost predicate Streamable(chunks: seq<Chunk>, bucketSize: nat) {
    && Packable(chunks, bucketSize)
    && forall k :: 0 <= k < |chunks| ==> chunks[k].IsView() && chunks[k].meta.chunkSize <= bucketSize
  }

  /** The open bucket of the packing so far is the one being filled. */
  ghost predicate FillsOpen(s: Sender, p: Packing) {
    s.posts == |p.closed| && Filling(s.bufs.At(s.send), s.metas, s.offset, p.open)
  }

  /** Program counter, packing so far and counters fit together. */
  ghost predicate SenderPcInv(s: Sender, p: Packing, chunks: seq<Chunk>, bucketSize: nat) {
    match s.pc
    case NextChunk => FillsOpen(s, p)
    case FlushWait => FillsOpen(s, p) && s.next < |chunks| && s.offset + chunks[s.next].meta.chunkSize > bucketSize
    case FlushPost => FillsOpen(s, p) && s.next < |chunks| && s.offset + chunks[s.next].meta.chunkSize > bucketSize
                      && s.acks == s.posts
    case PutChunk =>
      && s.next < |chunks|
      && (if Size(p.open) + chunks[s.next].meta.chunkSize > bucketSize
          then s.posts == |p.closed| + 1 && s.metas == [] && s.offset == 0
          else FillsOpen(s, p))
    case FinalWait => FillsOpen(s, p) && s.next == |chunks|
    case FinalPost => FillsOpen(s, p) && s.next == |chunks| && s.acks == s.posts
    case FinalAck => s.next == |chunks| && s.posts == |p.closed| + 1 == s.acks + 1
    case SenderDone => s.next == |chunks| && s.posts == |p.closed| + 1 == s.acks
    case SenderFailed => false
  }

  /** Between two waits every posted bucket but the last has been acknowledged. */
  ghost predicate AwaitsRight(s: Sender) {
    s.pc.FlushPost? || s.pc.FinalPost? || s.pc.SenderDone? || s.posts == 0 || s.posts == s.acks + 1
  }

  /** Rank 0 after packing into `p`, and the link to its neighbour. */
  ghost predicate SenderAround(s: Sender, p: Packing, outbound: Link, r: Receiver, chunks: seq<Chunk>,
                               groups: seq<seq<Chunk>>, bucketSize: nat)
  {
    && s.next <= |chunks| && SenderPcInv(s, p, chunks, bucketSize) && AwaitsRight(s)
    && UpInv(UpOfSender(s), groups, bucketSize)
    && TwoBuffers(r.bufs, bucketSize) && Linked(UpOfSender(s), outbound, r, groups)
  }

  /** The same for the actual packing of the chunks taken so far. */
  ghost predicate SenderInv(s: Sender, outbound: Link, r: Receiver, chunks: seq<Chunk>, bucketSize: nat) {
    && s.next <= |chunks|
    && SenderAround(s, Pack(chunks[..s.next], bucketSize), outbound, r, chunks, Groups(chunks, bucketSize), bucketSize)
  }

  /** A full bucket is a finished group, and not the last one. */
  lemma FullBucketIsAGroup(chunks: seq<Chunk>, n: nat, bucketSize: nat)
    requires n < |chunks|
    requires Size(Pack(chunks[..n], bucketSize).open) + chunks[n].meta.chunkSize > bucketSize
    ensures var p, groups := Pack(chunks[..n], bucketSize), Groups(chunks, bucketSize);
            |p.closed| + 1 < |groups| && groups[|p.closed|] == p.open
  {
    PackNext(chunks, n, bucketSize);
    GroupsPrefix(chunks, n + 1, bucketSize);
    var q := Pack(chunks[..n + 1], bucketSize);
    assert q.closed[|q.closed| - 1] == Pack(chunks[..n], bucketSize).open;
  }

  /** Packing the next chunk repeats no name. */
  lemma NextNameIsNew(chunks: seq<Chunk>, n: nat, bucketSize: nat)
    requires n < |chunks| && Packable(chunks, bucketSize)
    ensures DistinctNames(Pack(chunks[..n + 1], bucketSize).open)
  {
    if !DistinctNames(Pack(chunks[..n + 1], bucketSize).open) {
      ClashStays(chunks, n + 1, bucketSize);
    }
  }

  lemma WriteKeepsFilling(buf: seq<Byte>, metas: seq<TensorMeta>, offset: nat, c: Chunk, open: seq<Chunk>)
    requires Filling(buf, metas, offset, open) && c.IsView() && offset + c.meta.chunkSize <= |buf|
    requires DistinctNames(open + [Place(c, offset)])
    ensures !NameTaken(metas, c.meta.name)
    ensures Filling(Write(buf, offset, c.data), metas + [c.meta.(offset := Some(offset))],
                    offset + c.meta.chunkSize, open + [Place(c, offset)])
  {
    var open' := open + [Place(c, offset)];
    forall k | 0 <= k < |open| ensures open[k].meta.name != c.meta.name {
      assert open'[k].meta.name != open'[|open|].meta.name;
    }
    var after := Write(buf, offset, c.data);
    assert after[..offset] == buf[..offset];
    assert after[offset..offset + c.meta.chunkSize] == c.data;
    FillingAppend(buf, after, metas, offset, c, open);
  }

  // ---------------------------------------------------------------- preservation

  /** Rank 0 after putting chunk `c` behind the others. */
  function AfterPut(s: Sender, c: Chunk): Sender
    requires s.offset + |c.data| <= |s.bufs.At(s.send)|
  {
    s.(pc := NextChunk, next := s.next + 1, offset := s.offset + c.meta.chunkSize,
       metas := s.metas + [c.meta.(offset := Some(s.offset))],
       bufs := s.bufs.Put(s.send, Write(s.bufs.At(s.send), s.offset, c.data)))
  }

  lemma PutChunkComputes(s: Sender, chunks: seq<Chunk>, outbound: Link)
    requires s.pc.PutChunk? && s.next < |chunks| && chunks[s.next].IsView()
    requires s.offset + chunks[s.next].meta.chunkSize <= |s.bufs.At(s.send)|
    requires !NameTaken(s.metas, chunks[s.next].meta.name)
    ensures SendStep(s, chunks, outbound) == Some((AfterPut(s, chunks[s.next]), outbound))
  {
  }

  /** Writing the send buffer disturbs neither the posted bucket nor the link. */
  lemma WritingSendKeepsLink(s: Sender, s': Sender, outbound: Link, r: Receiver, groups: seq<seq<Chunk>>, bucketSize: nat)
    requires UpInv(UpOfSender(s), groups, bucketSize)
    requires TwoBuffers(r.bufs, bucketSize) && Linked(UpOfSender(s), outbound, r, groups)
    requires s.pc.PutChunk? && s'.pc.NextChunk? && s'.send == s.send && s'.posts == s.posts && s'.acks == s.acks
    requires s'.bufs.At(s.send.Other()) == s.bufs.At(s.send.Other()) && |s'.bufs.At(s.send)| == bucketSize
    ensures UpInv(UpOfSender(s'), groups, bucketSize) && Linked(UpOfSender(s'), outbound, r, groups)
  {
  }

  lemma KeepsPutChunk(s: Sender, p: Packing, outbound: Link, r: Receiver, chunks: seq<Chunk>,
                      groups: seq<seq<Chunk>>, bucketSize: nat)
    requires SenderAround(s, p, outbound, r, chunks, groups, bucketSize) && s.pc.PutChunk?
    requires chunks[s.next].IsView() && chunks[s.next].meta.chunkSize <= bucketSize
    requires DistinctNames(PackStep(p, chunks[s.next], bucketSize).open)
    ensures var o := SendStep(s, chunks, outbound);
            && o.Some? && o.value.1 == outbound && o.value.0.next == s.next + 1
            && SenderAround(o.value.0, PackStep(p, chunks[s.next], bucketSize), outbound, r, chunks, groups, bucketSize)
  {
    var c := chunks[s.next];
    if Size(p.open) + c.meta.chunkSize > bucketSize {
      FillingNothing(s.bufs.At(s.send));
      assert [] + [Place(c, 0)] == [Place(c, 0)];
      WriteKeepsFilling(s.bufs.At(s.send), s.metas, s.offset, c, []);
    } else {
      WriteKeepsFilling(s.bufs.At(s.send), s.metas, s.offset, c, p.open);
    }
    PutChunkComputes(s, chunks, outbound);
    WritingSendKeepsLink(s, AfterPut(s, c), outbound, r, groups, bucketSize);
  }

  lemma KeepsAwait(s: Sender, p: Packing, outbound: Link, r: Receiver, chunks: seq<Chunk>,
                   groups: seq<seq<Chunk>>, bucketSize: nat)
    requires SenderAround(s, p, outbound, r, chunks, groups, bucketSize)
    requires s.pc.FlushWait? || s.pc.FinalWait? || s.pc.FinalAck?
    requires SendStep(s, chunks, outbound).Some?
    ensures var (s', outbound') := SendStep(s, chunks, outbound).value;
            s'.next == s.next && SenderAround(s', p, outbound', r, chunks, groups, bucketSize)
  {
  }

  /** Posting an intact bucket whose metadata is right keeps the link. */
  lemma PostKeepsLink(s: Sender, s': Sender, isLast: bool, outbound: Link, r: Receiver,
                      groups: seq<seq<Chunk>>, bucketSize: nat)
    requires UpInv(UpOfSender(s), groups, bucketSize) && s.acks == s.posts < |groups|
    requires TwoBuffers(r.bufs, bucketSize) && Linked(UpOfSender(s), outbound, r, groups)
    requires Metadata(s.metas, isLast) == MetadataOf(groups, s.posts) && Holds(s.bufs.At(s.send), groups[s.posts])
    requires UpOfSender(s') == Up(s.bufs, s.send, s.posts + 1, s.acks)
    ensures UpInv(UpOfSender(s'), groups, bucketSize)
    ensures Linked(UpOfSender(s'), PostBucket(s, isLast, outbound), r, groups)
  {
  }

  lemma KeepsFlushPost(s: Sender, p: Packing, outbound: Link, r: Receiver, chunks: seq<Chunk>,
                       groups: seq<seq<Chunk>>, bucketSize: nat)
    requires SenderAround(s, p, outbound, r, chunks, groups, bucketSize) && s.pc.FlushPost?
    requires |p.closed| + 1 < |groups| && groups[|p.closed|] == p.open
    ensures var (s', outbound') := SendStep(s, chunks, outbound).value;
            s'.next == s.next && SenderAround(s', p, outbound', r, chunks, groups, bucketSize)
  {
    PostKeepsLink(s, s.(pc := PutChunk, posts := s.posts + 1, send := s.send.Other(), metas := [], offset := 0),
                  false, outbound, r, groups, bucketSize);
  }

  lemma KeepsFinalPost(s: Sender, p: Packing, outbound: Link, r: Receiver, chunks: seq<Chunk>,
                       groups: seq<seq<Chunk>>, bucketSize: nat)
    requires SenderAround(s, p, outbound, r, chunks, groups, bucketSize) && s.pc.FinalPost?
    requires groups == p.closed + [p.open]
    ensures var (s', outbound') := SendStep(s, chunks, outbound).value;
            s'.next == s.next && SenderAround(s', p, outbound', r, chunks, groups, bucketSize)
  {
    PostKeepsLink(s, s.(pc := FinalAck, posts := s.posts + 1), true, outbound, r, groups, bucketSize);
  }

  lemma KeepsNextChunk(s: Sender, p: Packing, outbound: Link, r: Receiver, chunks: seq<Chunk>,
                       groups: seq<seq<Chunk>>, bucketSize: nat)
    requires SenderAround(s, p, outbound, r, chunks, groups, bucketSize) && s.pc.NextChunk?
    ensures var (s', outbound') := SendStep(s, chunks, outbound).value;
            s'.next == s.next && SenderAround(s', p, outbound', r, chunks, groups, bucketSize)
  {
  }

  lemma SenderKeepsPut(s: Sender, outbound: Link, r: Receiver, chunks: seq<Chunk>, bucketSize: nat)
    requires Streamable(chunks, bucketSize) && SenderInv(s, outbound, r, chunks, bucketSize) && s.pc.PutChunk?
    ensures var o := SendStep(s, chunks, outbound);
            o.Some? && SenderInv(o.value.0, o.value.1, r, chunks, bucketSize)
  {
    hide Linked, UpInv, Holds, Copied, Groups, DistinctNames;
    PackNext(chunks, s.next, bucketSize);
    NextNameIsNew(chunks, s.next, bucketSize);
    KeepsPutChunk(s, Pack(chunks[..s.next], bucketSize), outbound, r, chunks, Groups(chunks, bucketSize), bucketSize);
  }

  lemma SenderKeepsFlush(s: Sender, outbound: Link, r: Receiver, chunks: seq<Chunk>, bucketSize: nat)
    requires SenderInv(s, outbound, r, chunks, bucketSize) && s.pc.FlushPost?
    ensures var o := SendStep(s, chunks, outbound);
            o.Some? && SenderInv(o.value.0, o.value.1, r, chunks, bucketSize)
  {
    FullBucketIsAGroup(chunks, s.next, bucketSize);
    KeepsFlushPost(s, Pack(chunks[..s.next], bucketSize), outbound, r, chunks, Groups(chunks, bucketSize), bucketSize);
  }

  /** Any step of rank 0 keeps its own invariant and the link to its neighbour. */
  lemma SenderKeeps(s: Sender, outbound: Link, r: Receiver, chunks: seq<Chunk>, bucketSize: nat)
    requires Streamable(chunks, bucketSize) && SenderInv(s, outbound, r, chunks, bucketSize)
    requires SendStep(s, chunks, outbound).Some?
    ensures var (s', outbound') := SendStep(s, chunks, outbound).value;
            SenderInv(s', outbound', r, chunks, bucketSize)
  {
    var p, groups := Pack(chunks[..s.next], bucketSize), Groups(chunks, bucketSize);
    match s.pc
    case NextChunk => KeepsNextChunk(s, p, outbound, r, chunks, groups, bucketSize);
    case FlushWait => KeepsAwait(s, p, outbound, r, chunks, groups, bucketSize);
    case FlushPost => SenderKeepsFlush(s, outbound, r, chunks, bucketSize);
    case PutChunk => SenderKeepsPut(s, outbound, r, chunks, bucketSize);
    case FinalWait => KeepsAwait(s, p, outbound, r, chunks, groups, bucketSize);
    case FinalPost =>
      assert chunks[..|chunks|] == chunks;
      KeepsFinalPost(s, p, outbound, r, chunks, groups, bucketSize);
    case FinalAck => KeepsAwait(s, p, outbound, r, chunks, groups, bucketSize);
  }
}
