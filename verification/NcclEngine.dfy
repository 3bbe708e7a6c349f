/** The NCCL checkpoint engine (verl/checkpoint_engine/nccl_checkpoint_engine.py): rank 0 fills one
    buffer while the other is being broadcast; a receiver yields from one buffer while the next
    broadcast lands in the other.

    A broadcast in flight may read the sender's buffer at any moment up to its completion, and may
    write the receiver's buffer at any moment up to its completion. The sender is therefore charged
    with what the buffer holds when the broadcast completes, and the receiver's buffer is arbitrary
    until then. */
module NcclEngine {
  import opened Outcomes
  import opened WeightChunks
  import opened BucketLayout

  datatype Bucket = Bucket(metas: seq<TensorMeta>, isLast: bool, data: seq<Byte>)

  datatype Broadcast = Broadcast(buf: array<Byte>, metas: seq<TensorMeta>, isLast: bool)

  /** Bucket `b` brings exactly the chunks of `g`. */
  ghost predicate Brings(b: Bucket, g: seq<Chunk>, bucketSize: nat) {
    b.metas == Metas(g) && |b.data| == bucketSize && Holds(b.data, g)
  }

  /** The buckets on the wire bring the groups in order, and only the final one is flagged last. */
  ghost predicate Carries(wire: seq<Bucket>, groups: seq<seq<Chunk>>, bucketSize: nat) {
    && |wire| == |groups|
    && forall i :: 0 <= i < |wire| ==>
        Brings(wire[i], groups[i], bucketSize) && (wire[i].isLast <==> i == |wire| - 1)
  }

  /** Writes one chunk behind the others, unless its name is already in the bucket. */
  method PutChunk(buf: array<Byte>, metas: seq<TensorMeta>, offset: nat, c: Chunk, ghost open: seq<Chunk>)
    returns (clash: bool, metas': seq<TensorMeta>)
    requires Filling(buf[..], metas, offset, open) && offset + c.meta.chunkSize <= buf.Length && c.IsView()
    modifies buf
    ensures clash <==> !DistinctNames(open + [Place(c, offset)])
    ensures !clash ==> Filling(buf[..], metas', offset + c.meta.chunkSize, open + [Place(c, offset)])
  {
    ghost var open' := open + [Place(c, offset)];
    clash, metas' := exists m <- metas :: m.name == c.meta.name, metas;
    if clash {
      ghost var k :| 0 <= k < |metas| && metas[k].name == c.meta.name;
      assert open'[k].meta.name == open'[|open|].meta.name;
      return;
    }
    forall k | 0 <= k < |open| ensures open[k].meta.name != c.meta.name {
      assert metas[k] in metas;
    }
    ghost var before := buf[..];
    metas' := metas + [c.meta.(offset := Some(offset))];
    forall k | 0 <= k < c.meta.chunkSize {
      buf[offset + k] := c.data[k];
    }
    assert buf[offset..offset + c.meta.chunkSize] == c.data;
    FillingAppend(before, buf[..], metas, offset, c, open);
  }

  /** The buckets that completed bring the first closed groups; none is flagged last. */
  ghost predicate Delivered(sent: seq<Bucket>, closed: seq<seq<Chunk>>, bucketSize: nat) {
    && |sent| <= |closed|
    && forall k :: 0 <= k < |sent| ==> Brings(sent[k], closed[k], bucketSize) && !sent[k].isLast
  }

  /** At most one broadcast is in flight: the newest closed group, still intact in its buffer. */
  ghost predicate InFlight(op: Option<Broadcast>, sent: seq<Bucket>, closed: seq<seq<Chunk>>, bucketSize: nat)
    reads if op.Some? then {op.value.buf} else {}
  {
    && Delivered(sent, closed, bucketSize)
    && (op.None? ==> closed == [])
    && (op.Some? ==>
        && |closed| == |sent| + 1 && !op.value.isLast
        && Brings(Bucket(op.value.metas, false, op.value.buf[..]), closed[|sent|], bucketSize))
  }

  /** Waits for the broadcast in flight, if any; what the buffer holds now is what arrived. */
  method WaitForComplete(op: Option<Broadcast>, sent: seq<Bucket>, ghost closed: seq<seq<Chunk>>, ghost bucketSize: nat)
    returns (sent': seq<Bucket>)
    requires InFlight(op, sent, closed, bucketSize)
    ensures Delivered(sent', closed, bucketSize) && |sent'| == |closed|
  {
    sent' := sent;
    if op.Some? {
      sent' := sent + [Bucket(op.value.metas, op.value.isLast, op.value.buf[..])];
    }
  }

  /** Waits for the previous broadcast and starts that of a full buffer. */
  method HandOver(op: Option<Broadcast>, sent: seq<Bucket>, buf: array<Byte>, metas: seq<TensorMeta>,
                  ghost p: Packing, ghost offset: nat)
    returns (op': Option<Broadcast>, sent': seq<Bucket>)
    requires InFlight(op, sent, p.closed, buf.Length) && Filling(buf[..], metas, offset, p.open)
    ensures op' == Some(Broadcast(buf, metas, false))
    ensures InFlight(op', sent', p.closed + [p.open], buf.Length)
  {
    sent' := WaitForComplete(op, sent, p.closed, buf.Length);
    op' := Some(Broadcast(buf, metas, false));
  }

  /** The packing loop between two chunks: one buffer filling, the other possibly in flight. */
  ghost predicate Packs(sendBuf: array<Byte>, recvBuf: array<Byte>, op: Option<Broadcast>, sent: seq<Bucket>,
                        metas: seq<TensorMeta>, offset: nat, p: Packing)
    reads sendBuf, recvBuf
  {
    && sendBuf != recvBuf && sendBuf.Length == recvBuf.Length
    && (op.Some? ==> op.value.buf == recvBuf)
    && Filling(sendBuf[..], metas, offset, p.open)
    && InFlight(op, sent, p.closed, recvBuf.Length)
  }

  /** The body of the packing loop: exactly one packing step, or a name clash in the open bucket. */
  method PackChunk(sendBuf: array<Byte>, recvBuf: array<Byte>, op: Option<Broadcast>, sent: seq<Bucket>,
                   metas: seq<TensorMeta>, offset: nat, c: Chunk, ghost p: Packing)
    returns (clash: bool, sendBuf': array<Byte>, recvBuf': array<Byte>, op': Option<Broadcast>,
             sent': seq<Bucket>, metas': seq<TensorMeta>, offset': nat)
    requires Packs(sendBuf, recvBuf, op, sent, metas, offset, p)
    requires c.meta.chunkSize <= sendBuf.Length && c.IsView()
    modifies sendBuf, recvBuf
    ensures (sendBuf' == sendBuf && recvBuf' == recvBuf) || (sendBuf' == recvBuf && recvBuf' == sendBuf)
    ensures clash <==> !DistinctNames(PackStep(p, c, sendBuf.Length).open)
    ensures !clash ==> Packs(sendBuf', recvBuf', op', sent', metas', offset', PackStep(p, c, sendBuf.Length))
  {
    sendBuf', recvBuf', op', sent', metas', offset' := sendBuf, recvBuf, op, sent, metas, offset;
    ghost var q := p;
    if offset + c.meta.chunkSize > sendBuf.Length {
      op', sent' := HandOver(op, sent, sendBuf, metas, p, offset);
      sendBuf', recvBuf' := recvBuf, sendBuf;
      metas', offset' := [], 0;
      q := Packing(p.closed + [p.open], []);
      FillingNothing(sendBuf'[..]);
      assert [] + [Place(c, 0)] == [Place(c, 0)];
    }
    assert offset' + c.meta.chunkSize <= sendBuf'.Length;
    clash, metas' := PutChunk(sendBuf', metas', offset', c, q.open);
    offset' := offset' + c.meta.chunkSize;
  }

  /** After the last chunk: wait for the previous broadcast, then broadcast the open bucket as last. */
  method FinishSend(sendBuf: array<Byte>, recvBuf: array<Byte>, op: Option<Broadcast>, sent: seq<Bucket>,
                    metas: seq<TensorMeta>, ghost offset: nat, ghost p: Packing)
    returns (wire: seq<Bucket>)
    requires Packs(sendBuf, recvBuf, op, sent, metas, offset, p)
    ensures Carries(wire, p.closed + [p.open], sendBuf.Length)
  {
    var sent' := WaitForComplete(op, sent, p.closed, sendBuf.Length);
    var op' := Broadcast(sendBuf, metas, true);
    wire := sent' + [Bucket(op'.metas, op'.isLast, op'.buf[..])];
  }

  lemma NoClashNext(p: Packing, c: Chunk, bucketSize: nat)
    requires NoClash(p) && DistinctNames(PackStep(p, c, bucketSize).open)
    ensures NoClash(PackStep(p, c, bucketSize))
  {
  }

  /** The packing loop over the generator's chunks. */
  method SendChunks(chunks: seq<Chunk>, buf0: array<Byte>, buf1: array<Byte>) returns (wire: Result<seq<Bucket>>)
    requires buf0 != buf1 && buf0.Length == buf1.Length
    requires forall k :: 0 <= k < |chunks| ==> chunks[k].IsView() && chunks[k].meta.chunkSize <= buf0.Length
    modifies buf0, buf1
    ensures wire.Ok? <==> Packable(chunks, buf0.Length)
    ensures wire.Ok? ==> Carries(wire.value, Groups(chunks, buf0.Length), buf0.Length)
  {
    var sendBuf, recvBuf := buf0, buf1;
    var sent: seq<Bucket> := [];
    var op: Option<Broadcast> := None;
    var metas: seq<TensorMeta> := [];
    var offset: nat := 0;
    ghost var bucketSize := buf0.Length;
    ghost var p := Pack([], bucketSize);
    assert chunks[..0] == [];
    FillingNothing(sendBuf[..]);
    for i := 0 to |chunks|
      invariant (sendBuf == buf0 && recvBuf == buf1) || (sendBuf == buf1 && recvBuf == buf0)
      invariant p == Pack(chunks[..i], bucketSize)
      invariant Packs(sendBuf, recvBuf, op, sent, metas, offset, p)
      invariant NoClash(p)
    {
      PackNext(chunks, i, bucketSize);
      ghost var q := PackStep(p, chunks[i], bucketSize);
      var clash;
      clash, sendBuf, recvBuf, op, sent, metas, offset :=
        PackChunk(sendBuf, recvBuf, op, sent, metas, offset, chunks[i], p);
      if clash {
        ClashStays(chunks, i + 1, bucketSize);
        return AssertionFailed;
      }
      NoClashNext(p, chunks[i], bucketSize);
      p := q;
    }
    assert chunks[..|chunks|] == chunks;
    PackableIff(chunks, bucketSize);
    var buckets := FinishSend(sendBuf, recvBuf, op, sent, metas, offset, p);
    wire := Ok(buckets);
  }

  class Engine {
    const bucketSize: nat
    var sendBuf: array<Byte>
    var recvBuf: array<Byte>

    ghost predicate Prepared()
      reads this
    {
      0 < bucketSize && sendBuf != recvBuf && sendBuf.Length == recvBuf.Length == bucketSize
    }

    constructor (bucketSize: nat)
      requires 0 < bucketSize
      ensures Prepared() && fresh(sendBuf) && fresh(recvBuf)
      ensures this.bucketSize == bucketSize
    {
      this.bucketSize := bucketSize;
      sendBuf := new Byte[bucketSize];
      recvBuf := new Byte[bucketSize];
    }

    /** Rank 0's packing loop. The wire brings exactly the greedy grouping of the weights' chunks;
        the loop stops on an assert exactly when a bucket would hold two chunks of one name. */
    method SendWeights(weights: seq<Weight>) returns (wire: Result<seq<Bucket>>)
      requires Prepared()
      modifies sendBuf, recvBuf
      ensures wire.Ok? <==> Packable(Split(weights, bucketSize), bucketSize)
      ensures wire.Ok? ==> Carries(wire.value, Groups(Split(weights, bucketSize), bucketSize), bucketSize)
    {
      var chunks := SplitWeightChunks(weights, bucketSize);
      SplitSizes(weights, bucketSize);
      wire := SendChunks(chunks, sendBuf, recvBuf);
    }

    /** A broadcast begins: `buf` may hold anything until it completes. */
    method BeginReceive(buf: array<Byte>)
      modifies buf
    {
    }

    /** The broadcast of `b` completes: `buf` now holds its bytes. */
    method CompleteReceive(buf: array<Byte>, b: Bucket)
      requires buf.Length == |b.data|
      modifies buf
      ensures buf[..] == b.data
    {
      forall k | 0 <= k < buf.Length {
        buf[k] := b.data[k];
      }
    }

    /** The double-buffered receiving loop yields what receiving one bucket at a time would. */
    method ReceiveWeightChunks(wire: seq<Bucket>, ghost groups: seq<seq<Chunk>>) returns (chunks: seq<Chunk>)
      requires Prepared() && Carries(wire, groups, bucketSize) && wire != []
      modifies sendBuf, recvBuf
      ensures chunks == Flatten(groups)
    {
      var sendBuf, recvBuf := this.sendBuf, this.recvBuf;
      chunks := [];
      BeginReceive(recvBuf);
      CompleteReceive(recvBuf, wire[0]);
      var metas, isLast := wire[0].metas, wire[0].isLast;
      sendBuf, recvBuf := recvBuf, sendBuf;
      var i := 0;
      while !isLast
        invariant {sendBuf, recvBuf} == {this.sendBuf, this.recvBuf} && sendBuf != recvBuf
        invariant i < |wire| && metas == wire[i].metas && isLast == wire[i].isLast
        invariant sendBuf[..] == wire[i].data
        invariant chunks == Flatten(groups[..i])
        decreases |wire| - i
      {
        BeginReceive(recvBuf);
        var yielded := YieldViews(metas, sendBuf, groups[i]);
        chunks := chunks + yielded;
        CompleteReceive(recvBuf, wire[i + 1]);
        metas, isLast := wire[i + 1].metas, wire[i + 1].isLast;
        sendBuf, recvBuf := recvBuf, sendBuf;
        FlattenAppend(groups[..i], groups[i]);
        assert groups[..i + 1] == groups[..i] + [groups[i]];
        i := i + 1;
      }
      var yielded := YieldViews(metas, sendBuf, groups[i]);
      chunks := chunks + yielded;
      FlattenAppend(groups[..i], groups[i]);
      assert groups == groups[..i] + [groups[i]];
    }

    /** One view of `buf` per metadata entry. */
    method YieldViews(metas: seq<TensorMeta>, buf: array<Byte>, ghost group: seq<Chunk>) returns (chunks: seq<Chunk>)
      requires metas == Metas(group) && Holds(buf[..], group)
      ensures chunks == group
    {
      chunks := [];
      for k := 0 to |metas|
        invariant chunks == group[..k]
      {
        assert Held(buf[..], group[k]);
        var at := metas[k].offset.value;
        assert buf[..][at..at + metas[k].chunkSize] == buf[at..at + metas[k].chunkSize];
        chunks := chunks + [Chunk(metas[k], buf[at..at + metas[k].chunkSize])];
      }
    }
  }

  /** One full weight update: whatever the weights, either the sender's name assert fires, or the
      receiver ends up with exactly the weights that have bytes, in order. */
  method UpdateWeights(weights: seq<Weight>, sender: Engine, receiver: Engine) returns (r: Result<seq<Weight>>)
    requires sender.Prepared() && receiver.Prepared() && sender.bucketSize == receiver.bucketSize
    requires {sender.sendBuf, sender.recvBuf} !! {receiver.sendBuf, receiver.recvBuf}
    modifies sender.sendBuf, sender.recvBuf, receiver.sendBuf, receiver.recvBuf
    ensures Packable(Split(weights, sender.bucketSize), sender.bucketSize) ==> r == Ok(NonEmpty(weights))
    ensures DistinctWeightNames(weights) ==> r == Ok(NonEmpty(weights))
    ensures r == AssertionFailed <==> !Packable(Split(weights, sender.bucketSize), sender.bucketSize)
  {
    if DistinctWeightNames(weights) {
      DistinctNamesPack(weights, sender.bucketSize);
    }
    var wire := sender.SendWeights(weights);
    if wire.AssertionFailed? { return AssertionFailed; }
    ghost var groups := Groups(Split(weights, sender.bucketSize), sender.bucketSize);
    var chunks := receiver.ReceiveWeightChunks(wire.value, groups);
    r := MergeWeightChunks(chunks, receiver.bucketSize);
    BucketRoundTrip(weights, sender.bucketSize);
  }
}
