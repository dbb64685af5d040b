/** The invariant of ZtpRun: what the queues may hold, and what the counters of a stream say at its
    sending and at its receiving end.  Every step keeps it. */
module ZtpInvariant {
  import opened Bytes
  import opened ZtpFrame
  import opened ZtpProtocol
  import opened ZtpRun

  // What the queues may hold

  predicate NormalFrame(f: Frame) {
    && Valid(f) && PriorityOf(f) == NormalPriority
    && (f.kind == TYPE_DATA || f.kind == TYPE_STREAM_OPEN || f.kind == TYPE_STREAM_CLOSE || f.kind == TYPE_RESET
        || f == PongFrame(0))
    && (f.kind == TYPE_STREAM_OPEN ==> f == OpenFrame(f.streamID)) && (f.kind == TYPE_DATA ==> f.payload != [])
  }

  /** An acknowledgement of no more than `p` has delivered. */
  predicate AckFrame(f: Frame, p: Peer) {
    && Valid(f) && PriorityOf(f) == HighPriority && f.kind == TYPE_ACK
    && DecodeAckPayload(f.payload).Some?
    && var (acked, window) := DecodeAckPayload(f.payload).value;
       acked <= Total(Delivered(p, f.streamID)) && window == INITIAL_WINDOW
  }

  predicate AllNormal(fs: seq<Frame>) {
    forall f :: f in fs ==> NormalFrame(f)
  }

  predicate AllAck(fs: seq<Frame>, p: Peer) {
    forall f :: f in fs ==> AckFrame(f, p)
  }

  predicate AllPing(fs: seq<Frame>) {
    forall f :: f in fs ==> f == PingFrame()
  }

  /** Everything put into a queue has been emitted or is still there, in the same order; nothing
      else has been emitted. */
  predicate Pipe(p: Peer, emitted: seq<Frame>) {
    && Only(emitted, HighPriority) + p.e.high == p.highLog
    && Only(emitted, NormalPriority) + p.e.normal == p.normalLog
    && Only(emitted, LowPriority) + p.e.low == p.lowLog
  }

  // One stream at its sending and at its receiving end

  /** What is not acknowledged fits the window, but for what was sent and will never be counted. */
  predicate SendOk(p: Peer, q: Peer, id: uint32) {
    && Pending(p, id) + Uncounted(p, id) <= Enqueued(p, id)
    && (id !in p.e.streams ==>
          Chunks(p.normalLog, id) == [] && Pending(p, id) == 0 && Uncounted(p, id) == 0 && MaxAck(p.handled, id) == 0)
    && (id in p.e.streams ==>
          var s := p.e.streams[id];
          && s.window == INITIAL_WINDOW
          && s.sent == Wrap32(Enqueued(p, id) - Pending(p, id) - Uncounted(p, id))
          && s.acked <= Total(Delivered(q, id))
          && Enqueued(p, id) - s.acked <= INITIAL_WINDOW + Uncounted(p, id)
          && (id in p.e.open ==> s.acked == MaxAck(p.handled, id)))
  }

  predicate RecvOk(p: Peer, id: uint32) {
    && Subsequence(Delivered(p, id), Chunks(p.handled, id))
    && (id in p.e.streams ==> p.e.streams[id].received == Wrap32(Total(Delivered(p, id))))
    && (id !in p.e.streams ==>
          Chunks(p.handled, id) == [] && !Ended(p.handled, id) && id !in p.slow && id !in p.closedHere)
    && (id in p.e.open ==> !Ended(p.handled, id) && id !in p.closedHere)
    && (id in p.e.streams && id !in p.e.open ==> Ended(p.handled, id) || id in p.closedHere)
    && (id !in p.slow && id !in p.closedHere ==> Delivered(p, id) == Accepted(p.handled, id))
    && (id in p.slow ==> Total(Delivered(p, id)) < Total(Chunks(p.handled, id)))
  }

  /** An end has raised an error exactly when it has been sent the answer to a ping, and it answers
      only pings. */
  predicate PingsOk(p: Peer) {
    && (p.e.failed <==> PongFrame(0) in p.handled)
    && (PongFrame(0) in p.normalLog ==> PingFrame() in p.handled)
  }

  ghost predicate Local(p: Peer, q: Peer) {
    && Wf(p.e) && PingsOk(p)
    && AllNormal(p.normalLog) && AllAck(p.highLog, p) && AllPing(p.lowLog)
    && (forall id: uint32 :: SendOk(p, q, id))
    && (forall id: uint32 :: RecvOk(p, id))
  }

  /** One direction: `p` sends to `q`. */
  ghost predicate Half(p: Peer, q: Peer, pq: seq<Frame>, bytes: seq<byte>) {
    && Local(p, q)
    && Pipe(p, q.handled + pq)
    && bytes == EncodeAll(pq)
  }

  // Facts about single steps

  lemma PipeMember(p: Peer, emitted: seq<Frame>, f: Frame)
    requires Pipe(p, emitted) && f in emitted
    ensures f in p.highLog || f in p.normalLog || f in p.lowLog
  {
    OnlyHas(emitted, f);
    var c := PriorityOf(f);
    assert f in Only(emitted, c) + Queue(p.e, c);
  }

  lemma EnqueueKeepsPipe(p: Peer, p': Peer, emitted: seq<Frame>, f: Frame)
    requires Pipe(p, emitted) && SameQueues(p'.e, Enqueue(p.e, f))
    requires p'.highLog == p.highLog + (if PriorityOf(f) == HighPriority then [f] else [])
    requires p'.normalLog == p.normalLog + (if PriorityOf(f) == NormalPriority then [f] else [])
    requires p'.lowLog == p.lowLog + (if PriorityOf(f) == LowPriority then [f] else [])
    ensures Pipe(p', emitted)
  {
    Assoc(Only(emitted, HighPriority), p.e.high, if PriorityOf(f) == HighPriority then [f] else []);
    Assoc(Only(emitted, NormalPriority), p.e.normal, if PriorityOf(f) == NormalPriority then [f] else []);
    Assoc(Only(emitted, LowPriority), p.e.low, if PriorityOf(f) == LowPriority then [f] else []);
    AppendNothing(p.e.high);
    AppendNothing(p.e.normal);
    AppendNothing(p.e.low);
  }

  predicate SameQueues(a: Endpoint, b: Endpoint) {
    a.high == b.high && a.normal == b.normal && a.low == b.low
  }

  lemma MoveHead<T>(before: seq<T>, queue: seq<T>)
    requires queue != []
    ensures (before + [queue[0]]) + queue[1..] == before + queue
  {
  }

  /** Emission moves the head of a queue to the end of what has been emitted. */
  lemma EmitKeepsPipe(p: Peer, emitted: seq<Frame>, c: Priority)
    requires Pipe(p, emitted) && Queue(p.e, c) != []
    requires AllNormal(p.normalLog) && AllAck(p.highLog, p) && AllPing(p.lowLog)
    ensures Pipe(AfterEmit(p, c), emitted + [Queue(p.e, c)[0]])
  {
    var f := Queue(p.e, c)[0];
    assert f in Only(emitted, c) + Queue(p.e, c);
    PingIsLow();
    assert PriorityOf(f) == c;
    MoveHead(Only(emitted, c), Queue(p.e, c));
    OnlySnoc(emitted, f, HighPriority);
    OnlySnoc(emitted, f, NormalPriority);
    OnlySnoc(emitted, f, LowPriority);
  }

  /** What `q` needs of `p` it still has after a step of `p` that delivers no less and does not
      touch the frames on their way to it. */
  lemma OtherHalf(q: Peer, p: Peer, p': Peer, qp: seq<Frame>, qp': seq<Frame>, bytes: seq<byte>, bytes': seq<byte>)
    requires Half(q, p, qp, bytes) && bytes' == EncodeAll(qp')
    requires p'.handled + qp' == p.handled + qp
    requires forall id: uint32 :: Total(Delivered(p, id)) <= Total(Delivered(p', id))
    ensures Half(q, p', qp', bytes')
  {
    forall id: uint32 ensures SendOk(q, p', id) {
      assert SendOk(q, p, id);
    }
  }

  lemma PingIsLow()
    ensures Valid(PingFrame()) && PriorityOf(PingFrame()) == LowPriority
    ensures PriorityOf(PongFrame(0)) == NormalPriority && NormalFrame(PongFrame(0))
    ensures DecodeAckPayload(PongFrame(0).payload).None?
  {
    assert |"ping"| == 4 && |"pong"| == 4;
  }

  lemma DataFrameIsNormal(id: uint32, chunk: seq<byte>)
    requires 0 < |chunk| <= MAX_FRAME_SIZE
    ensures NormalFrame(DataFrame(id, chunk)) && DataFrame(id, chunk).payload == chunk
  {
  }

  lemma ControlFramesAreNormal(id: uint32)
    ensures NormalFrame(OpenFrame(id)) && NormalFrame(CloseFrame(id))
    ensures NormalFrame(ResetFrame(id, "stream not found"))
  {
    assert |"closed by local"| == 15 && |"stream not found"| == 16;
  }

  lemma NewAckIsAck(p: Peer, id: uint32, acked: uint32)
    requires acked <= Total(Delivered(p, id))
    ensures AckFrame(NewAckFrame(id, acked, INITIAL_WINDOW), p)
  {
    AckPayloadRoundTrip(acked, INITIAL_WINDOW);
  }

  /** Nothing that `SendOk` looks at has changed. */
  predicate SameSending(p: Peer, p': Peer, id: uint32) {
    && p'.pending == p.pending && p'.uncounted == p.uncounted
    && Chunks(p'.normalLog, id) == Chunks(p.normalLog, id) && MaxAck(p'.handled, id) == MaxAck(p.handled, id)
    && (id in p'.e.open ==> id in p.e.open)
    && (id in p.e.streams <==> id in p'.e.streams)
    && (id in p.e.streams ==>
          var s, s' := p.e.streams[id], p'.e.streams[id];
          s'.sent == s.sent && s'.acked == s.acked && s'.window == s.window)
  }

  lemma SameSendingOk(p: Peer, p': Peer, q: Peer, id: uint32)
    requires SendOk(p, q, id) && SameSending(p, p', id)
    ensures SendOk(p', q, id)
  {
    hide Chunks, Total, MaxAck;
  }

  // The steps of one end, first as one stream sees them

  lemma OpenKeepsSending(p: Peer, q: Peer, id: uint32)
    requires SendOk(p, q, id) && p.e.next !in p.e.streams
    ensures SendOk(AfterOpen(p), q, id)
  {
    ChunksSnoc(p.normalLog, OpenFrame(p.e.next), id);
  }

  lemma OpenKeepsReceiving(p: Peer, id: uint32)
    requires RecvOk(p, id) && p.e.next !in p.e.streams
    ensures RecvOk(AfterOpen(p), id)
  {
    if id == p.e.next {
      SubsequenceTotal(Delivered(p, id), Chunks(p.handled, id));
    }
  }

  lemma OpenKeepsHalf(p: Peer, q: Peer, pq: seq<Frame>, bytes: seq<byte>)
    requires Half(p, q, pq, bytes) && p.e.next !in p.e.streams
    ensures Half(AfterOpen(p), q, pq, bytes)
  {
    ControlFramesAreNormal(p.e.next);
    EnqueueKeepsPipe(p, AfterOpen(p), q.handled + pq, OpenFrame(p.e.next));
    forall id: uint32 ensures SendOk(AfterOpen(p), q, id) && RecvOk(AfterOpen(p), id) {
      OpenKeepsSending(p, q, id);
      OpenKeepsReceiving(p, id);
    }
  }

  /** Data frame `f` adds its payload to what is queued of its stream. */
  lemma EnqueuedMore(fs: seq<Frame>, id0: uint32, chunk: seq<byte>, id: uint32)
    ensures var gs := fs + [DataFrame(id0, chunk)];
            Total(Chunks(gs, id)) == Total(Chunks(fs, id)) + (if id == id0 then |chunk| else 0)
    ensures id != id0 ==> Chunks(fs + [DataFrame(id0, chunk)], id) == Chunks(fs, id)
  {
    ChunksSnoc(fs, DataFrame(id0, chunk), id);
    if id == id0 {
      TotalSnoc(Chunks(fs, id), chunk);
    }
  }

  lemma TotalSnoc(d: seq<seq<byte>>, c: seq<byte>)
    ensures Total(d + [c]) == Total(d) + |c|
  {
    assert (d + [c])[..|d|] == d;
  }

  /** The available window, computed in 32-bit words, is what it should be modulo 2^32. */
  lemma AvailableIs(s: StreamState, counted: int)
    requires s.sent == Wrap32(counted)
    ensures Available(s) == Wrap32(s.window + s.acked - counted)
  {
    var acked: int := s.acked;
    WrapTwice(counted, -acked);
    WrapUnder(s.window, counted - s.acked);
  }

  lemma WrapUnder(w: int, m: int)
    ensures Wrap32(w - Wrap32(m)) == Wrap32(w - m)
  {
    var q := m / TWO_TO_THE_32;
    assert m == q * TWO_TO_THE_32 + Wrap32(m);
    WrapPeriod(w - Wrap32(m), -q);
    assert w - m == w - Wrap32(m) + -q * TWO_TO_THE_32;
  }

  lemma WrapAtMost(v: nat)
    ensures Wrap32(v) <= v && (v < TWO_TO_THE_32 ==> Wrap32(v) == v)
  {
  }

  /** The window check, in the words it is made in, bounds what is not yet acknowledged, however
      often the counter has wrapped. */
  lemma WindowRespected(s: StreamState, counted: nat, chunk: seq<byte>)
    requires s.window == INITIAL_WINDOW && s.sent == Wrap32(counted) && MaySend(s, chunk)
    requires counted - s.acked <= INITIAL_WINDOW
    ensures counted + |chunk| - s.acked <= INITIAL_WINDOW
  {
    AvailableIs(s, counted);
    WrapAtMost(INITIAL_WINDOW + s.acked - counted);
    WrapAtMost(|chunk|);
  }

  lemma SendKeepsStream(p: Peer, q: Peer, id0: uint32, chunk: seq<byte>, at: Ref, id: uint32)
    requires SendOk(p, q, id) && id0 in p.e.streams && Pending(p, id0) == 0 && MaySend(p.e.streams[id0], chunk)
    ensures SendOk(AfterSend(p, id0, chunk, at), q, id)
  {
    hide Chunks, Total;
    EnqueuedMore(p.normalLog, id0, chunk, id);
    var p' := AfterSend(p, id0, chunk, at);
    assert Enqueued(p', id) - Pending(p', id) - Uncounted(p', id) == Enqueued(p, id) - Pending(p, id) - Uncounted(p, id);
    if id == id0 {
      WindowRespected(p.e.streams[id], Enqueued(p, id) - Uncounted(p, id), chunk);
    }
  }

  lemma SendKeepsHalf(p: Peer, q: Peer, pq: seq<Frame>, bytes: seq<byte>, id0: uint32, chunk: seq<byte>, at: Ref)
    requires Half(p, q, pq, bytes) && id0 in p.e.streams && Pending(p, id0) == 0 && MaySend(p.e.streams[id0], chunk)
    ensures Half(AfterSend(p, id0, chunk, at), q, pq, bytes)
  {
    DataFrameIsNormal(id0, chunk);
    EnqueueKeepsPipe(p, AfterSend(p, id0, chunk, at), q.handled + pq, DataFrame(id0, chunk));
    forall id: uint32 ensures SendOk(AfterSend(p, id0, chunk, at), q, id) && RecvOk(AfterSend(p, id0, chunk, at), id) {
      assert SendOk(p, q, id) && RecvOk(p, id);
      SendKeepsStream(p, q, id0, chunk, at, id);
    }
  }

  lemma LateSendKeepsStream(p: Peer, q: Peer, id0: uint32, chunk: seq<byte>, at: Ref, id: uint32)
    requires SendOk(p, q, id) && id0 in p.e.streams
    ensures SendOk(AfterLateSend(p, id0, chunk, at), q, id)
  {
    hide Chunks;
    EnqueuedMore(p.normalLog, id0, chunk, id);
    var p' := AfterLateSend(p, id0, chunk, at);
    assert Enqueued(p', id) - Pending(p', id) - Uncounted(p', id) == Enqueued(p, id) - Pending(p, id) - Uncounted(p, id);
  }

  lemma LateSendKeepsHalf(p: Peer, q: Peer, pq: seq<Frame>, bytes: seq<byte>, id0: uint32, chunk: seq<byte>, at: Ref)
    requires Half(p, q, pq, bytes) && id0 in p.e.streams && 0 < |chunk| <= MAX_FRAME_SIZE
    ensures Half(AfterLateSend(p, id0, chunk, at), q, pq, bytes)
  {
    DataFrameIsNormal(id0, chunk);
    EnqueueKeepsPipe(p, AfterLateSend(p, id0, chunk, at), q.handled + pq, DataFrame(id0, chunk));
    forall id: uint32
      ensures SendOk(AfterLateSend(p, id0, chunk, at), q, id) && RecvOk(AfterLateSend(p, id0, chunk, at), id)
    {
      assert SendOk(p, q, id) && RecvOk(p, id);
      LateSendKeepsStream(p, q, id0, chunk, at, id);
    }
  }

  // Filling a buffer: queued frames change, but not in kind or size

  /** `g` is `f`, except that the payload of a data frame may be another of the same size. */
  predicate Twin(f: Frame, g: Frame) {
    f == g || (f.kind == TYPE_DATA && g == f.(payload := g.payload) && |g.payload| == |f.payload|)
  }

  predicate Twins(fs: seq<Frame>, gs: seq<Frame>) {
    |fs| == |gs| && forall k :: 0 <= k < |fs| ==> Twin(fs[k], gs[k])
  }

  lemma {:induction false} TwinChunks(fs: seq<Frame>, gs: seq<Frame>, id: uint32)
    requires Twins(fs, gs)
    ensures SameSizes(Chunks(fs, id), Chunks(gs, id)) && Total(Chunks(fs, id)) == Total(Chunks(gs, id))
    decreases |fs|
  {
    hide Twin;
    if fs != [] {
      var k := |fs| - 1;
      TwinChunks(fs[..k], gs[..k], id);
      TwinSnoc(fs[..k], fs[k], gs[..k], gs[k], id);
      assert fs == fs[..k] + [fs[k]] && gs == gs[..k] + [gs[k]];
    }
  }

  lemma TwinSnoc(fs: seq<Frame>, f: Frame, gs: seq<Frame>, g: Frame, id: uint32)
    requires SameSizes(Chunks(fs, id), Chunks(gs, id)) && Total(Chunks(fs, id)) == Total(Chunks(gs, id)) && Twin(f, g)
    ensures SameSizes(Chunks(fs + [f], id), Chunks(gs + [g], id))
    ensures Total(Chunks(fs + [f], id)) == Total(Chunks(gs + [g], id))
  {
    hide Total, Chunks;
    ChunksSnoc(fs, f, id);
    ChunksSnoc(gs, g, id);
    TotalSnoc(Chunks(fs, id), f.payload);
    TotalSnoc(Chunks(gs, id), g.payload);
  }

  predicate SameSizes(a: seq<seq<byte>>, b: seq<seq<byte>>) {
    |a| == |b| && forall k :: 0 <= k < |a| ==> |a[k]| == |b[k]|
  }

  lemma FilledLog(p: Peer, emitted: seq<Frame>, b: nat, data: seq<byte>)
    requires Pipe(p, emitted)
    ensures Pipe(AfterFill(p, b, data), emitted) && Twins(p.normalLog, AfterFill(p, b, data).normalLog)
    ensures Out(p) == |Only(emitted, NormalPriority)| && Out(AfterFill(p, b, data)) == Out(p)
  {
    hide Only, Twin, Refilled;
    var before, queue := Only(emitted, NormalPriority), RefilledQueue(p.e.normal, QueueRefs(p), b, data);
    assert p.normalLog[..Out(p)] == before;
    RefilledAreTwins(p.e.normal, QueueRefs(p), b, data);
    TwinsAppend(before, p.e.normal, queue);
  }

  lemma RefilledAreTwins(queue: seq<Frame>, refs: seq<Ref>, b: nat, data: seq<byte>)
    ensures Twins(queue, RefilledQueue(queue, refs, b, data))
  {
  }

  lemma TwinsAppend(before: seq<Frame>, fs: seq<Frame>, gs: seq<Frame>)
    requires Twins(fs, gs)
    ensures Twins(before + fs, before + gs)
  {
  }

  lemma TwinsMember(fs: seq<Frame>, gs: seq<Frame>, g: Frame) returns (f: Frame)
    requires Twins(fs, gs) && g in gs
    ensures f in fs && Twin(f, g)
  {
    var k :| 0 <= k < |gs| && gs[k] == g;
    f := fs[k];
    assert Twin(fs[k], gs[k]);
  }

  lemma TwinsKeep(fs: seq<Frame>, gs: seq<Frame>, f: Frame)
    requires Twins(fs, gs) && f.kind != TYPE_DATA
    ensures f in fs <==> f in gs
  {
    if f in fs {
      var k :| 0 <= k < |fs| && fs[k] == f;
      assert Twin(fs[k], gs[k]);
    }
    if f in gs {
      var g := TwinsMember(fs, gs, f);
    }
  }

  lemma FillKeepsStream(p: Peer, q: Peer, b: nat, data: seq<byte>, id: uint32)
    requires SendOk(p, q, id) && RecvOk(p, id) && Twins(p.normalLog, AfterFill(p, b, data).normalLog)
    ensures SendOk(AfterFill(p, b, data), q, id) && RecvOk(AfterFill(p, b, data), id)
  {
    hide Chunks, Total, MaxAck, Subsequence, Accepted, Ended;
    TwinChunks(p.normalLog, AfterFill(p, b, data).normalLog, id);
  }

  lemma FillKeepsHalf(p: Peer, q: Peer, pq: seq<Frame>, bytes: seq<byte>, b: nat, data: seq<byte>)
    requires Half(p, q, pq, bytes)
    ensures Half(AfterFill(p, b, data), q, pq, bytes)
  {
    var p' := AfterFill(p, b, data);
    FilledLog(p, q.handled + pq, b, data);
    TwinsKeep(p.normalLog, p'.normalLog, PongFrame(0));
    forall g | g in p'.normalLog ensures NormalFrame(g) {
      var f := TwinsMember(p.normalLog, p'.normalLog, g);
    }
    forall id: uint32 ensures SendOk(p', q, id) && RecvOk(p', id) {
      assert SendOk(p, q, id) && RecvOk(p, id);
      FillKeepsStream(p, q, b, data, id);
    }
  }

  lemma GivingUpKeepsStream(p: Peer, q: Peer, id0: uint32, id: uint32)
    requires SendOk(p, q, id) && RecvOk(p, id) && id0 in p.e.streams
    ensures SendOk(AfterGivingUp(p, id0), q, id) && RecvOk(AfterGivingUp(p, id0), id)
  {
  }

  lemma GivingUpKeepsHalf(p: Peer, q: Peer, pq: seq<Frame>, bytes: seq<byte>, id0: uint32)
    requires Half(p, q, pq, bytes) && id0 in p.e.streams
    ensures Half(AfterGivingUp(p, id0), q, pq, bytes)
  {
    forall id: uint32 ensures SendOk(AfterGivingUp(p, id0), q, id) && RecvOk(AfterGivingUp(p, id0), id) {
      GivingUpKeepsStream(p, q, id0, id);
    }
  }

  lemma PingKeepsStream(p: Peer, q: Peer, id: uint32)
    requires SendOk(p, q, id) && RecvOk(p, id)
    ensures SendOk(AfterPing(p), q, id) && RecvOk(AfterPing(p), id)
  {
  }

  lemma PingKeepsHalf(p: Peer, q: Peer, pq: seq<Frame>, bytes: seq<byte>)
    requires Half(p, q, pq, bytes)
    ensures Half(AfterPing(p), q, pq, bytes)
  {
    PingIsLow();
    EnqueueKeepsPipe(p, AfterPing(p), q.handled + pq, PingFrame());
    forall id: uint32 ensures SendOk(AfterPing(p), q, id) && RecvOk(AfterPing(p), id) {
      PingKeepsStream(p, q, id);
    }
  }

  lemma CountKeepsSending(p: Peer, q: Peer, id0: uint32, id: uint32)
    requires SendOk(p, q, id) && id0 in p.e.streams
    ensures SendOk(AfterCount(p, id0), q, id)
  {
    hide Chunks, Total, Wrap32;
    if id == id0 {
      WrapTwice(Enqueued(p, id) - Pending(p, id) - Uncounted(p, id), Pending(p, id));
    }
  }

  lemma CountKeepsReceiving(p: Peer, id0: uint32, id: uint32)
    requires RecvOk(p, id) && id0 in p.e.streams
    ensures RecvOk(AfterCount(p, id0), id)
  {
    hide Chunks, Total, Accepted, Ended, Subsequence, Wrap32;
  }

  lemma CountKeepsHalf(p: Peer, q: Peer, pq: seq<Frame>, bytes: seq<byte>, id0: uint32)
    requires Half(p, q, pq, bytes) && id0 in p.e.streams
    ensures Half(AfterCount(p, id0), q, pq, bytes)
  {
    forall id: uint32 ensures SendOk(AfterCount(p, id0), q, id) && RecvOk(AfterCount(p, id0), id) {
      CountKeepsSending(p, q, id0, id);
      CountKeepsReceiving(p, id0, id);
    }
  }

  lemma ReadKeepsStream(p: Peer, q: Peer, id0: uint32, room: nat, id: uint32)
    requires SendOk(p, q, id) && RecvOk(p, id) && id0 in p.e.streams && p.e.streams[id0].inbox != []
    ensures SendOk(AfterRead(p, id0, room), q, id) && RecvOk(AfterRead(p, id0, room), id)
  {
  }

  lemma ReadKeepsHalf(p: Peer, q: Peer, pq: seq<Frame>, bytes: seq<byte>, id0: uint32, room: nat)
    requires Half(p, q, pq, bytes) && id0 in p.e.streams && p.e.streams[id0].inbox != []
    ensures Half(AfterRead(p, id0, room), q, pq, bytes)
  {
    forall id: uint32 ensures SendOk(AfterRead(p, id0, room), q, id) && RecvOk(AfterRead(p, id0, room), id) {
      ReadKeepsStream(p, q, id0, room, id);
    }
  }

  lemma CloseKeepsSending(p: Peer, q: Peer, id0: uint32, told: bool, id: uint32)
    requires SendOk(p, q, id) && id0 in p.e.streams
    ensures SendOk(AfterClose(p, id0, told), q, id)
  {
    CloseLeavesSending(p, id0, told, id);
    SameSendingOk(p, AfterClose(p, id0, told), q, id);
  }

  lemma CloseLeavesSending(p: Peer, id0: uint32, told: bool, id: uint32)
    requires id0 in p.e.streams
    ensures SameSending(p, AfterClose(p, id0, told), id)
  {
    hide Chunks;
    ChunksSnoc(p.normalLog, CloseFrame(id0), id);
  }

  lemma CloseKeepsReceiving(p: Peer, id0: uint32, told: bool, id: uint32)
    requires RecvOk(p, id) && id0 in p.e.streams
    ensures RecvOk(AfterClose(p, id0, told), id)
  {
  }

  lemma CloseKeepsHalf(p: Peer, q: Peer, pq: seq<Frame>, bytes: seq<byte>, id0: uint32, told: bool)
    requires Half(p, q, pq, bytes) && id0 in p.e.streams
    ensures Half(AfterClose(p, id0, told), q, pq, bytes)
  {
    ControlFramesAreNormal(id0);
    if told {
      EnqueueKeepsPipe(p, AfterClose(p, id0, told), q.handled + pq, CloseFrame(id0));
    }
    forall id: uint32 ensures SendOk(AfterClose(p, id0, told), q, id) && RecvOk(AfterClose(p, id0, told), id) {
      CloseKeepsSending(p, q, id0, told, id);
      CloseKeepsReceiving(p, id0, told, id);
    }
  }

  lemma EmitKeepsStream(p: Peer, q: Peer, c: Priority, id: uint32)
    requires SendOk(p, q, id) && RecvOk(p, id) && Queue(p.e, c) != []
    ensures SendOk(AfterEmit(p, c), q, id) && RecvOk(AfterEmit(p, c), id)
  {
  }

  lemma EmitKeepsHalf(p: Peer, q: Peer, pq: seq<Frame>, bytes: seq<byte>, c: Priority)
    requires Half(p, q, pq, bytes) && Queue(p.e, c) != []
    ensures var f := Queue(p.e, c)[0];
            Half(AfterEmit(p, c), q, pq + [f], bytes + FrameBytes(f))
  {
    var f := Queue(p.e, c)[0];
    EmitKeepsPipe(p, q.handled + pq, c);
    Assoc(q.handled, pq, [f]);
    EncodeAllAppend(pq, f);
    forall id: uint32 ensures SendOk(AfterEmit(p, c), q, id) && RecvOk(AfterEmit(p, c), id) {
      EmitKeepsStream(p, q, c, id);
    }
  }

  // Receiving a frame

  /** A frame on the wire is one that its sender has logged. */
  lemma WireMember(p: Peer, q: Peer, pq: seq<Frame>, bytes: seq<byte>, f: Frame)
    requires Half(p, q, pq, bytes) && f in q.handled + pq
    ensures AckFrame(f, p) || NormalFrame(f) || f == PingFrame()
    ensures Valid(f)
  {
    PingIsLow();
    PipeMember(p, q.handled + pq, f);
  }

  /** What `ReadFrame` returns is the head of the frames on the wire, and it leaves the rest. */
  lemma ReceivesHead(fs: seq<Frame>)
    requires forall f :: f in fs ==> Valid(f)
    requires ReadFrom(EncodeAll(fs)).Ok?
    ensures fs != [] && var (f, k) := ReadFrom(EncodeAll(fs)).value;
                        f == fs[0] && k <= |EncodeAll(fs)| && EncodeAll(fs)[k..] == EncodeAll(fs[1..])
  {
    if fs != [] {
      ReadBack(fs[0], EncodeAll(fs[1..]));
      PrefixOfAppend(FrameBytes(fs[0]), EncodeAll(fs[1..]));
    }
  }

  lemma AddedOne(s: seq<Frame>, f: Frame)
    ensures Added(s, s + [f]) == [f] && Added(s, s) == []
  {
  }

  /** Only a frame that is queued is logged. */
  lemma TriedLogs(p: Peer, p': Peer, g: Frame, cfg: Config)
    requires SameQueues(p'.e, TrySend(p.e, g, cfg)) && p'.lowLog == p.lowLog
    requires p'.highLog == p.highLog + Added(p.e.high, p'.e.high)
    requires p'.normalLog == p.normalLog + Added(p.e.normal, p'.e.normal)
    requires PriorityOf(g) != LowPriority
    ensures p'.highLog == p.highLog || (PriorityOf(g) == HighPriority && p'.highLog == p.highLog + [g])
    ensures p'.normalLog == p.normalLog || (PriorityOf(g) == NormalPriority && p'.normalLog == p.normalLog + [g])
    ensures forall emitted :: Pipe(p, emitted) ==> Pipe(p', emitted)
  {
    AddedOne(p.e.high, g);
    AddedOne(p.e.normal, g);
    forall emitted | Pipe(p, emitted) ensures Pipe(p', emitted) {
      if HasRoom(p.e, g, cfg) {
        EnqueueKeepsPipe(p, p', emitted, g);
      }
    }
  }

  /** The answer a handler gives, if any. */
  function Answer(p: Peer, f: Frame, cfg: Config): Option<Frame>
    requires Wf(p.e)
  {
    if f.kind == TYPE_DATA then
      if f.streamID !in p.e.open then Some(ResetFrame(f.streamID, "stream not found"))
      else if |p.e.streams[f.streamID].inbox| >= cfg.recvCap then None
      else Some(NewAckFrame(f.streamID, Wrap32(p.e.streams[f.streamID].received + |f.payload|), INITIAL_WINDOW))
    else if f.kind == TYPE_PING then Some(PongFrame(f.streamID))
    else None
  }

  /** The frames that a receiver of a Ztp session can get, when streams are not reused. */
  predicate Expected(p: Peer, f: Frame) {
    if f.kind == TYPE_STREAM_OPEN then f.streamID !in p.e.streams
    else f.kind == TYPE_ACK || f == PingFrame()
         || ((f.kind == TYPE_DATA ==> f.payload != []) &&
             (f.kind == TYPE_DATA || f.kind == TYPE_STREAM_CLOSE || f.kind == TYPE_RESET) && f.streamID in p.e.streams)
  }

  lemma AnswerIsTried(p: Peer, f: Frame, cfg: Config)
    requires Wf(p.e) && Expected(p, f) && Answer(p, f, cfg).Some?
    ensures SameQueues(Handle(p.e, f, cfg), TrySend(p.e, Answer(p, f, cfg).value, cfg))
  {
  }

  lemma NothingElseIsAnswered(p: Peer, f: Frame, cfg: Config)
    requires Wf(p.e) && Expected(p, f) && Answer(p, f, cfg).None?
    ensures SameQueues(Handle(p.e, f, cfg), p.e)
  {
  }

  /** The normal-priority answers: a reset of an unknown stream, and the answer to a ping. */
  predicate NormalAnswer(p: Peer, f: Frame, g: Frame) {
    || (f.kind == TYPE_DATA && f.streamID !in p.e.open && g == ResetFrame(f.streamID, "stream not found"))
    || (f == PingFrame() && g == PongFrame(0))
  }

  /** The queues and logs after a frame is handled. */
  lemma HandleKeepsPipe(p: Peer, f: Frame, cfg: Config)
    requires Wf(p.e) && Expected(p, f)
    ensures var p' := AfterHandle(p, f, cfg);
            && (forall emitted :: Pipe(p, emitted) ==> Pipe(p', emitted))
            && p'.lowLog == p.lowLog
            && (p'.highLog == p.highLog
                || (f.kind == TYPE_DATA && f.streamID in p.e.open && Answer(p, f, cfg).Some?
                    && p'.highLog == p.highLog + [Answer(p, f, cfg).value]))
            && (p'.normalLog == p.normalLog
                || (Answer(p, f, cfg).Some? && NormalAnswer(p, f, Answer(p, f, cfg).value)
                    && p'.normalLog == p.normalLog + [Answer(p, f, cfg).value]))
  {
    var p' := AfterHandle(p, f, cfg);
    ControlFramesAreNormal(f.streamID);
    PingIsLow();
    match Answer(p, f, cfg)
    case Some(g) =>
      AnswerIsTried(p, f, cfg);
      TriedLogs(p, p', g, cfg);
    case None =>
      NothingElseIsAnswered(p, f, cfg);
      assert p'.highLog == p.highLog && p'.normalLog == p.normalLog;
  }

  lemma HandleKeepsChunks(p: Peer, f: Frame, cfg: Config, id: uint32)
    requires Wf(p.e) && Expected(p, f)
    ensures Chunks(AfterHandle(p, f, cfg).normalLog, id) == Chunks(p.normalLog, id)
  {
    HandleKeepsPipe(p, f, cfg);
    ChunksSnoc(p.normalLog, ResetFrame(f.streamID, "stream not found"), id);
    ChunksSnoc(p.normalLog, PongFrame(0), id);
  }

  lemma DataStreams(p: Peer, f: Frame, cfg: Config)
    requires Wf(p.e) && f.kind == TYPE_DATA
    ensures var p' := AfterHandle(p, f, cfg);
            && p'.pending == p.pending && p'.uncounted == p.uncounted && p'.e.open == p.e.open
            && p'.handled == p.handled + [f]
            && p'.e.streams == if Fits(p.e, f, cfg)
                               then p.e.streams[f.streamID := Deliver(p.e.streams[f.streamID], f.payload)]
                               else p.e.streams
  {
    if Fits(p.e, f, cfg) {
      AfterDelivery(p, f, cfg);
    } else {
      AfterSkip(p, f, cfg);
    }
  }

  lemma SameCounters(p: Peer, p': Peer, f: Frame, id: uint32)
    requires p'.pending == p.pending && p'.uncounted == p.uncounted && p'.e.open == p.e.open
    requires Chunks(p'.normalLog, id) == Chunks(p.normalLog, id) && p'.handled == p.handled + [f] && AckOf(f, id) == 0
    requires p'.e.streams == p.e.streams
             || (f.streamID in p.e.streams
                 && p'.e.streams == p.e.streams[f.streamID := Deliver(p.e.streams[f.streamID], f.payload)])
    ensures SameSending(p, p', id)
  {
    MaxAckSnoc(p.handled, f, id);
  }

  lemma DataKeepsCounters(p: Peer, f: Frame, cfg: Config, id: uint32)
    requires Wf(p.e) && Expected(p, f) && f.kind == TYPE_DATA
    ensures SameSending(p, AfterHandle(p, f, cfg), id)
  {
    HandleKeepsChunks(p, f, cfg, id);
    DataStreams(p, f, cfg);
    SameCounters(p, AfterHandle(p, f, cfg), f, id);
  }

  /** What a frame without data changes of the counters of stream `id`: nothing, unless it opens it. */
  lemma ControlStreams(e: Endpoint, f: Frame, cfg: Config, id: uint32)
    requires Wf(e) && f.kind != TYPE_DATA && f.kind != TYPE_ACK && (f.kind == TYPE_STREAM_OPEN ==> f.streamID != id)
    ensures var e' := Handle(e, f, cfg);
            && (id in e.streams <==> id in e'.streams) && (id in e'.open ==> id in e.open)
            && (id in e.streams ==>
                  var s, s' := e.streams[id], e'.streams[id];
                  s'.sent == s.sent && s'.acked == s.acked && s'.window == s.window)
  {
  }

  lemma ControlKeepsCounters(p: Peer, f: Frame, cfg: Config, id: uint32)
    requires Wf(p.e) && Expected(p, f) && f.kind != TYPE_DATA && f.kind != TYPE_ACK
    requires f.kind == TYPE_STREAM_OPEN ==> f.streamID != id
    ensures SameSending(p, AfterHandle(p, f, cfg), id)
  {
    HandleKeepsChunks(p, f, cfg, id);
    OtherHistories(p, f, cfg);
    ControlStreams(p.e, f, cfg, id);
    MaxAckSnoc(p.handled, f, id);
  }

  /** An acknowledgement says no more than was delivered, of a stream that exists. */
  predicate SoundAck(f: Frame, p: Peer, q: Peer) {
    f == PongFrame(0) || (AckFrame(f, q) && Total(Delivered(q, f.streamID)) <= Enqueued(p, f.streamID))
  }

  /** `p'` is `p` after acknowledgement `f`, as its streams see it. */
  predicate HasTakenAck(p: Peer, p': Peer, f: Frame)
    requires DecodeAckPayload(f.payload).Some?
  {
    && p'.pending == p.pending && p'.uncounted == p.uncounted && p'.handled == p.handled + [f]
    && p'.e.open == p.e.open
    && var (acked, window) := DecodeAckPayload(f.payload).value;
       p'.e.streams == if f.streamID in p.e.open && f.streamID in p.e.streams
                       then p.e.streams[f.streamID := TakeAck(p.e.streams[f.streamID], acked, window)]
                       else p.e.streams
  }

  lemma AfterAck(p: Peer, f: Frame, cfg: Config)
    requires Wf(p.e) && f.kind == TYPE_ACK && DecodeAckPayload(f.payload).Some?
    ensures HasTakenAck(p, AfterHandle(p, f, cfg), f)
  {
  }

  lemma TakenAckKeepsSending(p: Peer, p': Peer, q: Peer, f: Frame, id: uint32)
    requires f.kind == TYPE_ACK && f != PongFrame(0) && SoundAck(f, p, q) && SendOk(p, q, id)
    requires HasTakenAck(p, p', f) && Chunks(p'.normalLog, id) == Chunks(p.normalLog, id)
    ensures SendOk(p', q, id)
  {
    MaxAckSnoc(p.handled, f, id);
  }

  lemma PongKeepsSending(p: Peer, f: Frame, cfg: Config, id: uint32)
    requires Wf(p.e) && f == PongFrame(0)
    ensures SameSending(p, AfterHandle(p, f, cfg), id)
  {
    HandleKeepsChunks(p, f, cfg, id);
    MaxAckSnoc(p.handled, f, id);
    PingIsLow();
    OtherHistories(p, f, cfg);
  }

  lemma AckKeepsSending(p: Peer, q: Peer, f: Frame, cfg: Config, id: uint32)
    requires Wf(p.e) && f.kind == TYPE_ACK && SoundAck(f, p, q) && SendOk(p, q, id)
    ensures SendOk(AfterHandle(p, f, cfg), q, id)
  {
    if f == PongFrame(0) {
      PongKeepsSending(p, f, cfg, id);
      SameSendingOk(p, AfterHandle(p, f, cfg), q, id);
    } else {
      HandleKeepsChunks(p, f, cfg, id);
      AfterAck(p, f, cfg);
      TakenAckKeepsSending(p, AfterHandle(p, f, cfg), q, f, id);
    }
  }

  lemma OpenedSending(p: Peer, q: Peer, f: Frame, cfg: Config)
    requires Wf(p.e) && Expected(p, f) && f.kind == TYPE_STREAM_OPEN && SendOk(p, q, f.streamID)
    ensures SendOk(AfterHandle(p, f, cfg), q, f.streamID)
  {
    HandleKeepsChunks(p, f, cfg, f.streamID);
    MaxAckSnoc(p.handled, f, f.streamID);
  }

  /** A frame that arrives leaves the sending side of every stream in order; an acknowledgement
      does so because it acknowledges no more than was delivered. */
  lemma HandleKeepsSending(p: Peer, q: Peer, f: Frame, cfg: Config, id: uint32)
    requires Wf(p.e) && Expected(p, f) && SendOk(p, q, id)
    requires f.kind == TYPE_ACK ==> SoundAck(f, p, q)
    ensures SendOk(AfterHandle(p, f, cfg), q, id)
  {
    if f.kind == TYPE_ACK {
      AckKeepsSending(p, q, f, cfg, id);
    } else if f.kind == TYPE_STREAM_OPEN && f.streamID == id {
      OpenedSending(p, q, f, cfg);
    } else {
      if f.kind == TYPE_DATA {
        DataKeepsCounters(p, f, cfg, id);
      } else {
        ControlKeepsCounters(p, f, cfg, id);
      }
      SameSendingOk(p, AfterHandle(p, f, cfg), q, id);
    }
  }

  // The receiving side of one stream

  predicate SameReceiving(p: Peer, p': Peer, id: uint32) {
    && Delivered(p', id) == Delivered(p, id) && p'.closedHere == p.closedHere
    && (id in p.slow <==> id in p'.slow)
    && (id in p.e.streams <==> id in p'.e.streams) && (id in p.e.open <==> id in p'.e.open)
    && (id in p.e.streams ==> p'.e.streams[id].received == p.e.streams[id].received)
  }

  lemma HandleOtherStream(p: Peer, f: Frame, cfg: Config, id: uint32)
    requires Wf(p.e) && Expected(p, f) && (f.streamID != id || f.kind == TYPE_ACK || f.kind == TYPE_PING)
    ensures SameReceiving(p, AfterHandle(p, f, cfg), id)
  {
    if f.kind == TYPE_DATA {
      DataStreams(p, f, cfg);
      DataHistories(p, f, cfg, id);
    } else {
      OtherHistories(p, f, cfg);
      OtherStreams(p, f, cfg, id);
    }
  }

  lemma DataHistories(p: Peer, f: Frame, cfg: Config, id: uint32)
    requires Wf(p.e) && f.kind == TYPE_DATA && f.streamID != id
    ensures var p' := AfterHandle(p, f, cfg);
            && Delivered(p', id) == Delivered(p, id) && p'.closedHere == p.closedHere
            && (id in p.slow <==> id in p'.slow)
  {
  }

  lemma OtherHistories(p: Peer, f: Frame, cfg: Config)
    requires Wf(p.e) && f.kind != TYPE_DATA
    ensures var p' := AfterHandle(p, f, cfg);
            && p'.delivered == p.delivered && p'.slow == p.slow && p'.closedHere == p.closedHere
            && p'.pending == p.pending && p'.uncounted == p.uncounted && p'.handled == p.handled + [f]
            && p'.e == Handle(p.e, f, cfg)
  {
  }

  lemma OtherStreams(p: Peer, f: Frame, cfg: Config, id: uint32)
    requires Wf(p.e) && Expected(p, f) && f.kind != TYPE_DATA
    requires f.streamID != id || f.kind == TYPE_ACK || f.kind == TYPE_PING
    ensures var e, e' := p.e, Handle(p.e, f, cfg);
            && (id in e.streams <==> id in e'.streams) && (id in e.open <==> id in e'.open)
            && (id in e.streams ==> e'.streams[id].received == e.streams[id].received)
  {
  }

  lemma UnrelatedFrame(p: Peer, p': Peer, f: Frame, id: uint32)
    requires RecvOk(p, id) && SameReceiving(p, p', id) && p'.handled == p.handled + [f]
    requires f.streamID != id || f.kind == TYPE_ACK || f.kind == TYPE_PING
    ensures RecvOk(p', id)
  {
    ChunksSnoc(p.handled, f, id);
    AcceptedSnoc(p.handled, f, id);
  }

  /** `p'` is `p` after payload `f` has been handled without being delivered. */
  predicate HasSkipped(p: Peer, p': Peer, f: Frame) {
    && p'.delivered == p.delivered && p'.handled == p.handled + [f] && p'.closedHere == p.closedHere
    && p'.e.open == p.e.open && p'.e.streams == p.e.streams
    && p'.slow == if f.streamID in p.e.open then p.slow + {f.streamID} else p.slow
  }

  lemma AfterSkip(p: Peer, f: Frame, cfg: Config)
    requires Wf(p.e) && f.kind == TYPE_DATA && !Fits(p.e, f, cfg)
    ensures HasSkipped(p, AfterHandle(p, f, cfg), f)
    ensures var p' := AfterHandle(p, f, cfg); p'.pending == p.pending && p'.uncounted == p.uncounted
  {
  }

  lemma SkippedPayload(p: Peer, p': Peer, f: Frame)
    requires RecvOk(p, f.streamID) && f.kind == TYPE_DATA && f.streamID in p.e.streams && HasSkipped(p, p', f)
    requires f.payload != []
    ensures RecvOk(p', f.streamID)
  {
    TotalSnoc(Chunks(p.handled, f.streamID), f.payload);
    SubsequenceTotal(Delivered(p, f.streamID), Chunks(p.handled, f.streamID));
    ChunksSnoc(p.handled, f, f.streamID);
    AcceptedSnoc(p.handled, f, f.streamID);
    SubsequenceSnoc(Delivered(p, f.streamID), Chunks(p.handled, f.streamID), f.payload);
  }

  /** `p'` is `p` after payload `f` has gone into its receive channel. */
  predicate HasDelivered(p: Peer, p': Peer, f: Frame)
    requires f.streamID in p.e.streams
  {
    && p'.delivered == p.delivered[f.streamID := Delivered(p, f.streamID) + [f.payload]]
    && p'.handled == p.handled + [f] && p'.slow == p.slow && p'.closedHere == p.closedHere
    && p'.e.open == p.e.open
    && p'.e.streams == p.e.streams[f.streamID := Deliver(p.e.streams[f.streamID], f.payload)]
  }

  lemma AfterDelivery(p: Peer, f: Frame, cfg: Config)
    requires Wf(p.e) && Fits(p.e, f, cfg)
    ensures HasDelivered(p, AfterHandle(p, f, cfg), f)
    ensures var p' := AfterHandle(p, f, cfg); p'.pending == p.pending && p'.uncounted == p.uncounted
  {
  }

  lemma DeliveredTotal(p: Peer, p': Peer, f: Frame)
    requires RecvOk(p, f.streamID) && f.streamID in p.e.streams && HasDelivered(p, p', f)
    ensures var t := Total(Delivered(p, f.streamID)) + |f.payload|;
            Total(Delivered(p', f.streamID)) == t && p'.e.streams[f.streamID].received == Wrap32(t)
  {
    var d := Delivered(p, f.streamID);
    TotalSnoc(d, f.payload);
    WrapTwice(Total(d), |f.payload|);
  }

  lemma DeliveredPayload(p: Peer, p': Peer, f: Frame)
    requires RecvOk(p, f.streamID) && f.streamID in p.e.streams && f.streamID in p.e.open
    requires f.kind == TYPE_DATA && HasDelivered(p, p', f)
    ensures RecvOk(p', f.streamID)
  {
    var id := f.streamID;
    DeliveredTotal(p, p', f);
    TotalSnoc(Chunks(p.handled, id), f.payload);
    ChunksSnoc(p.handled, f, id);
    AcceptedSnoc(p.handled, f, id);
    SubsequenceSnoc(Delivered(p, id), Chunks(p.handled, id), f.payload);
  }

  lemma OpenedOrEnded(p: Peer, f: Frame, cfg: Config)
    requires Wf(p.e) && Expected(p, f) && RecvOk(p, f.streamID)
    requires f.kind == TYPE_STREAM_OPEN || f.kind == TYPE_STREAM_CLOSE || f.kind == TYPE_RESET
    ensures RecvOk(AfterHandle(p, f, cfg), f.streamID)
  {
    ChunksSnoc(p.handled, f, f.streamID);
    AcceptedSnoc(p.handled, f, f.streamID);
    if f.kind == TYPE_STREAM_OPEN {
      SubsequenceTotal(Delivered(p, f.streamID), []);
    }
  }

  lemma HandleKeepsReceiving(p: Peer, f: Frame, cfg: Config, id: uint32)
    requires Wf(p.e) && Expected(p, f) && RecvOk(p, id)
    ensures RecvOk(AfterHandle(p, f, cfg), id)
  {
    if f.streamID != id || f.kind == TYPE_ACK || f.kind == TYPE_PING {
      HandleOtherStream(p, f, cfg, id);
      UnrelatedFrame(p, AfterHandle(p, f, cfg), f, id);
    } else if f.kind != TYPE_DATA {
      OpenedOrEnded(p, f, cfg);
    } else if Fits(p.e, f, cfg) {
      AfterDelivery(p, f, cfg);
      DeliveredPayload(p, AfterHandle(p, f, cfg), f);
    } else {
      AfterSkip(p, f, cfg);
      SkippedPayload(p, AfterHandle(p, f, cfg), f);
    }
  }

  // Delivery only grows, and so what was acknowledged stays delivered

  lemma HandleDeliversMore(p: Peer, f: Frame, cfg: Config, id: uint32)
    requires Wf(p.e) && Expected(p, f) && RecvOk(p, id)
    ensures Total(Delivered(p, id)) <= Total(Delivered(AfterHandle(p, f, cfg), id))
  {
    if f.streamID == id && Fits(p.e, f, cfg) {
      AfterDelivery(p, f, cfg);
      DeliveredTotal(p, AfterHandle(p, f, cfg), f);
    }
  }

  lemma AnswerAcknowledgesDelivered(p: Peer, p': Peer, f: Frame, cfg: Config)
    requires Wf(p.e) && RecvOk(p, f.streamID) && Fits(p.e, f, cfg) && HasDelivered(p, p', f)
    ensures AckFrame(Answer(p, f, cfg).value, p')
  {
    hide RecvOk;
    DeliveredTotal(p, p', f);
    NewAckIsAck(p', f.streamID, p'.e.streams[f.streamID].received);
  }

  lemma HandleKeepsLogs(p: Peer, f: Frame, cfg: Config)
    requires Wf(p.e) && Expected(p, f) && AllNormal(p.normalLog) && AllAck(p.highLog, p)
    requires forall id: uint32 :: RecvOk(p, id)
    ensures AllNormal(AfterHandle(p, f, cfg).normalLog) && AllAck(AfterHandle(p, f, cfg).highLog, AfterHandle(p, f, cfg))
  {
    var p' := AfterHandle(p, f, cfg);
    HandleKeepsPipe(p, f, cfg);
    ControlFramesAreNormal(f.streamID);
    PingIsLow();
    forall g | g in p.highLog ensures AckFrame(g, p') {
      assert AckFrame(g, p) && RecvOk(p, g.streamID);
      HandleDeliversMore(p, f, cfg, g.streamID);
    }
    if p'.highLog != p.highLog {
      assert RecvOk(p, f.streamID);
      AfterDelivery(p, f, cfg);
      AnswerAcknowledgesDelivered(p, p', f, cfg);
    }
  }

  lemma HandleKeepsWf(e: Endpoint, f: Frame, cfg: Config)
    requires Wf(e) && 1 <= f.kind <= 6
    requires f.kind == TYPE_ACK && f != PongFrame(0) ==> DecodeAckPayload(f.payload).Some?
    ensures Wf(Handle(e, f, cfg))
    ensures Handle(e, f, cfg).failed <==> e.failed || f == PongFrame(0)
  {
    PingIsLow();
  }

  lemma HandleKeepsPings(p: Peer, f: Frame, cfg: Config)
    requires Wf(p.e) && Expected(p, f) && PingsOk(p)
    requires f.kind == TYPE_ACK && f != PongFrame(0) ==> DecodeAckPayload(f.payload).Some?
    ensures PingsOk(AfterHandle(p, f, cfg))
  {
    HandleKeepsWf(p.e, f, cfg);
    HandleKeepsPipe(p, f, cfg);
  }

  lemma HandleKeepsHalf(p: Peer, q: Peer, pq: seq<Frame>, bytes: seq<byte>, f: Frame, cfg: Config)
    requires Half(p, q, pq, bytes) && Expected(p, f) && (f.kind == TYPE_ACK ==> SoundAck(f, p, q))
    ensures Half(AfterHandle(p, f, cfg), q, pq, bytes)
  {
    hide Handle;
    HandleKeepsWf(p.e, f, cfg);
    HandleKeepsPings(p, f, cfg);
    HandleKeepsPipe(p, f, cfg);
    HandleKeepsLogs(p, f, cfg);
    forall id: uint32 ensures SendOk(AfterHandle(p, f, cfg), q, id) && RecvOk(AfterHandle(p, f, cfg), id) {
      assert SendOk(p, q, id) && RecvOk(p, id);
      HandleKeepsSending(p, q, f, cfg, id);
      HandleKeepsReceiving(p, f, cfg, id);
    }
  }
}
