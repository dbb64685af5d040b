/** The methods of ZtpSession take the steps of ZtpRun.  Each method below makes one call of the
    session that is end `x` of a net, or fills a buffer as its caller may, and returns the net after
    the step that this is. */
module ZtpSteps {
  import opened Bytes
  import opened ZtpFrame
  import opened ZtpProtocol
  import opened ZtpRun
  import opened ZtpReach
  import opened ZtpBuffers
  import opened ZtpSession

  /** The buffers that callers have, by the numbers that the net knows them by. */
  type Heap = map<nat, array<byte>>

  /** What `q` refers to is what `r` says. */
  predicate Refers(q: Queued, r: Ref, heap: Heap) {
    match q
    case Made(_) => r.Own?
    case Sliced(_, data, from, to) =>
      from <= to <= data.Length && r.Of? && r.from == from && r.buffer in heap && heap[r.buffer] == data
  }

  predicate AllRefer(qs: seq<Queued>, refs: seq<Ref>, heap: Heap) {
    |qs| <= |refs| && forall k :: 0 <= k < |qs| ==> Refers(qs[k], refs[|refs| - |qs| + k], heap)
  }

  ghost predicate Holding(memory: map<nat, seq<byte>>, heap: Heap)
    reads heap.Values
  {
    && memory.Keys == heap.Keys
    && (forall b :: b in heap ==> memory[b] == heap[b][..])
    && (forall b, c :: b in heap && c in heap && heap[b] == heap[c] ==> b == c)
  }

  ghost predicate IsX(s: Session, n: Net, heap: Heap)
    reads s, s.known.Values, Buffers(s.normalPriorityCh), heap.Values
  {
    && s.Valid() && s.View() == n.x.e
    && |n.x.normalLog| == |n.x.refs| && AllRefer(s.normalPriorityCh, n.x.refs, heap)
    && Holding(n.x.memory, heap)
  }

  /** `stream` is a stream of session `s`. */
  ghost predicate Has(s: Session, stream: Stream)
    reads s
  {
    stream.id in s.known && s.known[stream.id] == stream
  }

  lemma MoreRefer(qs: seq<Queued>, refs: seq<Ref>, heap: Heap, q: Queued, r: Ref)
    requires AllRefer(qs, refs, heap) && Refers(q, r, heap)
    ensures AllRefer(qs + [q], refs + [r], heap)
  {
    hide Refers;
  }

  lemma FewerRefer(qs: seq<Queued>, refs: seq<Ref>, heap: Heap)
    requires AllRefer(qs, refs, heap) && qs != []
    ensures AllRefer(qs[1..], refs, heap)
  {
    hide Refers;
  }

  lemma WrappedRefer(qs: seq<Queued>, refs: seq<Ref>, heap: Heap, fs: seq<Frame>)
    requires AllRefer(qs, refs, heap)
    ensures AllRefer(qs + Wrapped(fs), refs + Owns(|fs|), heap)
  {
  }

  method OpenSteps(s: Session, ghost n: Net, ghost heap: Heap) returns (stream: Option<Stream>, ghost n': Net)
    requires IsX(s, n, heap) && s.nextStream + 2 < TWO_TO_THE_32
    modifies s
    ensures stream.Some? <==> n.x.e.next <= s.config.maxStreams && HasRoom(n.x.e, OpenFrame(n.x.e.next), s.config)
    ensures stream.Some? ==> SideStep(n, n', Opened, s.config) && IsX(s, n', heap)
  {
    hide Contents;
    stream := s.Open();
    n' := n.(x := AfterOpen(n.x));
    assert forall b :: b in heap ==> unchanged(heap[b]);
    if stream.Some? {
      MoreRefer(old(s.normalPriorityCh), n.x.refs, heap, Made(OpenFrame(n.x.e.next)), Own);
    }
  }

  /** The window check and the send that follows it, of a slice of buffer `b`. */
  method SendSteps(s: Session, stream: Stream, data: array<byte>, from: nat, to: nat,
                   ghost n: Net, ghost heap: Heap, ghost b: nat)
    returns (sent: bool, ghost n': Net)
    requires IsX(s, n, heap) && Has(s, stream) && Pending(n.x, stream.id) == 0
    requires b in heap && heap[b] == data && from < to <= data.Length && to - from <= MAX_FRAME_SIZE
    modifies s`highPriorityCh, s`normalPriorityCh, s`lowPriorityCh, s`log
    ensures sent <==> MaySend(n.x.e.streams[stream.id], data[from..to])
                      && HasRoom(n.x.e, DataFrame(stream.id, data[from..to]), s.config)
    ensures sent ==> SideStep(n, n', Sent(stream.id, data[from..to], Of(b, from)), s.config) && IsX(s, n', heap)
    ensures !sent ==> IsX(s, n, heap)
  {
    hide Contents;
    var fits;
    assert n.x.e.streams[stream.id] == stream.State();
    assert Holds(n.x.memory, Of(b, from), data[from..to]);
    fits, sent := s.SendIfFits(stream, data, from, to);
    n' := n.(x := AfterSend(n.x, stream.id, data[from..to], Of(b, from)));
    assert forall b :: b in heap ==> unchanged(heap[b]);
    MoreRefer(old(s.normalPriorityCh), n.x.refs, heap, Sliced(stream.id, data, from, to), Of(b, from));
  }

  /** The count that follows the send. */
  method CountSteps(s: Session, stream: Stream, size: nat, ghost n: Net, ghost heap: Heap) returns (ghost n': Net)
    requires IsX(s, n, heap) && Has(s, stream) && stream.Counted() && Pending(n.x, stream.id) == size > 0
    modifies stream`sentBytes, stream`sentTotal
    ensures SideStep(n, n', Counted(stream.id), s.config) && IsX(s, n', heap)
  {
    hide Contents;
    assert n.x.e.streams[stream.id] == stream.State();
    s.Count(stream, size);
    n' := n.(x := AfterCount(n.x, stream.id));
    assert forall b :: b in heap ==> unchanged(heap[b]);
  }

  /** A caller fills its buffer again, whatever of it is still queued. */
  method FillSteps(s: Session, buffer: array<byte>, data: seq<byte>, ghost n: Net, ghost heap: Heap, ghost b: nat)
    returns (ghost n': Net)
    requires IsX(s, n, heap) && b in heap && heap[b] == buffer && |data| == buffer.Length
    modifies buffer
    ensures SideStep(n, n', Filled(b, data), s.config) && IsX(s, n', heap)
  {
    hide Contents, RefilledQueue, AllRefer, FrameIn, SideStep, AfterFill, QueueRefs;
    ghost var qs := s.normalPriorityCh;
    ContentsIn(qs, n.x.refs, n.x.memory, heap);
    QueueIsShort(qs, n.x.refs, heap);
    RefsOfQueue(n.x, qs);
    FilledIsStep(n, b, data, s.config);
    CopyTo(buffer, 0, data);
    assert buffer[..] == data;
    n' := n.(x := AfterFill(n.x, b, data));
    FilledContents(qs, n.x.e.normal, n.x.refs, n.x.memory, heap, b, data);
  }

  lemma QueueIsShort(qs: seq<Queued>, refs: seq<Ref>, heap: Heap)
    requires AllRefer(qs, refs, heap)
    ensures |qs| <= |refs|
  {
  }

  lemma PingIsStep(n: Net, cfg: Config)
    requires HasRoom(n.x.e, PingFrame(), cfg)
    ensures var x' := AfterPing(n.x);
            && SideStep(n, n.(x := x'), Pinged, cfg) && x'.e == Enqueue(n.x.e, PingFrame())
            && x'.normalLog == n.x.normalLog && x'.refs == n.x.refs && x'.memory == n.x.memory
  {
  }

  method PingSteps(s: Session, ghost n: Net, ghost heap: Heap) returns (sent: bool, ghost n': Net)
    requires IsX(s, n, heap)
    modifies s`highPriorityCh, s`normalPriorityCh, s`lowPriorityCh, s`log
    ensures sent <==> HasRoom(n.x.e, PingFrame(), s.config)
    ensures sent ==> SideStep(n, n', Pinged, s.config) && IsX(s, n', heap)
    ensures !sent ==> IsX(s, n, heap)
  {
    hide Contents, SideStep, AfterPing, Holding;
    sent := s.Ping();
    n' := n.(x := AfterPing(n.x));
    assert forall b :: b in heap ==> unchanged(heap[b]);
    if sent {
      PingIsStep(n, s.config);
    }
  }

  /** `p` after frames have been put into its queues that bring it to `e`. */
  function WithArrivals(p: Peer, e: Endpoint): Peer {
    var more := Added(p.e.normal, e.normal);
    p.(e := e, highLog := p.highLog + Added(p.e.high, e.high), lowLog := p.lowLog + Added(p.e.low, e.low),
       normalLog := p.normalLog + more, written := p.written + more, refs := p.refs + Owns(|more|))
  }

  function WithEmission(n: Net, c: Priority): Net
    requires Queue(n.x.e, c) != []
  {
    var f := Queue(n.x.e, c)[0];
    n.(x := AfterEmit(n.x, c), xy := n.xy + [f], xyBytes := n.xyBytes + FrameBytes(f))
  }

  lemma EmissionIsStep(n: Net, c: Priority, cfg: Config)
    requires Queue(n.x.e, c) != []
    ensures SideStep(n, WithEmission(n, c), Emitted(c), cfg)
  {
  }

  /** A round of the send loop, from the net `m` that the frames arriving in the meantime make of `n`. */
  method EmitSteps(s: Session, ghost n: Net, ghost heap: Heap)
    returns (frame: Option<Frame>, ghost m: Net, ghost n': Net, ghost c: Priority)
    requires IsX(s, n, heap)
    modifies s`highPriorityCh, s`normalPriorityCh, s`lowPriorityCh
    ensures Longer(n.x.e, m.x.e) && m == n.(x := WithArrivals(n.x, m.x.e))
    ensures frame.Some? ==> SideStep(m, n', Emitted(c), s.config) && IsX(s, n', heap) && n'.xy == n.xy + [frame.value]
    ensures frame.None? ==> IsX(s, m, heap) && m.x.e.high == m.x.e.normal == m.x.e.low == []
  {
    hide Contents, Added, SideStep, Take, Refers;
    ghost var mid, queue;
    frame, c, mid, queue := s.TakeNext();
    m := n.(x := WithArrivals(n.x, mid));
    n' := m;
    if frame.Some? {
      n' := WithEmission(m, c);
      EmissionIsStep(m, c, s.config);
    }
    assert forall b :: b in heap ==> unchanged(heap[b]);
    WrappedRefer(old(s.normalPriorityCh), n.x.refs, heap, Added(n.x.e.normal, mid.normal));
    if queue != [] {
      FewerRefer(queue, m.x.refs, heap);
    }
  }

  /** The head of the incoming bytes is read and handled. */
  method ReceiveSteps(s: Session, ghost n: Net, ghost heap: Heap, frame: Frame, k: nat) returns (ghost n': Net)
    requires IsX(s, n, heap) && Wf(n.x.e) && ReadFrom(n.yxBytes) == Ok((frame, k)) && k <= |n.yxBytes|
    modifies s, s.known.Values
    ensures SideStep(n, n', Received, s.config) && IsX(s, n', heap)
  {
    hide Contents, Handle, Added, ReadFrom;
    s.HandleFrame(frame);
    n' := n.(x := AfterHandle(n.x, frame, s.config), yx := if n.yx == [] then [] else n.yx[1..], yxBytes := n.yxBytes[k..]);
    HandledBuffers(n.x, frame, s.config);
    assert forall b :: b in heap ==> unchanged(heap[b]);
    WrappedRefer(old(s.normalPriorityCh), n.x.refs, heap, Added(n.x.e.normal, n'.x.e.normal));
  }

  method CloseSteps(s: Session, stream: Stream, ghost n: Net, ghost heap: Heap) returns (told: bool, ghost n': Net)
    requires IsX(s, n, heap) && Has(s, stream) && !stream.isClosed
    modifies s`streams, s`highPriorityCh, s`normalPriorityCh, s`lowPriorityCh, s`log, stream`isClosed
    ensures told <==> HasRoom(n.x.e, CloseFrame(stream.id), s.config)
    ensures SideStep(n, n', ClosedHere(stream.id, told), s.config) && IsX(s, n', heap)
  {
    hide Contents, AllRefer, SideStep, AfterClose, Enqueue, Refers, Holding;
    assert n.x.e.streams[stream.id] == stream.State();
    told := s.CloseStream(stream);
    n' := n.(x := AfterClose(n.x, stream.id, told));
    ClosedIsStep(n, stream.id, told, s.config);
    assert forall b :: b in heap ==> unchanged(heap[b]);
    MadeRefer(old(s.normalPriorityCh), n.x.refs, heap, CloseFrame(stream.id));
  }

  lemma ClosedIsStep(n: Net, id: uint32, told: bool, cfg: Config)
    requires id in n.x.e.streams && !n.x.e.streams[id].isClosed
    requires told ==> HasRoom(n.x.e, CloseFrame(id), cfg)
    ensures SideStep(n, n.(x := AfterClose(n.x, id, told)), ClosedHere(id, told), cfg)
    ensures var x' := AfterClose(n.x, id, told);
            var left := n.x.e.(streams := n.x.e.streams[id := n.x.e.streams[id].(isClosed := true)],
                               open := n.x.e.open - {id});
            && x'.e == (if told then Enqueue(left, CloseFrame(id)) else left)
            && |x'.normalLog| - |n.x.normalLog| == |x'.refs| - |n.x.refs|
            && x'.refs == n.x.refs + (if told then [Own] else []) && x'.memory == n.x.memory
  {
  }

  lemma MadeRefer(qs: seq<Queued>, refs: seq<Ref>, heap: Heap, f: Frame)
    requires AllRefer(qs, refs, heap)
    ensures AllRefer(qs + [Made(f)], refs + [Own], heap) && AllRefer(qs + [], refs + [], heap)
  {
    AppendNothing(qs);
    AppendNothing(refs);
    MoreRefer(qs, refs, heap, Made(f), Own);
  }

  /** `Read`, as the session sees it. */
  method ReadStream(s: Session, stream: Stream, p: array<byte>, why: ReadError) returns (count: nat, err: Option<ReadError>)
    requires s.Valid() && Has(s, stream)
    modifies stream`recvCh, p
    ensures s.Valid() && count <= p.Length && stream.id in old(s.States())
    ensures err.Some? ==> count == 0
    ensures var was := old(s.States())[stream.id];
            err.None? <==> !was.isClosed && was.inbox != [] && was.inbox[0] != []
    ensures err.None? ==>
              var was := old(s.States())[stream.id];
              && was.inbox != [] && !was.isClosed && p[..count] == was.inbox[0][..Min(|was.inbox[0]|, p.Length)]
              && s.States() == old(s.States())[stream.id := was.(inbox := was.inbox[1..])]
  {
    ghost var was := s.States();
    assert was[stream.id] == stream.State();
    count, err := stream.Read(p, why);
    if err.None? {
      assert s.States() == was[stream.id := was[stream.id].(inbox := was[stream.id].inbox[1..])];
    }
  }

  /** A read that returns data takes a payload and fills the buffer of its caller. */
  method ReadSteps(s: Session, stream: Stream, p: array<byte>, why: ReadError, ghost n: Net, ghost heap: Heap, ghost b: nat)
    returns (count: nat, err: Option<ReadError>, ghost m: Net, ghost n': Net)
    requires IsX(s, n, heap) && Has(s, stream) && b in heap && heap[b] == p
    modifies stream`recvCh, p
    ensures count <= p.Length
    ensures var was := n.x.e.streams[stream.id]; err.None? <==> !was.isClosed && was.inbox != [] && was.inbox[0] != []
    ensures err.None? ==>
              && SideStep(n, m, AppRead(stream.id, p.Length), s.config)
              && SideStep(m, n', Filled(b, p[..]), s.config) && IsX(s, n', heap)
              && Got(n'.x, stream.id) == Got(n.x, stream.id) + p[..count]
  {
    hide Contents, RefilledQueue, AllRefer, FrameIn, SideStep, AfterRead, AfterFill, QueueRefs, ZtpSession.Session.States;
    ghost var qs := s.normalPriorityCh;
    ContentsIn(qs, n.x.refs, n.x.memory, heap);
    QueueIsShort(qs, n.x.refs, heap);
    RefsOfQueue(n.x, qs);
    count, err := ReadStream(s, stream, p, why);
    m, n' := n, n;
    if err.None? {
      m := n.(x := AfterRead(n.x, stream.id, p.Length));
      n' := m.(x := AfterFill(m.x, b, p[..]));
      ReadIsStep(n, stream.id, p.Length, s.config);
      FilledIsStep(m, b, p[..], s.config);
      FilledContents(qs, n.x.e.normal, n.x.refs, n.x.memory, heap, b, p[..]);
    }
  }

  lemma ReadIsStep(n: Net, id: uint32, room: nat, cfg: Config)
    requires id in n.x.e.streams && n.x.e.streams[id].inbox != [] && !n.x.e.streams[id].isClosed
    ensures SideStep(n, n.(x := AfterRead(n.x, id, room)), AppRead(id, room), cfg)
    ensures var x', s := AfterRead(n.x, id, room), n.x.e.streams[id];
            && x'.e == n.x.e.(streams := n.x.e.streams[id := s.(inbox := s.inbox[1..])])
            && SameBuffers(n.x, x') && QueueRefs(x') == QueueRefs(n.x)
            && Got(x', id) == Got(n.x, id) + s.inbox[0][..Min(|s.inbox[0]|, room)]
  {
  }

  lemma FilledIsStep(n: Net, b: nat, data: seq<byte>, cfg: Config)
    requires b in n.x.memory ==> |data| == |n.x.memory[b]|
    requires |n.x.e.normal| <= |n.x.normalLog|
    ensures SideStep(n, n.(x := AfterFill(n.x, b, data)), Filled(b, data), cfg)
    ensures var x' := AfterFill(n.x, b, data);
            && x'.e == n.x.e.(normal := RefilledQueue(n.x.e.normal, QueueRefs(n.x), b, data))
            && |x'.normalLog| == |n.x.normalLog| && x'.refs == n.x.refs && x'.memory == n.x.memory[b := data]
            && x'.got == n.x.got
  {
  }

  // Buffers that are filled

  /** The frame that `q` is, by the contents of the buffers. */
  function FrameIn(q: Queued, r: Ref, memory: map<nat, seq<byte>>): Frame {
    match q
    case Made(f) => f
    case Sliced(id, _, from, to) =>
      DataFrame(id, if r.Of? && r.buffer in memory && from <= to <= |memory[r.buffer]|
                    then memory[r.buffer][from..to] else [])
  }

  lemma ContentsIn(qs: seq<Queued>, refs: seq<Ref>, memory: map<nat, seq<byte>>, heap: Heap)
    requires AllRefer(qs, refs, heap) && Holding(memory, heap)
    ensures |Contents(qs)| == |qs|
    ensures forall k :: 0 <= k < |qs| ==> Contents(qs)[k] == FrameIn(qs[k], refs[|refs| - |qs|..][k], memory)
  {
    hide Contents;
    ContentsAt(qs);
    forall k | 0 <= k < |qs| ensures Now(qs[k]) == FrameIn(qs[k], refs[|refs| - |qs|..][k], memory) {
      assert Refers(qs[k], refs[|refs| - |qs| + k], heap);
    }
  }

  lemma FilledFrame(q: Queued, r: Ref, memory: map<nat, seq<byte>>, heap: Heap, b: nat, data: seq<byte>)
    requires Refers(q, r, heap) && memory.Keys == heap.Keys && b in memory && |memory[b]| == |data|
    requires r.Of? ==> |memory[r.buffer]| == heap[r.buffer].Length
    ensures FrameIn(q, r, memory[b := data]) == Refilled(FrameIn(q, r, memory), r, b, data)
  {
  }

  /** Filling buffer `b` changes the frames of the queue, which were `was`, as the machine says. */
  lemma FilledContents(qs: seq<Queued>, was: seq<Frame>, refs: seq<Ref>, memory: map<nat, seq<byte>>, heap: Heap,
                       b: nat, data: seq<byte>)
    requires AllRefer(qs, refs, heap) && b in heap && |data| == heap[b].Length && Holding(memory[b := data], heap)
    requires memory.Keys == heap.Keys && forall c :: c in heap ==> |memory[c]| == heap[c].Length
    requires |was| == |qs| && forall k :: 0 <= k < |qs| ==> was[k] == FrameIn(qs[k], refs[|refs| - |qs|..][k], memory)
    ensures Contents(qs) == RefilledQueue(was, refs[|refs| - |qs|..], b, data)
  {
    hide Contents, Refers, FrameIn, Refilled, Holding;
    ContentsIn(qs, refs, memory[b := data], heap);
    var out := |refs| - |qs|;
    forall k | 0 <= k < |qs| ensures Contents(qs)[k] == Refilled(was[k], refs[out..][k], b, data) {
      assert refs[out..][k] == refs[out + k];
      assert Refers(qs[k], refs[out + k], heap);
      RefIsThere(qs[k], refs[out + k], heap);
      FilledFrame(qs[k], refs[out + k], memory, heap, b, data);
    }
  }

  lemma RefIsThere(q: Queued, r: Ref, heap: Heap)
    requires Refers(q, r, heap)
    ensures r.Of? ==> r.buffer in heap
  {
  }

  lemma RefsOfQueue(p: Peer, qs: seq<Queued>)
    requires |qs| <= |p.refs| == |p.normalLog| && |p.e.normal| == |qs|
    ensures QueueRefs(p) == p.refs[|p.refs| - |qs|..]
  {
  }
}
