/** Two Ztp sessions joined by two byte wires, over all runs: streams opened by one end, writers
    that send and count in separate steps and may give up in between, callers that use their buffers
    again, pings, three send queues, frame handlers, readers and closes, in any order.  The handlers are the functions that
    ZtpSession proves of its methods. */
module ZtpRun {
  import opened Bytes
  import opened ZtpFrame
  import opened ZtpProtocol

  /** One session with its histories: the frames put into each queue, the frames handled, the
      payloads put into each receive channel and what reads returned of them, the streams that lost
      a payload to a full channel, those of which a short read cut a payload, and those closed here.
      `pending` is the size of a chunk that its writer has sent and not yet counted, `uncounted`
      the size of those it never will.

      A data frame does not own its payload: until it is encoded it refers to the buffer of the
      caller of `Write`.  `memory` are those buffers, and the log of the normal queue is kept twice:
      `written` as the frames were when they were queued, `normalLog` as they have been encoded or,
      from `Out` on, are in the queue now.  `refs` says to what each of them refers. */
  datatype Ref = Own | Of(buffer: nat, from: nat)

  datatype Peer = Peer(e: Endpoint, pending: map<uint32, nat>, uncounted: map<uint32, nat>,
                       highLog: seq<Frame>, normalLog: seq<Frame>, lowLog: seq<Frame>, handled: seq<Frame>,
                       delivered: map<uint32, seq<seq<byte>>>, got: map<uint32, seq<byte>>,
                       slow: set<uint32>, cut: set<uint32>, closedHere: set<uint32>,
                       memory: map<nat, seq<byte>>, refs: seq<Ref>, written: seq<Frame>)

  /** `xy` are the frames on their way from `x` to `y`, `xyBytes` the bytes that carry them. */
  datatype Net = Net(x: Peer, y: Peer, xy: seq<Frame>, yx: seq<Frame>, xyBytes: seq<byte>, yxBytes: seq<byte>)

  datatype Event =
    | Opened
    | Sent(id: uint32, chunk: seq<byte>, at: Ref)
    | Counted(id: uint32)
    | GaveUp(id: uint32)
    | SentLate(id: uint32, chunk: seq<byte>, at: Ref)
    | Filled(buffer: nat, data: seq<byte>)
    | Pinged
    | Emitted(priority: Priority)
    | Received
    | AppRead(id: uint32, room: nat)
    | ClosedHere(id: uint32, told: bool)

  function Swap(n: Net): Net {
    Net(n.y, n.x, n.yx, n.xy, n.yxBytes, n.xyBytes)
  }

  function Pending(p: Peer, id: uint32): nat {
    if id in p.pending then p.pending[id] else 0
  }

  function Uncounted(p: Peer, id: uint32): nat {
    if id in p.uncounted then p.uncounted[id] else 0
  }

  function Delivered(p: Peer, id: uint32): seq<seq<byte>> {
    if id in p.delivered then p.delivered[id] else []
  }

  function Got(p: Peer, id: uint32): seq<byte> {
    if id in p.got then p.got[id] else []
  }

  /** The bytes of stream `id` that `p` has put into its queue. */
  function Enqueued(p: Peer, id: uint32): nat {
    Total(Chunks(p.normalLog, id))
  }

  /** The bytes of stream `id` as they were when `p` queued them. */
  function Written(p: Peer, id: uint32): seq<seq<byte>> {
    Chunks(p.written, id)
  }

  // Buffers

  /** How many frames have left the normal queue. */
  function Out(p: Peer): nat {
    if |p.e.normal| <= |p.normalLog| then |p.normalLog| - |p.e.normal| else 0
  }

  /** What the frames in the queue refer to. */
  function QueueRefs(p: Peer): seq<Ref> {
    if Out(p) <= |p.refs| then p.refs[Out(p)..] else []
  }

  /** Reference `r` is to a place that holds `chunk`. */
  predicate Holds(memory: map<nat, seq<byte>>, r: Ref, chunk: seq<byte>) {
    && r.Of? && r.buffer in memory && r.from + |chunk| <= |memory[r.buffer]|
    && memory[r.buffer][r.from..r.from + |chunk|] == chunk
  }

  /** Frame `f` with reference `r` when `data` goes into buffer `b`. */
  function Refilled(f: Frame, r: Ref, b: nat, data: seq<byte>): Frame {
    if r.Of? && r.buffer == b && f.kind == TYPE_DATA && r.from + |f.payload| <= |data|
    then f.(payload := data[r.from..r.from + |f.payload|]) else f
  }

  function RefilledQueue(queue: seq<Frame>, refs: seq<Ref>, b: nat, data: seq<byte>): seq<Frame> {
    seq(|queue|, k requires 0 <= k < |queue| => if k < |refs| then Refilled(queue[k], refs[k], b, data) else queue[k])
  }

  /** The frame at the head of the normal queue refers to a buffer that no longer holds what it did
      when the frame was queued. */
  predicate Spoils(p: Peer) {
    && p.e.normal != [] && QueueRefs(p) != [] && QueueRefs(p)[0].Of? && Out(p) < |p.written|
    && !Holds(p.memory, QueueRefs(p)[0], p.written[Out(p)].payload)
  }

  // Steps of end `x`

  /** Notes that `f` has gone into the normal queue. */
  function Log(p: Peer, f: Frame, r: Ref): Peer {
    p.(normalLog := p.normalLog + [f], written := p.written + [f], refs := p.refs + [r])
  }

  function AfterOpen(p: Peer): Peer {
    Log(p, OpenFrame(p.e.next), Own).(e := OpenStream(p.e))
  }

  function AfterSend(p: Peer, id: uint32, chunk: seq<byte>, at: Ref): Peer {
    Log(p, DataFrame(id, chunk), at).(e := Enqueue(p.e, DataFrame(id, chunk)), pending := p.pending[id := |chunk|])
  }

  /** A caller fills a buffer of its own; every queued frame that refers to it changes. */
  function AfterFill(p: Peer, b: nat, data: seq<byte>): Peer {
    var queue := RefilledQueue(p.e.normal, QueueRefs(p), b, data);
    p.(e := p.e.(normal := queue), normalLog := p.normalLog[..Out(p)] + queue, memory := p.memory[b := data])
  }

  function AfterCount(p: Peer, id: uint32): Peer
    requires id in p.e.streams
  {
    var s := p.e.streams[id];
    p.(e := p.e.(streams := p.e.streams[id := s.(sent := Wrap32(s.sent + Pending(p, id)))]),
       pending := p.pending[id := 0])
  }

  /** The write returns between its send and its count. */
  function AfterGivingUp(p: Peer, id: uint32): Peer {
    p.(pending := p.pending[id := 0], uncounted := p.uncounted[id := Uncounted(p, id) + Pending(p, id)])
  }

  /** The goroutine of a write that has already given up gets its chunk into the queue. */
  function AfterLateSend(p: Peer, id: uint32, chunk: seq<byte>, at: Ref): Peer {
    Log(p, DataFrame(id, chunk), at).(e := Enqueue(p.e, DataFrame(id, chunk)),
                                      uncounted := p.uncounted[id := Uncounted(p, id) + |chunk|])
  }

  function AfterPing(p: Peer): Peer {
    p.(e := Enqueue(p.e, PingFrame()), lowLog := p.lowLog + [PingFrame()])
  }

  function AfterEmit(p: Peer, c: Priority): Peer
    requires Queue(p.e, c) != []
  {
    p.(e := Take(p.e, c))
  }

  /** The payload of `f` finds its stream open, and room in its channel. */
  predicate Fits(e: Endpoint, f: Frame, cfg: Config)
    requires Wf(e)
  {
    f.kind == TYPE_DATA && f.streamID in e.open && |e.streams[f.streamID].inbox| < cfg.recvCap
  }

  /** ... or no room. */
  predicate Overflows(e: Endpoint, f: Frame, cfg: Config)
    requires Wf(e)
  {
    f.kind == TYPE_DATA && f.streamID in e.open && |e.streams[f.streamID].inbox| >= cfg.recvCap
  }

  /** What the frame handler does, with the histories it adds to. */
  function AfterHandle(p: Peer, f: Frame, cfg: Config): Peer
    requires Wf(p.e)
  {
    var e' := Handle(p.e, f, cfg);
    var answers := Added(p.e.normal, e'.normal);
    p.(e := e', handled := p.handled + [f], highLog := p.highLog + Added(p.e.high, e'.high),
       normalLog := p.normalLog + answers, written := p.written + answers, refs := p.refs + Owns(|answers|),
       slow := if Overflows(p.e, f, cfg) then p.slow + {f.streamID} else p.slow,
       delivered := if Fits(p.e, f, cfg) then p.delivered[f.streamID := Delivered(p, f.streamID) + [f.payload]]
                    else p.delivered)
  }

  function Owns(k: nat): seq<Ref> {
    seq(k, i => Own)
  }

  /** `Read` with room for `room` bytes: what does not fit is gone. */
  function AfterRead(p: Peer, id: uint32, room: nat): Peer
    requires id in p.e.streams && p.e.streams[id].inbox != []
  {
    var s := p.e.streams[id];
    var chunk := s.inbox[0];
    p.(e := p.e.(streams := p.e.streams[id := s.(inbox := s.inbox[1..])]),
       got := p.got[id := Got(p, id) + chunk[..Min(|chunk|, room)]],
       cut := if room < |chunk| then p.cut + {id} else p.cut)
  }

  function AfterClose(p: Peer, id: uint32, told: bool): Peer
    requires id in p.e.streams
  {
    var e := p.e.(streams := p.e.streams[id := p.e.streams[id].(isClosed := true)], open := p.e.open - {id});
    (if told then Log(p, CloseFrame(id), Own) else p).(e := if told then Enqueue(e, CloseFrame(id)) else e,
                                                       closedHere := p.closedHere + {id})
  }

  predicate SideStep(n: Net, n': Net, ev: Event, cfg: Config) {
    match ev
    case Opened =>
      && n.x.e.next <= cfg.maxStreams && n.x.e.next + 2 < TWO_TO_THE_32 && HasRoom(n.x.e, OpenFrame(n.x.e.next), cfg)
      && n' == n.(x := AfterOpen(n.x))
    case Sent(id, chunk, at) =>
      && id in n.x.e.streams && Pending(n.x, id) == 0 && MaySend(n.x.e.streams[id], chunk)
      && HasRoom(n.x.e, DataFrame(id, chunk), cfg) && Holds(n.x.memory, at, chunk)
      && n' == n.(x := AfterSend(n.x, id, chunk, at))
    case Counted(id) =>
      id in n.x.e.streams && Pending(n.x, id) > 0 && n' == n.(x := AfterCount(n.x, id))
    case GaveUp(id) =>
      id in n.x.e.streams && Pending(n.x, id) > 0 && n' == n.(x := AfterGivingUp(n.x, id))
    case SentLate(id, chunk, at) =>
      && id in n.x.e.streams && 0 < |chunk| <= MAX_FRAME_SIZE && HasRoom(n.x.e, DataFrame(id, chunk), cfg)
      && Holds(n.x.memory, at, chunk)
      && n' == n.(x := AfterLateSend(n.x, id, chunk, at))
    case Filled(b, data) =>
      (b in n.x.memory ==> |data| == |n.x.memory[b]|) && n' == n.(x := AfterFill(n.x, b, data))
    case Pinged =>
      HasRoom(n.x.e, PingFrame(), cfg) && n' == n.(x := AfterPing(n.x))
    case Emitted(c) =>
      && Queue(n.x.e, c) != []
      && var f := Queue(n.x.e, c)[0];
         n' == n.(x := AfterEmit(n.x, c), xy := n.xy + [f], xyBytes := n.xyBytes + FrameBytes(f))
    case Received =>
      && ReadFrom(n.yxBytes).Ok? && Wf(n.x.e)
      && var (f, k) := ReadFrom(n.yxBytes).value;
         && k <= |n.yxBytes|
         && n' == n.(x := AfterHandle(n.x, f, cfg), yx := if n.yx == [] then [] else n.yx[1..],
                     yxBytes := n.yxBytes[k..])
    case AppRead(id, room) =>
      && id in n.x.e.streams && n.x.e.streams[id].inbox != [] && !n.x.e.streams[id].isClosed
      && n' == n.(x := AfterRead(n.x, id, room))
    case ClosedHere(id, told) =>
      && id in n.x.e.streams && !n.x.e.streams[id].isClosed && (told ==> HasRoom(n.x.e, CloseFrame(id), cfg))
      && n' == n.(x := AfterClose(n.x, id, told))
  }

  /** Either end steps; only `x` opens streams. */
  predicate Step(n: Net, n': Net, atX: bool, ev: Event, cfg: Config) {
    if atX then SideStep(n, n', ev, cfg) else !ev.Opened? && SideStep(Swap(n), Swap(n'), ev, cfg)
  }

  const FreshPeer := Peer(Endpoint(map[], {}, 1, [], [], [], false), map[], map[], [], [], [], [],
                          map[], map[], {}, {}, {}, map[], [], [])

  const START := Net(FreshPeer, FreshPeer, [], [], [], [])

  predicate Run(states: seq<Net>, events: seq<(bool, Event)>, cfg: Config) {
    && |states| == |events| + 1
    && states[0] == START
    && forall i :: 0 <= i < |events| ==> Step(states[i], states[i + 1], events[i].0, events[i].1, cfg)
  }

  /** One end of the net, its peer being the other, and what is on the way from it. */
  function End(n: Net, atX: bool): Peer {
    if atX then n.x else n.y
  }

  function Wire(n: Net, atX: bool): seq<Frame> {
    if atX then n.xy else n.yx
  }

  // Histories seen through one queue or one stream

  /** The frames of priority `p`, in order. */
  function Only(fs: seq<Frame>, p: Priority): seq<Frame> {
    if fs == [] then []
    else Only(fs[..|fs| - 1], p) + (if PriorityOf(fs[|fs| - 1]) == p then [fs[|fs| - 1]] else [])
  }

  predicate Ends(f: Frame, id: uint32) {
    (f.kind == TYPE_STREAM_CLOSE || f.kind == TYPE_RESET) && f.streamID == id
  }

  /** A frame that ends stream `id` is among `fs`. */
  predicate Ended(fs: seq<Frame>, id: uint32) {
    exists i :: 0 <= i < |fs| && Ends(fs[i], id)
  }

  /** The payloads of stream `id` up to the first frame that ends it. */
  function Accepted(fs: seq<Frame>, id: uint32): seq<seq<byte>> {
    if fs == [] then []
    else
      var f, before := fs[|fs| - 1], fs[..|fs| - 1];
      Accepted(before, id)
      + (if f.kind == TYPE_DATA && f.streamID == id && !Ended(before, id) then [f.payload] else [])
  }

  /** The bytes that `f` acknowledges of stream `id`. */
  function AckOf(f: Frame, id: uint32): nat {
    if f.kind == TYPE_ACK && f.streamID == id && DecodeAckPayload(f.payload).Some?
    then DecodeAckPayload(f.payload).value.0 else 0
  }

  /** The largest acknowledgement of stream `id` among `fs`. */
  function MaxAck(fs: seq<Frame>, id: uint32): nat {
    if fs == [] then 0
    else
      var m, a := MaxAck(fs[..|fs| - 1], id), AckOf(fs[|fs| - 1], id);
      if a > m then a else m
  }

  predicate Subsequence(a: seq<seq<byte>>, b: seq<seq<byte>>) {
    if a == [] then true
    else if b == [] then false
    else
      var a0, b0 := a[..|a| - 1], b[..|b| - 1];
      (a[|a| - 1] == b[|b| - 1] && Subsequence(a0, b0)) || Subsequence(a, b0)
  }

  lemma MaxAckSnoc(fs: seq<Frame>, f: Frame, id: uint32)
    ensures var m, a := MaxAck(fs, id), AckOf(f, id); MaxAck(fs + [f], id) == if a > m then a else m
  {
    assert (fs + [f])[..|fs|] == fs;
  }

  lemma OnlySnoc(fs: seq<Frame>, f: Frame, p: Priority)
    ensures PriorityOf(f) == p ==> Only(fs + [f], p) == Only(fs, p) + [f]
    ensures PriorityOf(f) != p ==> Only(fs + [f], p) == Only(fs, p)
  {
    assert (fs + [f])[..|fs|] == fs;
  }

  lemma {:induction false} OnlyAppend(fs: seq<Frame>, gs: seq<Frame>, p: Priority)
    ensures Only(fs + gs, p) == Only(fs, p) + Only(gs, p)
    decreases |gs|
  {
    if gs == [] {
      assert fs + gs == fs;
    } else {
      var init, last := gs[..|gs| - 1], gs[|gs| - 1];
      OnlyAppend(fs, init, p);
      Assoc(fs, init, [last]);
      assert gs == init + [last];
      OnlySnoc(fs + init, last, p);
      Assoc(Only(fs, p), Only(init, p), if PriorityOf(last) == p then [last] else []);
    }
  }

  lemma {:induction false} OnlyHas(fs: seq<Frame>, f: Frame)
    requires f in fs
    ensures f in Only(fs, PriorityOf(f))
    decreases |fs|
  {
    var init, last := fs[..|fs| - 1], fs[|fs| - 1];
    assert fs == init + [last];
    if f != last {
      OnlyHas(init, f);
    }
  }

  lemma {:induction false} OnlyFrom(fs: seq<Frame>, f: Frame, p: Priority)
    requires f in Only(fs, p)
    ensures f in fs && PriorityOf(f) == p
    decreases |fs|
  {
    if fs != [] {
      var init, last := fs[..|fs| - 1], fs[|fs| - 1];
      if f in Only(init, p) {
        OnlyFrom(init, f, p);
      }
    }
  }

  lemma ChunksSnoc(fs: seq<Frame>, f: Frame, id: uint32)
    ensures f.kind == TYPE_DATA && f.streamID == id ==> Chunks(fs + [f], id) == Chunks(fs, id) + [f.payload]
    ensures !(f.kind == TYPE_DATA && f.streamID == id) ==> Chunks(fs + [f], id) == Chunks(fs, id)
  {
    assert (fs + [f])[..|fs|] == fs;
  }

  lemma {:induction false} ChunksAppend(fs: seq<Frame>, gs: seq<Frame>, id: uint32)
    ensures Chunks(fs + gs, id) == Chunks(fs, id) + Chunks(gs, id)
    decreases |gs|
  {
    if gs == [] {
      assert fs + gs == fs;
    } else {
      var init, last := gs[..|gs| - 1], gs[|gs| - 1];
      ChunksAppend(fs, init, id);
      Assoc(fs, init, [last]);
      assert gs == init + [last];
      ChunksSnoc(fs + init, last, id);
      Assoc(Chunks(fs, id), Chunks(init, id), if last.kind == TYPE_DATA && last.streamID == id then [last.payload] else []);
    }
  }

  lemma AcceptedSnoc(fs: seq<Frame>, f: Frame, id: uint32)
    ensures f.kind == TYPE_DATA && f.streamID == id && !Ended(fs, id)
            ==> Accepted(fs + [f], id) == Accepted(fs, id) + [f.payload]
    ensures !(f.kind == TYPE_DATA && f.streamID == id && !Ended(fs, id))
            ==> Accepted(fs + [f], id) == Accepted(fs, id)
    ensures Ended(fs + [f], id) <==> Ended(fs, id) || Ends(f, id)
  {
    assert (fs + [f])[..|fs|] == fs;
    if Ended(fs, id) {
      var i :| 0 <= i < |fs| && Ends(fs[i], id);
      assert Ends((fs + [f])[i], id);
    } else if Ends(f, id) {
      assert Ends((fs + [f])[|fs|], id);
    }
  }

  lemma {:induction false} TotalAppend(a: seq<seq<byte>>, b: seq<seq<byte>>)
    ensures Total(a + b) == Total(a) + Total(b)
    decreases |b|
  {
    if b == [] {
      assert a + b == a;
    } else {
      var init := b[..|b| - 1];
      TotalAppend(a, init);
      assert (a + b)[..|a + b| - 1] == a + init;
    }
  }

  lemma {:induction false} SubsequenceTotal(a: seq<seq<byte>>, b: seq<seq<byte>>)
    requires Subsequence(a, b)
    ensures Total(a) <= Total(b)
    decreases |b|
  {
    if a != [] {
      var a0, b0 := a[..|a| - 1], b[..|b| - 1];
      if a[|a| - 1] == b[|b| - 1] && Subsequence(a0, b0) {
        SubsequenceTotal(a0, b0);
      } else {
        SubsequenceTotal(a, b0);
      }
    }
  }

  lemma SubsequenceSnoc(a: seq<seq<byte>>, b: seq<seq<byte>>, c: seq<byte>)
    requires Subsequence(a, b)
    ensures Subsequence(a + [c], b + [c]) && Subsequence(a, b + [c])
  {
    assert (a + [c])[..|a|] == a && (b + [c])[..|b|] == b;
  }
}
