/** Runs that show where two Ztp sessions do not do what one would expect: a ping that ends the
    session that sent it, a payload that takes its size out of the window, a stream that is worn out,
    and bytes that change after they have been written. */
module ZtpExamples {
  import opened Bytes
  import opened ZtpFrame
  import opened ZtpProtocol
  import opened ZtpRun
  import opened ZtpInvariant
  import opened ZtpReach
  import opened ZtpBuffers
  import opened ZtpResults

  function With(n: Net, atX: bool, p: Peer, q: Peer): Net {
    if atX then n.(x := p, y := q) else n.(x := q, y := p)
  }

  function Last(states: seq<Net>): Net
    requires states != []
  {
    states[|states| - 1]
  }

  predicate QuietWires(n: Net) {
    n.xy == n.yx == [] && n.xyBytes == n.yxBytes == []
  }

  lemma Extend(states: seq<Net>, events: seq<(bool, Event)>, cfg: Config, n: Net, atX: bool, ev: Event)
    requires Run(states, events, cfg) && Step(Last(states), n, atX, ev, cfg)
    ensures Run(states + [n], events + [(atX, ev)], cfg) && Last(states + [n]) == n
  {
    var ss, es := states + [n], events + [(atX, ev)];
    forall i | 0 <= i < |es| ensures Step(ss[i], ss[i + 1], es[i].0, es[i].1, cfg) {
      if i < |events| {
        assert Step(states[i], states[i + 1], events[i].0, events[i].1, cfg);
      }
    }
  }

  /** A step of one end that touches nothing else. */
  lemma Locally(states: seq<Net>, events: seq<(bool, Event)>, cfg: Config, p: Peer, atX: bool, ev: Event)
    returns (ss: seq<Net>, es: seq<(bool, Event)>)
    requires Run(states, events, cfg)
    requires var n := Last(states); Step(n, With(n, atX, p, End(n, !atX)), atX, ev, cfg)
    ensures Run(ss, es, cfg) && Last(ss) == With(Last(states), atX, p, End(Last(states), !atX))
    ensures es == events + [(atX, ev)]
  {
    ss, es := states + [With(Last(states), atX, p, End(Last(states), !atX))], events + [(atX, ev)];
    Extend(states, events, cfg, Last(ss), atX, ev);
  }

  /** `n` after end `atX` has put the head of queue `c` on the wire. */
  function InFlight(n: Net, atX: bool, c: Priority): Net
    requires Queue(End(n, atX).e, c) != []
  {
    var f, p := Queue(End(n, atX).e, c)[0], AfterEmit(End(n, atX), c);
    if atX then n.(x := p, xy := [f], xyBytes := FrameBytes(f)) else n.(y := p, yx := [f], yxBytes := FrameBytes(f))
  }

  function Arrived(n: Net, atX: bool, c: Priority, cfg: Config): Net
    requires Queue(End(n, atX).e, c) != [] && Wf(End(n, !atX).e)
  {
    With(n, atX, AfterEmit(End(n, atX), c), AfterHandle(End(n, !atX), Queue(End(n, atX).e, c)[0], cfg))
  }

  lemma EmitIsStep(n: Net, atX: bool, c: Priority, cfg: Config)
    requires QuietWires(n) && Queue(End(n, atX).e, c) != []
    ensures Step(n, InFlight(n, atX, c), atX, Emitted(c), cfg)
  {
    AppendNothing(FrameBytes(Queue(End(n, atX).e, c)[0]));
  }

  lemma ReceiveIsStep(n: Net, atX: bool, c: Priority, cfg: Config)
    requires QuietWires(n) && Queue(End(n, atX).e, c) != [] && Valid(Queue(End(n, atX).e, c)[0])
    requires Wf(End(n, !atX).e)
    ensures Step(InFlight(n, atX, c), Arrived(n, atX, c, cfg), !atX, Received, cfg)
  {
    var f := Queue(End(n, atX).e, c)[0];
    ReadBack(f, []);
    AppendNothing(FrameBytes(f));
    assert FrameBytes(f)[|FrameBytes(f)|..] == [];
    assert [f][1..] == [];
  }

  /** A frame leaves one end, crosses the wire and is handled by the other. */
  lemma Carry(states: seq<Net>, events: seq<(bool, Event)>, cfg: Config, atX: bool, c: Priority)
    returns (ss: seq<Net>, es: seq<(bool, Event)>)
    requires Run(states, events, cfg) && QuietWires(Last(states))
    requires var e := End(Last(states), atX).e; Queue(e, c) != [] && Valid(Queue(e, c)[0])
    requires Wf(End(Last(states), !atX).e)
    ensures Run(ss, es, cfg) && Last(ss) == Arrived(Last(states), atX, c, cfg) && QuietWires(Last(ss))
    ensures es == events + [(atX, Emitted(c)), (!atX, Received)]
  {
    var n := Last(states);
    EmitIsStep(n, atX, c, cfg);
    Extend(states, events, cfg, InFlight(n, atX, c), atX, Emitted(c));
    ReceiveIsStep(n, atX, c, cfg);
    ss, es := states + [InFlight(n, atX, c)], events + [(atX, Emitted(c))];
    Extend(ss, es, cfg, Arrived(n, atX, c, cfg), !atX, Received);
    ss, es := ss + [Arrived(n, atX, c, cfg)], es + [(!atX, Received)];
    assert es == events + [(atX, Emitted(c)), (!atX, Received)];
  }

  lemma StartRun(cfg: Config)
    ensures Run([START], [], cfg) && QuietWires(START)
  {
  }

  /** Whatever the sizes of the queues: one ping, answered, ends the session that sent it. */
  lemma PingEndsSession(cfg: Config) returns (states: seq<Net>, events: seq<(bool, Event)>)
    requires cfg.sendCap > 0
    ensures Run(states, events, cfg)
    ensures events == [(true, Pinged), (true, Emitted(LowPriority)), (false, Received),
                       (false, Emitted(NormalPriority)), (true, Received)]
    ensures Last(states).x.e.failed
  {
    hide Run, Step, Arrived, AfterPing;
    StartRun(cfg);
    PingIsQueued(cfg);
    states, events := Locally([START], [], cfg, AfterPing(FreshPeer), true, Pinged);
    PingIsReturned(Last(states), cfg);
    states, events := Carry(states, events, cfg, true, LowPriority);
    states, events := Carry(states, events, cfg, false, NormalPriority);
  }

  lemma PingIsQueued(cfg: Config)
    requires cfg.sendCap > 0
    ensures Step(START, With(START, true, AfterPing(FreshPeer), FreshPeer), true, Pinged, cfg)
    ensures AfterPing(FreshPeer).e == FreshPeer.e.(low := [PingFrame()]) && Valid(PingFrame())
  {
    PingIsLow();
  }

  lemma PingIsReturned(n: Net, cfg: Config)
    requires n.x.e == FreshPeer.e.(low := [PingFrame()]) && n.y == FreshPeer && cfg.sendCap > 0
    ensures var m := Arrived(n, true, LowPriority, cfg);
            && Queue(m.y.e, NormalPriority) == [PongFrame(0)] && Valid(PongFrame(0)) && Wf(m.x.e)
            && Arrived(m, false, NormalPriority, cfg).x.e.failed
  {
    PingIsAnswered(FreshPeer, cfg);
  }

  lemma PingIsAnswered(q: Peer, cfg: Config)
    requires Wf(q.e) && |q.e.normal| < cfg.sendCap
    ensures AfterHandle(q, PingFrame(), cfg).e == q.e.(normal := q.e.normal + [PongFrame(0)])
  {
    PingIsLow();
  }

  // A stream that carries one byte at a time

  const LAST_WORD: uint32 := 0xFFFF_FFFF

  /** The largest word that acknowledges `k` bytes or fewer. */
  function AckedOf(k: nat): uint32 {
    Min(k, LAST_WORD)
  }

  /** Stream 1 is open at both ends and idle; `k` bytes of it have gone from `x` to `y` and have been
      acknowledged, and `held` of them are in the channel of `y`.  Buffer 0 of `x` holds one byte. */
  predicate Carried(n: Net, k: nat, held: nat) {
    QuietWires(n) && Sends(n.x, k) && Takes(n.y, k, held)
  }

  predicate Sends(p: Peer, k: nat) {
    && Wf(p.e) && p.e.normal == p.e.high == [] && 1 in p.e.open && Pending(p, 1) == Uncounted(p, 1) == 0
    && p.e.streams[1] == NewStream.(sent := Wrap32(k), acked := AckedOf(k)) && OneByte(p.memory)
  }

  predicate Takes(p: Peer, k: nat, held: nat) {
    && Wf(p.e) && p.e.normal == p.e.high == [] && 1 in p.e.open
    && p.e.streams[1].received == Wrap32(k) && |p.e.streams[1].inbox| == held && !p.e.streams[1].isClosed
  }

  predicate OneByte(memory: map<nat, seq<byte>>) {
    0 in memory && memory[0] == [0]
  }

  lemma OneByteHolds(memory: map<nat, seq<byte>>)
    requires OneByte(memory)
    ensures Holds(memory, Of(0, 0), [0])
  {
  }

  lemma OpenOne(cfg: Config) returns (states: seq<Net>, events: seq<(bool, Event)>)
    requires cfg.sendCap > 0 && cfg.maxStreams > 0
    ensures Run(states, events, cfg) && Carried(Last(states), 0, 0)
    ensures Last(states).x.written == Last(states).x.normalLog == [OpenFrame(1)] && Last(states).x.refs == [Own]
    ensures Last(states).y.delivered == map[]
  {
    StartRun(cfg);
    ControlFramesAreNormal(1);
    states, events := Locally([START], [], cfg, AfterOpen(FreshPeer), true, Opened);
    states, events := Carry(states, events, cfg, true, NormalPriority);
    states, events := Locally(states, events, cfg, AfterFill(Last(states).x, 0, [0]), true, Filled(0, [0]));
  }

  /** `x` after sending, counting and emitting one byte. */
  function Wrote(p: Peer): Peer
    requires 1 in p.e.streams && p.e.normal == []
  {
    AfterEmit(AfterCount(AfterSend(p, 1, [0], Of(0, 0)), 1), NormalPriority)
  }

  lemma WindowOfCarried(k: nat)
    requires k <= LAST_WORD + INITIAL_WINDOW
    ensures Available(NewStream.(sent := Wrap32(k), acked := AckedOf(k))) == INITIAL_WINDOW - (k - AckedOf(k))
  {
    WindowLeft(NewStream.(sent := Wrap32(k), acked := AckedOf(k)), k, 0);
  }

  lemma SendOne(states: seq<Net>, events: seq<(bool, Event)>, cfg: Config, k: nat, held: nat)
    returns (ss: seq<Net>, es: seq<(bool, Event)>)
    requires Run(states, events, cfg) && Carried(Last(states), k, held) && cfg.sendCap > 0
    requires k < LAST_WORD + INITIAL_WINDOW
    ensures Run(ss, es, cfg) && QuietWires(Last(ss))
    ensures var n := Last(states); Last(ss) == n.(x := Wrote(n.x), y := AfterHandle(n.y, DataFrame(1, [0]), cfg))
  {
    var n := Last(states);
    DataFrameIsNormal(1, [0]);
    WindowOfCarried(k);
    OneByteHolds(n.x.memory);
    ss, es := Locally(states, events, cfg, AfterSend(n.x, 1, [0], Of(0, 0)), true, Sent(1, [0], Of(0, 0)));
    ss, es := Locally(ss, es, cfg, AfterCount(AfterSend(n.x, 1, [0], Of(0, 0)), 1), true, Counted(1));
    ss, es := Carry(ss, es, cfg, true, NormalPriority);
  }

  /** `y` has room: it delivers the byte and acknowledges all it has. */
  lemma ByteDelivered(e: Endpoint, cfg: Config, k: nat)
    requires Wf(e) && 1 in e.open && e.streams[1].received == Wrap32(k)
    requires |e.streams[1].inbox| < cfg.recvCap && e.high == e.normal == [] && cfg.sendCap > 0
    ensures var s := e.streams[1];
            HandleData(e, DataFrame(1, [0]), cfg)
            == e.(streams := e.streams[1 := s.(inbox := s.inbox + [[0]], received := Wrap32(k + 1))],
                  high := [NewAckFrame(1, Wrap32(k + 1), INITIAL_WINDOW)])
  {
    AckFlags(Wrap32(k + 1));
    WrapTwice(k, 1);
    AppendNothing([NewAckFrame(1, Wrap32(k + 1), INITIAL_WINDOW)]);
  }

  lemma AckFlags(k: uint32)
    ensures PriorityOf(NewAckFrame(1, k, INITIAL_WINDOW)) == HighPriority && Valid(NewAckFrame(1, k, INITIAL_WINDOW))
    ensures DecodeAckPayload(NewAckFrame(1, k, INITIAL_WINDOW).payload) == Some((k, INITIAL_WINDOW))
  {
    AckPayloadRoundTrip(k, INITIAL_WINDOW);
  }

  lemma WroteOne(p: Peer, k: nat)
    requires Wf(p.e) && 1 in p.e.open && p.e.normal == p.e.high == [] && Pending(p, 1) == Uncounted(p, 1) == 0
    requires p.e.streams[1] == NewStream.(sent := Wrap32(k), acked := AckedOf(k))
    ensures var p' := Wrote(p);
            && Wf(p'.e) && p'.e.open == p.e.open && p'.e.normal == p'.e.high == []
            && p'.e.streams[1] == NewStream.(sent := Wrap32(k + 1), acked := AckedOf(k))
            && Pending(p', 1) == Uncounted(p', 1) == 0 && p'.memory == p.memory
  {
    DataFrameIsNormal(1, [0]);
    WrapTwice(k, 1);
  }

  /** The acknowledgement of `k + 1` bytes counts until its word wraps. */
  lemma ByteAcknowledged(e: Endpoint, cfg: Config, k: nat)
    requires Wf(e) && 1 in e.open && k < LAST_WORD + INITIAL_WINDOW
    requires e.streams[1] == NewStream.(sent := Wrap32(k + 1), acked := AckedOf(k))
    ensures HandleAck(e, NewAckFrame(1, Wrap32(k + 1), INITIAL_WINDOW))
            == e.(streams := e.streams[1 := NewStream.(sent := Wrap32(k + 1), acked := AckedOf(k + 1))])
  {
    AckFlags(Wrap32(k + 1));
  }

  /** What the byte and its acknowledgement make of the two ends. */
  lemma ByteCarried(n: Net, cfg: Config, k: nat, held: nat)
    requires Carried(n, k, held) && cfg.sendCap > 0 && held < cfg.recvCap && k < LAST_WORD + INITIAL_WINDOW
    ensures var m := n.(x := Wrote(n.x), y := AfterHandle(n.y, DataFrame(1, [0]), cfg));
            && m.y.e.high != [] && Valid(m.y.e.high[0]) && Wf(m.x.e)
            && Carried(Arrived(m, false, HighPriority, cfg), k + 1, held + 1)
  {
    hide AfterHandle, Wrote, Sends, Takes, AfterEmit, NewAckFrame;
    ByteTaken(n.y, cfg, k, held);
    AckFlags(Wrap32(k + 1));
    ByteSent(n.x, cfg, k);
  }

  lemma ByteTaken(p: Peer, cfg: Config, k: nat, held: nat)
    requires Takes(p, k, held) && cfg.sendCap > 0 && held < cfg.recvCap
    ensures var p' := AfterHandle(p, DataFrame(1, [0]), cfg);
            p'.e.high == [NewAckFrame(1, Wrap32(k + 1), INITIAL_WINDOW)]
            && Takes(AfterEmit(p', HighPriority), k + 1, held + 1)
  {
    ByteDelivered(p.e, cfg, k);
    HandledFrame(p, DataFrame(1, [0]), cfg);
    DataIsHandled(p.e, cfg);
    hide Handle, HandleData, AfterHandle, NewAckFrame;
  }

  lemma ByteSent(p: Peer, cfg: Config, k: nat)
    requires Sends(p, k) && k < LAST_WORD + INITIAL_WINDOW
    ensures Wf(Wrote(p).e)
    ensures Sends(AfterHandle(Wrote(p), NewAckFrame(1, Wrap32(k + 1), INITIAL_WINDOW), cfg), k + 1)
  {
    hide Handle, AfterHandle, Wrote;
    WroteOne(p, k);
    ByteAcknowledged(Wrote(p).e, cfg, k);
    HandledAck(Wrote(p), NewAckFrame(1, Wrap32(k + 1), INITIAL_WINDOW), cfg);
  }

  lemma DataIsHandled(e: Endpoint, cfg: Config)
    requires Wf(e)
    ensures Handle(e, DataFrame(1, [0]), cfg) == HandleData(e, DataFrame(1, [0]), cfg)
  {
  }

  lemma OneMore(states: seq<Net>, events: seq<(bool, Event)>, cfg: Config, k: nat, held: nat)
    returns (ss: seq<Net>, es: seq<(bool, Event)>)
    requires Run(states, events, cfg) && Carried(Last(states), k, held)
    requires cfg.sendCap > 0 && held < cfg.recvCap && k < LAST_WORD + INITIAL_WINDOW
    ensures Run(ss, es, cfg) && Carried(Last(ss), k + 1, held + 1)
  {
    hide Carried, Step, Wrote, AfterHandle, Arrived;
    ss, es := SendOne(states, events, cfg, k, held);
    ByteCarried(Last(states), cfg, k, held);
    ss, es := Carry(ss, es, cfg, false, HighPriority);
  }

  lemma HandledAck(p: Peer, f: Frame, cfg: Config)
    requires Wf(p.e) && f.kind == TYPE_ACK
    ensures var p' := AfterHandle(p, f, cfg);
            p'.e == HandleAck(p.e, f) && p'.pending == p.pending && p'.uncounted == p.uncounted && p'.memory == p.memory
  {
  }

  lemma {:induction false} Fill(cfg: Config, k: nat) returns (states: seq<Net>, events: seq<(bool, Event)>)
    requires cfg.sendCap > 0 && cfg.maxStreams > 0 && k <= cfg.recvCap && k <= LAST_WORD
    ensures Run(states, events, cfg) && Carried(Last(states), k, k)
    decreases k
  {
    if k == 0 {
      states, events := OpenOne(cfg);
    } else {
      states, events := Fill(cfg, k - 1);
      states, events := OneMore(states, events, cfg, k - 1, k - 1);
    }
  }

  /** Whatever the size of the receive channel: one byte more than it holds, and the stream is idle
      with a byte of its window missing. */
  lemma FullChannelCostsWindow(cfg: Config) returns (states: seq<Net>, events: seq<(bool, Event)>)
    requires cfg.sendCap > 0 && cfg.maxStreams > 0 && cfg.recvCap < LAST_WORD
    ensures Run(states, events, cfg)
    ensures var n := Last(states);
            && QuietWires(n) && n.x.e.normal == n.y.e.high == [] && 1 in n.x.e.open && 1 in n.y.e.open
            && Pending(n.x, 1) == Uncounted(n.x, 1) == 0
            && 1 in n.y.slow && 1 in n.x.e.streams && Available(n.x.e.streams[1]) == INITIAL_WINDOW - 1
  {
    states, events := Fill(cfg, cfg.recvCap);
    var n := Last(states);
    states, events := SendOne(states, events, cfg, cfg.recvCap, cfg.recvCap);
    WroteOne(n.x, cfg.recvCap);
    ByteLost(n.y, cfg);
    WindowAfterLoss(cfg.recvCap);
  }

  lemma WindowAfterLoss(k: nat)
    requires k < LAST_WORD
    ensures Available(NewStream.(sent := Wrap32(k + 1), acked := AckedOf(k))) == INITIAL_WINDOW - 1
  {
    WindowLeft(NewStream.(sent := Wrap32(k + 1), acked := k), k + 1, 0);
  }

  lemma ByteLost(q: Peer, cfg: Config)
    requires Wf(q.e) && 1 in q.e.open && |q.e.streams[1].inbox| >= cfg.recvCap
    ensures var q' := AfterHandle(q, DataFrame(1, [0]), cfg); q'.e == q.e && 1 in q'.slow
  {
  }

  lemma ReadOne(states: seq<Net>, events: seq<(bool, Event)>, cfg: Config, k: nat)
    returns (ss: seq<Net>, es: seq<(bool, Event)>)
    requires Run(states, events, cfg) && Carried(Last(states), k, 1)
    ensures Run(ss, es, cfg) && Carried(Last(ss), k, 0)
  {
    ss, es := Locally(states, events, cfg, AfterRead(Last(states).y, 1, 1), false, AppRead(1, 1));
  }

  /** A run in which stream 1 carries `k` bytes, each delivered, read and acknowledged. */
  lemma {:induction false} CarryBytes(cfg: Config, k: nat) returns (states: seq<Net>, events: seq<(bool, Event)>)
    requires cfg.sendCap > 0 && cfg.maxStreams > 0 && cfg.recvCap > 0 && k <= LAST_WORD + INITIAL_WINDOW
    ensures Run(states, events, cfg) && Carried(Last(states), k, 0)
    decreases k
  {
    if k == 0 {
      states, events := OpenOne(cfg);
    } else {
      states, events := CarryBytes(cfg, k - 1);
      states, events := OneMore(states, events, cfg, k - 1, 0);
      states, events := ReadOne(states, events, cfg, k);
    }
  }

  /** The end of a stream: after 2^32 - 1 + 65535 bytes, all delivered, read and acknowledged, it is
      open at both ends, nothing is under way, and no byte passes the window check any more. */
  lemma StreamWornOut(cfg: Config) returns (states: seq<Net>, events: seq<(bool, Event)>)
    requires cfg.sendCap > 0 && cfg.maxStreams > 0 && cfg.recvCap > 0
    ensures Run(states, events, cfg) && Carried(Last(states), TWO_TO_THE_32 - 1 + INITIAL_WINDOW, 0)
    ensures 1 in Last(states).x.e.streams && Available(Last(states).x.e.streams[1]) == 0
    ensures forall chunk :: !MaySend(Last(states).x.e.streams[1], chunk)
  {
    states, events := CarryBytes(cfg, LAST_WORD + INITIAL_WINDOW);
    WindowOfCarried(LAST_WORD + INITIAL_WINDOW);
  }

  // A caller that uses its buffer again

  /** The frame that is queued, when its buffer holds another byte. */
  function Overwritten(p: Peer): Peer {
    AfterFill(AfterSend(p, 1, [0], Of(0, 0)), 0, [1])
  }

  lemma OverwrittenQueue(p: Peer)
    requires p.e.normal == [] && p.written == p.normalLog == [OpenFrame(1)] && p.refs == [Own]
    ensures Overwritten(p).e == p.e.(normal := [DataFrame(1, [1])])
    ensures Overwritten(p).written == [OpenFrame(1), DataFrame(1, [0])]
  {
    DataFrameIsNormal(1, [0]);
    var q := AfterSend(p, 1, [0], Of(0, 0));
    assert Out(q) == 1 && QueueRefs(q) == [Of(0, 0)];
    assert Refilled(DataFrame(1, [0]), Of(0, 0), 0, [1]) == DataFrame(1, [1]);
    assert RefilledQueue([DataFrame(1, [0])], [Of(0, 0)], 0, [1]) == [DataFrame(1, [1])];
  }

  /** A caller writes a byte, and `Write` has returned; it fills its buffer for the next write; and the
      peer gets the new byte in place of the one that was written. */
  lemma ReusedBuffer(cfg: Config) returns (states: seq<Net>, events: seq<(bool, Event)>)
    requires cfg.sendCap > 0 && cfg.maxStreams > 0 && cfg.recvCap > 0
    ensures Run(states, events, cfg)
    ensures var n := Last(states); Written(n.x, 1) == [[0]] && Delivered(n.y, 1) == [[1]]
  {
    states, events := OpenOne(cfg);
    var n := Last(states);
    DataFrameIsNormal(1, [0]);
    DataFrameIsNormal(1, [1]);
    WindowOfCarried(0);
    OneByteHolds(n.x.memory);
    states, events := Locally(states, events, cfg, AfterSend(n.x, 1, [0], Of(0, 0)), true, Sent(1, [0], Of(0, 0)));
    OverwrittenQueue(n.x);
    states, events := Locally(states, events, cfg, Overwritten(n.x), true, Filled(0, [1]));
    states, events := Carry(states, events, cfg, true, NormalPriority);
    ChunksSnoc([OpenFrame(1)], DataFrame(1, [0]), 1);
    assert [OpenFrame(1)] + [DataFrame(1, [0])] == [OpenFrame(1), DataFrame(1, [0])];
  }

  // Both ends number their streams from 1

  /** `b` has opened stream `id`, and its open frame reaches `a`.  The answer of `a` takes the stream
      away from `b` exactly when `a` has a stream of that id and room for the answer. */
  lemma SameIdIsReset(a: Endpoint, b: Endpoint, id: uint32, cfg: Config)
    requires Wf(a) && Wf(b) && id in b.open
    ensures var answer := Added(a.normal, Handle(a, OpenFrame(id), cfg).normal);
            id in a.open && |a.normal| < cfg.sendCap
            <==> answer != [] && id !in Handle(b, answer[0], cfg).open
  {
    assert |"stream already exists"| == 21;
    AddedOne(a.normal, ResetFrame(id, "stream already exists"));
  }
}
