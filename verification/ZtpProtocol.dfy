/** The state of one end of a Ztp session, as values, and what each frame handler of
    internal/protocol/ztp/session.go does to it.  ZtpSession proves its classes against these
    functions; ZtpRun takes them as the steps of a two-ended machine. */
module ZtpProtocol {
  import opened Bytes
  import opened ZtpFrame

  const INITIAL_WINDOW: uint32 := 65535

  /** A stream's counters, its receive channel and its two closed flags. */
  datatype StreamState = StreamState(sent: uint32, acked: uint32, window: uint32, received: uint32,
                                     inbox: seq<seq<byte>>, isClosed: bool, remoteClosed: bool)

  const NewStream := StreamState(0, 0, INITIAL_WINDOW, 0, [], false, false)

  /** `window - (sent - acked)` in 32-bit words. */
  function Available(s: StreamState): uint32 {
    Wrap32(s.window - Wrap32(s.sent - s.acked))
  }

  /** The window check that `Write` makes before it sends a chunk. */
  predicate MaySend(s: StreamState, chunk: seq<byte>) {
    0 < |chunk| <= MAX_FRAME_SIZE && Wrap32(|chunk|) <= Available(s)
  }

  /** The acknowledgement counts only when it is larger; the window always does. */
  function TakeAck(s: StreamState, acked: uint32, window: uint32): StreamState {
    s.(acked := if acked > s.acked then acked else s.acked, window := window)
  }

  function Deliver(s: StreamState, payload: seq<byte>): StreamState {
    s.(inbox := s.inbox + [payload], received := Wrap32(s.received + |payload|))
  }

  /** Sizes of the send queues and receive channels, and the largest stream id. */
  datatype Config = Config(sendCap: nat, recvCap: nat, maxStreams: uint32)

  /** One end: every stream it has made, the ids registered in its map, the next id to open, its
      three send queues, and whether an error has been raised. */
  datatype Endpoint = Endpoint(streams: map<uint32, StreamState>, open: set<uint32>, next: uint32,
                               high: seq<Frame>, normal: seq<Frame>, low: seq<Frame>, failed: bool)

  predicate Wf(e: Endpoint) {
    e.open <= e.streams.Keys
  }

  datatype Priority = HighPriority | NormalPriority | LowPriority

  function PriorityOf(f: Frame): Priority {
    if f.HasFlag(FLAG_PRIORITY) then HighPriority else if f.HasFlag(FLAG_LOW_PRIORITY) then LowPriority else NormalPriority
  }

  function Queue(e: Endpoint, c: Priority): seq<Frame> {
    match c
    case HighPriority => e.high
    case NormalPriority => e.normal
    case LowPriority => e.low
  }

  function Enqueue(e: Endpoint, f: Frame): Endpoint {
    match PriorityOf(f)
    case HighPriority => e.(high := e.high + [f])
    case NormalPriority => e.(normal := e.normal + [f])
    case LowPriority => e.(low := e.low + [f])
  }

  /** One round of `sendLoop` that takes its frame from queue `c`. */
  function Take(e: Endpoint, c: Priority): Endpoint
    requires Queue(e, c) != []
  {
    match c
    case HighPriority => e.(high := e.high[1..])
    case NormalPriority => e.(normal := e.normal[1..])
    case LowPriority => e.(low := e.low[1..])
  }

  /** The queue of `f` has room. */
  predicate HasRoom(e: Endpoint, f: Frame, cfg: Config) {
    |Queue(e, PriorityOf(f))| < cfg.sendCap
  }

  /** The frames by which a queue has grown. */
  function Added(before: seq<Frame>, after: seq<Frame>): seq<Frame> {
    if |before| < |after| then after[|before|..] else []
  }

  /** `trySendFrame`: drops the frame when its queue is full. */
  function TrySend(e: Endpoint, f: Frame, cfg: Config): Endpoint {
    if HasRoom(e, f, cfg) then Enqueue(e, f) else e
  }

  function Text(s: string): seq<byte> {
    seq(|s|, i requires 0 <= i < |s| => Low(s[i] as int))
  }

  function ResetFrame(id: uint32, reason: string): Frame {
    NewFrame(TYPE_RESET, id, Text(reason))
  }

  function DataFrame(id: uint32, chunk: seq<byte>): Frame {
    NewFrame(TYPE_DATA, id, chunk)
  }

  function OpenFrame(id: uint32): Frame {
    NewFrame(TYPE_STREAM_OPEN, id, [])
  }

  function CloseFrame(id: uint32): Frame {
    NewFrame(TYPE_STREAM_CLOSE, id, Text("closed by local"))
  }

  /** What `pingLoop` sends. */
  function PingFrame(): Frame {
    NewFrame(TYPE_PING, 0, Text("ping")).(flags := FLAG_LOW_PRIORITY)
  }

  /** What `handlePingFrame` answers. */
  function PongFrame(id: uint32): Frame {
    NewFrame(TYPE_ACK, id, Text("pong"))
  }

  lemma OnTheWire(kind: byte, flags: byte, id: uint32, payload: seq<byte>)
    requires |payload| <= MAX_FRAME_SIZE
    ensures FrameBytes(NewFrame(kind, id, payload).(flags := flags))
            == [0x5A, 1, kind, flags] + Varint(id) + Le16(|payload|) + payload
  {
  }

  /** The frames of a session, byte by byte. */
  lemma FramesOnTheWire(id: uint32, chunk: seq<byte>)
    requires |chunk| <= MAX_FRAME_SIZE
    ensures FrameBytes(DataFrame(id, chunk)) == [0x5A, 1, 1, 0] + Varint(id) + Le16(|chunk|) + chunk
    ensures FrameBytes(OpenFrame(id)) == [0x5A, 1, 2, 0] + Varint(id) + [0, 0]
    ensures FrameBytes(CloseFrame(id)) == [0x5A, 1, 3, 0] + Varint(id) + [15, 0] + Text("closed by local")
    ensures FrameBytes(PongFrame(id)) == [0x5A, 1, 4, 0] + Varint(id) + [4, 0] + [0x70, 0x6F, 0x6E, 0x67]
    ensures FrameBytes(PingFrame()) == [0x5A, 1, 5, 8] + [0] + [4, 0] + [0x70, 0x69, 0x6E, 0x67]
  {
    hide FrameBytes;
    assert Le16(0) == [0, 0] && Le16(4) == [4, 0] && Le16(15) == [15, 0] && Varint(0) == [0];
    assert Text("ping") == [0x70, 0x69, 0x6E, 0x67] && Text("pong") == [0x70, 0x6F, 0x6E, 0x67];
    OnTheWire(TYPE_DATA, 0, id, chunk);
    OnTheWire(TYPE_STREAM_OPEN, 0, id, []);
    OnTheWire(TYPE_STREAM_CLOSE, 0, id, Text("closed by local"));
    OnTheWire(TYPE_ACK, 0, id, Text("pong"));
    OnTheWire(TYPE_PING, FLAG_LOW_PRIORITY, 0, Text("ping"));
  }

  // The handlers

  function HandleData(e: Endpoint, f: Frame, cfg: Config): Endpoint
    requires Wf(e)
  {
    if f.streamID !in e.open then TrySend(e, ResetFrame(f.streamID, "stream not found"), cfg)
    else if |e.streams[f.streamID].inbox| >= cfg.recvCap then e
    else
      var s := Deliver(e.streams[f.streamID], f.payload);
      TrySend(e.(streams := e.streams[f.streamID := s]), NewAckFrame(f.streamID, s.received, INITIAL_WINDOW), cfg)
  }

  function HandleOpen(e: Endpoint, f: Frame, cfg: Config): Endpoint {
    if f.streamID in e.open then TrySend(e, ResetFrame(f.streamID, "stream already exists"), cfg)
    else e.(streams := e.streams[f.streamID := NewStream], open := e.open + {f.streamID})
  }

  /** `handleStreamCloseFrame` and `handleResetFrame` do the same. */
  function HandleClose(e: Endpoint, f: Frame): Endpoint
    requires Wf(e)
  {
    if f.streamID !in e.open then e
    else e.(streams := e.streams[f.streamID := e.streams[f.streamID].(remoteClosed := true)],
            open := e.open - {f.streamID})
  }

  function HandleAck(e: Endpoint, f: Frame): Endpoint
    requires Wf(e)
  {
    match DecodeAckPayload(f.payload)
    case None => e.(failed := true)
    case Some((acked, window)) =>
      if f.streamID !in e.open then e
      else e.(streams := e.streams[f.streamID := TakeAck(e.streams[f.streamID], acked, window)])
  }

  function HandlePing(e: Endpoint, f: Frame, cfg: Config): Endpoint {
    TrySend(e, PongFrame(f.streamID), cfg)
  }

  function Handle(e: Endpoint, f: Frame, cfg: Config): Endpoint
    requires Wf(e)
  {
    if f.kind == TYPE_DATA then HandleData(e, f, cfg)
    else if f.kind == TYPE_STREAM_OPEN then HandleOpen(e, f, cfg)
    else if f.kind == TYPE_STREAM_CLOSE then HandleClose(e, f)
    else if f.kind == TYPE_ACK then HandleAck(e, f)
    else if f.kind == TYPE_PING then HandlePing(e, f, cfg)
    else if f.kind == TYPE_RESET then HandleClose(e, f)
    else e.(failed := true)
  }

  /** `OpenStream` up to and including a successful `sendFrame`. */
  function OpenStream(e: Endpoint): Endpoint {
    Enqueue(e.(streams := e.streams[e.next := NewStream], open := e.open + {e.next}, next := Wrap32(e.next + 2)),
            OpenFrame(e.next))
  }

  // Histories

  function Total(cs: seq<seq<byte>>): nat {
    if cs == [] then 0 else Total(cs[..|cs| - 1]) + |cs[|cs| - 1]|
  }

  /** The payloads of the data frames of stream `id`, oldest first. */
  function Chunks(fs: seq<Frame>, id: uint32): seq<seq<byte>> {
    if fs == [] then []
    else
      var f := fs[|fs| - 1];
      Chunks(fs[..|fs| - 1], id) + (if f.kind == TYPE_DATA && f.streamID == id then [f.payload] else [])
  }

  function Flatten(cs: seq<seq<byte>>): seq<byte> {
    if cs == [] then [] else Flatten(cs[..|cs| - 1]) + cs[|cs| - 1]
  }
}
