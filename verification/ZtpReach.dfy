/** Which frames can meet which streams, and the invariant of every state of every run. */
module ZtpReach {
  import opened Bytes
  import opened ZtpFrame
  import opened ZtpProtocol
  import opened ZtpRun
  import opened ZtpInvariant

  // Streams are opened before they are used, and once

  /** `f` may come after `before`: an open frame is the first of its stream, any other frame
      comes after the open frame. */
  predicate Follows(before: seq<Frame>, f: Frame) {
    if f.kind == TYPE_STREAM_OPEN then forall g :: g in before && g.kind != TYPE_ACK ==> g.streamID != f.streamID
    else f.kind == TYPE_ACK || OpenFrame(f.streamID) in before
  }

  predicate WellOpened(fs: seq<Frame>) {
    forall k :: 0 <= k < |fs| ==> Follows(fs[..k], fs[k])
  }

  /** The end that opens streams. */
  predicate Client(x: Peer) {
    && (forall id :: id in x.e.streams ==> id < x.e.next && OpenFrame(id) in x.normalLog)
    && (forall f :: f in x.normalLog ==> f.kind == TYPE_ACK || f.streamID in x.e.streams)
    && WellOpened(x.normalLog)
  }

  /** The end that only accepts them. */
  ghost predicate Server(y: Peer) {
    && (forall id: uint32 :: id in y.e.streams <==> OpenFrame(id) in y.handled)
    && (forall f :: f in y.normalLog ==> f.kind == TYPE_ACK || (f.streamID in y.e.streams && f.kind != TYPE_STREAM_OPEN))
  }

  lemma WellOpenedSnoc(fs: seq<Frame>, f: Frame)
    requires WellOpened(fs) && Follows(fs, f)
    ensures WellOpened(fs + [f])
  {
    forall k | 0 <= k < |fs + [f]| ensures Follows((fs + [f])[..k], (fs + [f])[k]) {
      assert (fs + [f])[..k] == fs[..k];
    }
  }

  /** A frame of a stream that exists already, or the answer to a ping. */
  predicate OfStream(p: Peer, f: Frame) {
    f.kind == TYPE_ACK || (f.streamID in p.e.streams && f.kind != TYPE_STREAM_OPEN)
  }

  /** A client step that logs one frame of a stream it has, or none. */
  lemma ClientLogs(x: Peer, x': Peer, f: Frame)
    requires Client(x) && x'.e.streams.Keys == x.e.streams.Keys && x'.e.next == x.e.next
    requires x'.normalLog == x.normalLog
             || (x'.normalLog == x.normalLog + [f] && OfStream(x, f))
    ensures Client(x')
  {
    if x'.normalLog != x.normalLog {
      WellOpenedSnoc(x.normalLog, f);
    }
  }

  lemma ClientOpens(x: Peer)
    requires Client(x) && x.e.next + 2 < TWO_TO_THE_32
    ensures Client(AfterOpen(x)) && x.e.next !in x.e.streams
  {
    WellOpenedSnoc(x.normalLog, OpenFrame(x.e.next));
  }

  lemma ServerLogs(y: Peer, y': Peer, f: Frame)
    requires Server(y) && y'.e.streams.Keys == y.e.streams.Keys && y'.handled == y.handled
    requires y'.normalLog == y.normalLog
             || (y'.normalLog == y.normalLog + [f] && OfStream(y, f))
    ensures Server(y')
  {
  }

  lemma TwinsWellOpened(fs: seq<Frame>, gs: seq<Frame>)
    requires Twins(fs, gs) && WellOpened(fs)
    ensures WellOpened(gs)
  {
    forall k | 0 <= k < |gs| ensures Follows(gs[..k], gs[k]) {
      assert Follows(fs[..k], fs[k]) && Twin(fs[k], gs[k]);
      assert Twins(fs[..k], gs[..k]);
      TwinsKeep(fs[..k], gs[..k], OpenFrame(gs[k].streamID));
      if gs[k].kind == TYPE_STREAM_OPEN {
        forall g | g in gs[..k] && g.kind != TYPE_ACK ensures g.streamID != gs[k].streamID {
          var f := TwinsMember(fs[..k], gs[..k], g);
        }
      }
    }
  }

  lemma FillKeepsClient(x: Peer, emitted: seq<Frame>, b: nat, data: seq<byte>)
    requires Client(x) && Pipe(x, emitted)
    ensures Client(AfterFill(x, b, data))
  {
    var x' := AfterFill(x, b, data);
    FilledLog(x, emitted, b, data);
    TwinsWellOpened(x.normalLog, x'.normalLog);
    forall id | id in x.e.streams ensures OpenFrame(id) in x'.normalLog {
      TwinsKeep(x.normalLog, x'.normalLog, OpenFrame(id));
    }
    forall g | g in x'.normalLog ensures g.kind == TYPE_ACK || g.streamID in x.e.streams {
      var f := TwinsMember(x.normalLog, x'.normalLog, g);
    }
  }

  lemma FillKeepsServer(y: Peer, emitted: seq<Frame>, b: nat, data: seq<byte>)
    requires Server(y) && Pipe(y, emitted)
    ensures Server(AfterFill(y, b, data))
  {
    var y' := AfterFill(y, b, data);
    FilledLog(y, emitted, b, data);
    forall g | g in y'.normalLog
      ensures g.kind == TYPE_ACK || (g.streamID in y.e.streams && g.kind != TYPE_STREAM_OPEN)
    {
      var f := TwinsMember(y.normalLog, y'.normalLog, g);
    }
  }

  lemma HandledStreams(e: Endpoint, f: Frame, cfg: Config)
    requires Wf(e) && (f.kind == TYPE_STREAM_OPEN ==> f.streamID !in e.open)
    ensures Handle(e, f, cfg).streams.Keys == e.streams.Keys + (if f.kind == TYPE_STREAM_OPEN then {f.streamID} else {})
    ensures Handle(e, f, cfg).next == e.next
  {
    if f.kind == TYPE_DATA && f.streamID in e.open {
      assert f.streamID in e.streams;
    }
  }

  lemma HandledFrame(p: Peer, f: Frame, cfg: Config)
    requires Wf(p.e)
    ensures AfterHandle(p, f, cfg).e == Handle(p.e, f, cfg) && AfterHandle(p, f, cfg).handled == p.handled + [f]
  {
    hide Handle;
  }

  lemma HandleKeepsClient(x: Peer, f: Frame, cfg: Config)
    requires Client(x) && Wf(x.e) && Expected(x, f) && f.kind != TYPE_STREAM_OPEN
    ensures Client(AfterHandle(x, f, cfg))
  {
    HandledFrame(x, f, cfg);
    HandledStreams(x.e, f, cfg);
    HandleKeepsPipe(x, f, cfg);
    ClientLogs(x, AfterHandle(x, f, cfg),
               if f == PingFrame() then PongFrame(0) else ResetFrame(f.streamID, "stream not found"));
  }

  lemma HandleKeepsServer(y: Peer, f: Frame, cfg: Config)
    requires Server(y) && Wf(y.e) && Expected(y, f) && (f.kind == TYPE_STREAM_OPEN ==> f == OpenFrame(f.streamID))
    ensures Server(AfterHandle(y, f, cfg))
  {
    HandledFrame(y, f, cfg);
    HandledStreams(y.e, f, cfg);
    HandleKeepsPipe(y, f, cfg);
  }

  /** What reaches the client belongs to a stream that it has. */
  lemma ClientExpects(x: Peer, y: Peer, xy: seq<Frame>, xyBytes: seq<byte>, yx: seq<Frame>, yxBytes: seq<byte>)
    requires Half(x, y, xy, xyBytes) && Half(y, x, yx, yxBytes) && Client(x) && Server(y) && yx != []
    ensures Expected(x, yx[0]) && yx[0].kind != TYPE_STREAM_OPEN && (yx[0].kind == TYPE_ACK ==> SoundAck(yx[0], x, y))
  {
    var f := yx[0];
    assert f in x.handled + yx;
    PipeMember(y, x.handled + yx, f);
    WireMember(y, x, yx, yxBytes, f);
    if f.kind == TYPE_ACK {
      DeliveredIsQueued(x, y, xy, xyBytes, f.streamID);
    } else if f != PingFrame() {
      var o := OpenFrame(f.streamID);
      assert o in y.handled + xy;
      PipeMember(x, y.handled + xy, o);
      assert o in x.normalLog;
    }
  }

  /** What reaches the server is the opening of a new stream or belongs to one that it has. */
  lemma ServerExpects(x: Peer, y: Peer, xy: seq<Frame>, xyBytes: seq<byte>, yx: seq<Frame>, yxBytes: seq<byte>)
    requires Half(x, y, xy, xyBytes) && Half(y, x, yx, yxBytes) && Client(x) && Server(y) && xy != []
    ensures Expected(y, xy[0]) && (xy[0].kind == TYPE_STREAM_OPEN ==> xy[0] == OpenFrame(xy[0].streamID))
    ensures xy[0].kind == TYPE_ACK ==> SoundAck(xy[0], y, x)
  {
    var f := xy[0];
    assert f in y.handled + xy;
    WireMember(x, y, xy, xyBytes, f);
    if f.kind == TYPE_ACK {
      DeliveredIsQueued(y, x, yx, yxBytes, f.streamID);
    } else if NormalFrame(f) {
      NormalHead(x, y, xy);
      var before := Only(y.handled, NormalPriority);
      assert x.normalLog[..|before|] == before && x.normalLog[|before|] == f;
      assert Follows(before, f);
      var o := OpenFrame(f.streamID);
      if o in y.handled {
        OnlyHas(y.handled, o);
      }
      if o in before {
        OnlyFrom(y.handled, o, NormalPriority);
      }
    }
  }

  lemma NormalHead(x: Peer, y: Peer, xy: seq<Frame>)
    requires Pipe(x, y.handled + xy) && xy != [] && PriorityOf(xy[0]) == NormalPriority
    ensures var before := Only(y.handled, NormalPriority);
            |before| < |x.normalLog| && x.normalLog[..|before|] == before && x.normalLog[|before|] == xy[0]
  {
    var f, before := xy[0], Only(y.handled, NormalPriority);
    FirstAndRest(xy);
    OnlyAppend(y.handled, xy, NormalPriority);
    OnlyAppend([f], xy[1..], NormalPriority);
    assert Only([f], NormalPriority) == [f];
  }

  // One step of either end

  ghost predicate Halves(n: Net) {
    Half(n.x, n.y, n.xy, n.xyBytes) && Half(n.y, n.x, n.yx, n.yxBytes)
  }

  /** What the step may assume of the frames it meets. */
  predicate Ready(n: Net, ev: Event) {
    && (ev.Opened? ==> n.x.e.next !in n.x.e.streams)
    && (ev.Received? && n.yx != [] ==> Expected(n.x, n.yx[0]) && (n.yx[0].kind == TYPE_ACK ==> SoundAck(n.yx[0], n.x, n.y)))
  }

  lemma ReceiveKeepsHalves(n: Net, n': Net, cfg: Config)
    requires Halves(n) && SideStep(n, n', Received, cfg) && Ready(n, Received)
    ensures Halves(n') && n.yx != [] && n'.x == AfterHandle(n.x, n.yx[0], cfg)
  {
    forall f | f in n.yx ensures Valid(f) {
      assert f in n.x.handled + n.yx;
      WireMember(n.y, n.x, n.yx, n.yxBytes, f);
    }
    ReceivesHead(n.yx);
    var f := n.yx[0];
    HandleKeepsHalf(n.x, n.y, n.xy, n.xyBytes, f, cfg);
    MoveHead(n.x.handled, n.yx);
    forall id: uint32 ensures Total(Delivered(n.x, id)) <= Total(Delivered(n'.x, id)) {
      assert RecvOk(n.x, id);
      HandleDeliversMore(n.x, f, cfg, id);
    }
    OtherHalf(n.y, n.x, n'.x, n.yx, n'.yx, n.yxBytes, n'.yxBytes);
  }

  /** Of stream `id`, `q` has handled what `p` has queued, in order, but for what is on the way. */
  lemma ChunksOnTheWay(p: Peer, q: Peer, pq: seq<Frame>, bytes: seq<byte>, id: uint32)
    requires Half(p, q, pq, bytes)
    ensures Chunks(p.normalLog, id) == Chunks(q.handled, id) + Chunks(pq, id) + Chunks(p.e.normal, id)
  {
    var emitted := q.handled + pq;
    forall f | f in emitted ensures f.kind == TYPE_DATA ==> PriorityOf(f) == NormalPriority {
      WireMember(p, q, pq, bytes, f);
    }
    ChunksAreNormal(emitted, id);
    ChunksAppend(Only(emitted, NormalPriority), p.e.normal, id);
    ChunksAppend(q.handled, pq, id);
  }

  lemma {:induction false} ChunksAreNormal(fs: seq<Frame>, id: uint32)
    requires forall f :: f in fs && f.kind == TYPE_DATA ==> PriorityOf(f) == NormalPriority
    ensures Chunks(Only(fs, NormalPriority), id) == Chunks(fs, id)
    decreases |fs|
  {
    if fs != [] {
      var init, last := fs[..|fs| - 1], fs[|fs| - 1];
      ChunksAreNormal(init, id);
      assert fs == init + [last];
      OnlySnoc(init, last, NormalPriority);
      ChunksSnoc(init, last, id);
      ChunksSnoc(Only(init, NormalPriority), last, id);
    }
  }

  lemma DeliveredIsQueued(p: Peer, q: Peer, pq: seq<Frame>, bytes: seq<byte>, id: uint32)
    requires Half(p, q, pq, bytes) && RecvOk(q, id)
    ensures Total(Delivered(q, id)) <= Total(Chunks(q.handled, id)) <= Enqueued(p, id)
  {
    ChunksOnTheWay(p, q, pq, bytes, id);
    TotalAppend(Chunks(q.handled, id) + Chunks(pq, id), Chunks(p.e.normal, id));
    TotalAppend(Chunks(q.handled, id), Chunks(pq, id));
    SubsequenceTotal(Delivered(q, id), Chunks(q.handled, id));
  }

  lemma LocalKeepsHalves(n: Net, n': Net, ev: Event, cfg: Config)
    requires Halves(n) && SideStep(n, n', ev, cfg) && Ready(n, ev) && !ev.Received?
    ensures Halves(n')
  {
    hide AfterHandle, FrameBytes;
    match ev {
      case Opened => OpenKeepsHalf(n.x, n.y, n.xy, n.xyBytes);
      case Sent(id, chunk, at) => SendKeepsHalf(n.x, n.y, n.xy, n.xyBytes, id, chunk, at);
      case Counted(id) => CountKeepsHalf(n.x, n.y, n.xy, n.xyBytes, id);
      case GaveUp(id) => GivingUpKeepsHalf(n.x, n.y, n.xy, n.xyBytes, id);
      case SentLate(id, chunk, at) => LateSendKeepsHalf(n.x, n.y, n.xy, n.xyBytes, id, chunk, at);
      case Filled(b, data) => FillKeepsHalf(n.x, n.y, n.xy, n.xyBytes, b, data);
      case Pinged => PingKeepsHalf(n.x, n.y, n.xy, n.xyBytes);
      case Emitted(c) => EmitKeepsHalf(n.x, n.y, n.xy, n.xyBytes, c);
      case AppRead(id, room) => ReadKeepsHalf(n.x, n.y, n.xy, n.xyBytes, id, room);
      case ClosedHere(id, told) => CloseKeepsHalf(n.x, n.y, n.xy, n.xyBytes, id, told);
    }
    SameReceiver(n, n', ev, cfg);
    OtherHalf(n.y, n.x, n'.x, n.yx, n'.yx, n.yxBytes, n'.yxBytes);
  }

  lemma SameReceiver(n: Net, n': Net, ev: Event, cfg: Config)
    requires SideStep(n, n', ev, cfg) && !ev.Received?
    ensures n'.y == n.y && n'.yx == n.yx && n'.yxBytes == n.yxBytes
    ensures n'.x.handled == n.x.handled && n'.x.delivered == n.x.delivered
  {
  }

  /** The frame that a local step logs, and that it changes no other stream identity. */
  lemma LocalLogs(n: Net, n': Net, ev: Event, cfg: Config) returns (f: Frame)
    requires SideStep(n, n', ev, cfg) && !ev.Received? && !ev.Opened? && !ev.Filled?
    ensures n'.x.e.streams.Keys == n.x.e.streams.Keys && n'.x.e.next == n.x.e.next
    ensures n'.x.normalLog == n.x.normalLog
            || (n'.x.normalLog == n.x.normalLog + [f] && OfStream(n.x, f))
  {
    f := if ev.Sent? || ev.SentLate? then DataFrame(ev.id, ev.chunk) else CloseFrame(if ev.ClosedHere? then ev.id else 0);
  }

  lemma OtherEndKept(n: Net, n': Net, who: bool, ev: Event, cfg: Config)
    requires Step(n, n', who, ev, cfg)
    ensures End(n', !who) == End(n, !who)
  {
  }

  // The invariant of whole runs

  ghost predicate Inv(n: Net) {
    Halves(n) && Client(n.x) && Server(n.y)
  }

  /** No step of either end meets a frame it does not expect. */
  lemma StepIsReady(n: Net, atX: bool, ev: Event)
    requires Inv(n) && (ev.Opened? ==> atX)
    ensures Ready(if atX then n else Swap(n), ev)
    ensures ev.Received? && Wire(n, !atX) != [] ==>
              var f := Wire(n, !atX)[0];
              if atX then f.kind != TYPE_STREAM_OPEN else f.kind == TYPE_STREAM_OPEN ==> f == OpenFrame(f.streamID)
  {
    if ev.Received? && Wire(n, !atX) != [] {
      if atX {
        ClientExpects(n.x, n.y, n.xy, n.xyBytes, n.yx, n.yxBytes);
      } else {
        ServerExpects(n.x, n.y, n.xy, n.xyBytes, n.yx, n.yxBytes);
      }
    }
  }

  lemma ClientStep(n: Net, n': Net, ev: Event, cfg: Config)
    requires Inv(n) && SideStep(n, n', ev, cfg)
    ensures Inv(n')
  {
    StepIsReady(n, true, ev);
    if ev.Received? {
      ReceiveKeepsHalves(n, n', cfg);
      HandleKeepsClient(n.x, n.yx[0], cfg);
    } else if ev.Opened? {
      ClientOpens(n.x);
      LocalKeepsHalves(n, n', ev, cfg);
    } else if ev.Filled? {
      FillKeepsClient(n.x, n.y.handled + n.xy, ev.buffer, ev.data);
      LocalKeepsHalves(n, n', ev, cfg);
    } else {
      LocalKeepsHalves(n, n', ev, cfg);
      var f := LocalLogs(n, n', ev, cfg);
      ClientLogs(n.x, n'.x, f);
      SameReceiver(n, n', ev, cfg);
    }
  }

  lemma ServerStep(n: Net, n': Net, ev: Event, cfg: Config)
    requires Inv(n) && SideStep(Swap(n), Swap(n'), ev, cfg) && !ev.Opened?
    ensures Inv(n')
  {
    var m, m' := Swap(n), Swap(n');
    StepIsReady(n, false, ev);
    if ev.Received? {
      ReceiveKeepsHalves(m, m', cfg);
      HandleKeepsServer(n.y, n.xy[0], cfg);
    } else if ev.Filled? {
      FillKeepsServer(n.y, n.x.handled + n.yx, ev.buffer, ev.data);
      LocalKeepsHalves(m, m', ev, cfg);
    } else {
      LocalKeepsHalves(m, m', ev, cfg);
      var f := LocalLogs(m, m', ev, cfg);
      SameReceiver(m, m', ev, cfg);
      ServerLogs(n.y, n'.y, f);
    }
  }

  lemma FreshHalf()
    ensures Half(FreshPeer, FreshPeer, [], [])
  {
    assert Pipe(FreshPeer, [] + []);
  }

  lemma {:induction false} InvariantHolds(states: seq<Net>, events: seq<(bool, Event)>, cfg: Config, i: nat)
    requires Run(states, events, cfg) && i < |states|
    ensures Inv(states[i])
    decreases i
  {
    if i == 0 {
      FreshHalf();
    } else {
      InvariantHolds(states, events, cfg, i - 1);
      var (atX, ev) := events[i - 1];
      assert Step(states[i - 1], states[i - 1 + 1], atX, ev, cfg);
      if atX {
        ClientStep(states[i - 1], states[i], ev, cfg);
      } else {
        ServerStep(states[i - 1], states[i], ev, cfg);
      }
    }
  }

  /** Both directions of a state of a run meet the invariant. */
  lemma Reached(states: seq<Net>, events: seq<(bool, Event)>, cfg: Config, i: nat, atX: bool)
    requires Run(states, events, cfg) && i < |states|
    ensures var n := states[i]; var p, q := End(n, atX), End(n, !atX);
            && Half(p, q, Wire(n, atX), EncodeAll(Wire(n, atX)))
            && Half(q, p, Wire(n, !atX), EncodeAll(Wire(n, !atX)))
  {
    InvariantHolds(states, events, cfg, i);
  }
}
