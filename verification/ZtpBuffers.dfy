/** A data frame in the send queue still refers to the buffer that its writer was given.  What it is
    encoded as, and so what the peer gets, is what the buffer holds at that moment. */
module ZtpBuffers {
  import opened Bytes
  import opened ZtpFrame
  import opened ZtpProtocol
  import opened ZtpRun
  import opened ZtpInvariant
  import opened ZtpReach

  // The queue, its logs and the buffers

  /** The queue is the end of its log, which differs from what was written in payloads only, and in
      those only where a frame refers to a buffer; and what such a frame carries is what its buffer
      holds. */
  predicate Tracks(queue: seq<Frame>, log: seq<Frame>, written: seq<Frame>, refs: seq<Ref>, memory: map<nat, seq<byte>>) {
    && |queue| <= |log| == |refs| && log[|log| - |queue|..] == queue
    && Twins(written, log)
    && (forall k :: 0 <= k < |log| && refs[k].Own? ==> written[k] == log[k])
    && (forall k :: |log| - |queue| <= k < |log| && refs[k].Of? ==>
          log[k].kind == TYPE_DATA && Holds(memory, refs[k], log[k].payload))
  }

  predicate Tracked(p: Peer) {
    Tracks(p.e.normal, p.normalLog, p.written, p.refs, p.memory)
  }

  lemma LoggedTracks(queue: seq<Frame>, log: seq<Frame>, written: seq<Frame>, refs: seq<Ref>,
                     memory: map<nat, seq<byte>>, f: Frame, r: Ref)
    requires Tracks(queue, log, written, refs, memory)
    requires r.Own? || (f.kind == TYPE_DATA && Holds(memory, r, f.payload))
    ensures Tracks(queue + [f], log + [f], written + [f], refs + [r], memory)
  {
    hide Holds;
    assert (log + [f])[|log| - |queue|..] == queue + [f];
  }

  lemma EmittedTracks(queue: seq<Frame>, log: seq<Frame>, written: seq<Frame>, refs: seq<Ref>, memory: map<nat, seq<byte>>)
    requires Tracks(queue, log, written, refs, memory) && queue != []
    ensures Tracks(queue[1..], log, written, refs, memory)
  {
    hide Holds, Twins;
  }

  /** A frame that refers to another buffer keeps its bytes, one that refers to this gets the new. */
  lemma RefilledHolds(f: Frame, r: Ref, memory: map<nat, seq<byte>>, b: nat, data: seq<byte>)
    requires f.kind == TYPE_DATA && Holds(memory, r, f.payload) && (b in memory ==> |data| == |memory[b]|)
    ensures var g := Refilled(f, r, b, data); g.kind == TYPE_DATA && Holds(memory[b := data], r, g.payload)
  {
  }

  lemma FilledSlots(queue: seq<Frame>, log: seq<Frame>, refs: seq<Ref>, b: nat, data: seq<byte>)
    requires |queue| <= |log| == |refs| && log[|log| - |queue|..] == queue
    ensures var out := |log| - |queue|;
            var queue' := RefilledQueue(queue, refs[out..], b, data);
            var log' := log[..out] + queue';
            && |queue'| == |queue| && log'[out..] == queue'
            && (forall k :: 0 <= k < |log| ==> log'[k] == if k < out then log[k] else Refilled(log[k], refs[k], b, data))
  {
    hide Refilled;
    var out := |log| - |queue|;
    forall k | out <= k < |log| ensures log[k] == queue[k - out] && refs[k] == refs[out..][k - out] {
      assert log[k] == log[out..][k - out];
    }
  }

  lemma FilledTracks(queue: seq<Frame>, log: seq<Frame>, written: seq<Frame>, refs: seq<Ref>,
                     memory: map<nat, seq<byte>>, b: nat, data: seq<byte>)
    requires Tracks(queue, log, written, refs, memory) && (b in memory ==> |data| == |memory[b]|)
    ensures var out := |log| - |queue|;
            var queue' := RefilledQueue(queue, refs[out..], b, data);
            Tracks(queue', log[..out] + queue', written, refs, memory[b := data])
  {
    hide Holds, Refilled, RefilledQueue, Twin;
    var out := |log| - |queue|;
    var log' := log[..out] + RefilledQueue(queue, refs[out..], b, data);
    FilledSlots(queue, log, refs, b, data);
    forall k | 0 <= k < |log|
      ensures Twin(written[k], log'[k]) && (refs[k].Own? ==> written[k] == log'[k])
      ensures out <= k && refs[k].Of? ==> log'[k].kind == TYPE_DATA && Holds(memory[b := data], refs[k], log'[k].payload)
    {
      assert Twin(written[k], log[k]);
      if out <= k {
        RefilledSlot(written[k], log[k], refs[k], memory, b, data);
      }
    }
  }

  lemma RefilledSlot(was: Frame, f: Frame, r: Ref, memory: map<nat, seq<byte>>, b: nat, data: seq<byte>)
    requires Twin(was, f) && (r.Own? ==> was == f) && (b in memory ==> |data| == |memory[b]|)
    requires r.Of? ==> f.kind == TYPE_DATA && Holds(memory, r, f.payload)
    ensures var g := Refilled(f, r, b, data);
            && Twin(was, g) && (r.Own? ==> was == g)
            && (r.Of? ==> g.kind == TYPE_DATA && Holds(memory[b := data], r, g.payload))
  {
    if r.Of? {
      RefilledHolds(f, r, memory, b, data);
    }
  }

  // Every step keeps it

  /** The step takes nothing out of the normal queue and leaves alone what has left it. */
  predicate Keeps(p: Peer, p': Peer) {
    Out(p') == Out(p) && Left(p) <= p'.normalLog && p.written <= p'.written
  }

  /** The frames that have left the normal queue, as they were encoded. */
  function Left(p: Peer): seq<Frame> {
    p.normalLog[..Out(p)]
  }

  /** The same frames as they were queued. */
  function LeftWritten(p: Peer): seq<Frame> {
    if Out(p) <= |p.written| then p.written[..Out(p)] else p.written
  }

  /** The frames that are still in it, as they were queued. */
  function QueuedWritten(p: Peer): seq<Frame> {
    if Out(p) <= |p.written| then p.written[Out(p)..] else []
  }

  lemma HandleKeepsTracked(p: Peer, f: Frame, cfg: Config)
    requires Tracked(p) && Wf(p.e) && Expected(p, f)
    ensures Tracked(AfterHandle(p, f, cfg)) && Keeps(p, AfterHandle(p, f, cfg))
  {
    hide Tracks;
    var p', e' := AfterHandle(p, f, cfg), Handle(p.e, f, cfg);
    HandleKeepsQueue(p, f, cfg);
    HandledBuffers(p, f, cfg);
    if e'.normal == p.e.normal {
      AppendNothing(p.normalLog);
      AppendNothing(p.written);
      AppendNothing(p.refs);
    } else {
      var g := e'.normal[|p.e.normal|];
      AddedOne(p.e.normal, g);
      assert Owns(1) == [Own];
      LoggedTracks(p.e.normal, p.normalLog, p.written, p.refs, p.memory, g, Own);
    }
  }

  lemma HandleKeepsQueue(p: Peer, f: Frame, cfg: Config)
    requires Wf(p.e) && Expected(p, f)
    ensures var q, q' := p.e.normal, Handle(p.e, f, cfg).normal; q' == q || (q' != [] && q' == q + [q'[|q'| - 1]])
  {
    match Answer(p, f, cfg)
    case Some(g) => AnswerIsTried(p, f, cfg);
    case None => NothingElseIsAnswered(p, f, cfg);
  }

  lemma HandledBuffers(p: Peer, f: Frame, cfg: Config)
    requires Wf(p.e)
    ensures var p', more := AfterHandle(p, f, cfg), Added(p.e.normal, Handle(p.e, f, cfg).normal);
            && p'.e == Handle(p.e, f, cfg) && p'.memory == p.memory
            && p'.normalLog == p.normalLog + more && p'.written == p.written + more
            && p'.refs == p.refs + Owns(|more|)
  {
    hide Handle;
  }

  lemma SendKeepsTracked(p: Peer, id: uint32, chunk: seq<byte>, at: Ref)
    requires Tracked(p) && Holds(p.memory, at, chunk)
    ensures Tracked(AfterSend(p, id, chunk, at)) && Keeps(p, AfterSend(p, id, chunk, at))
    ensures Tracked(AfterLateSend(p, id, chunk, at)) && Keeps(p, AfterLateSend(p, id, chunk, at))
  {
    hide Tracks;
    LoggedTracks(p.e.normal, p.normalLog, p.written, p.refs, p.memory, DataFrame(id, chunk), at);
  }

  lemma OpenKeepsTracked(p: Peer)
    requires Tracked(p)
    ensures Tracked(AfterOpen(p)) && Keeps(p, AfterOpen(p))
  {
    hide Tracks;
    LoggedTracks(p.e.normal, p.normalLog, p.written, p.refs, p.memory, OpenFrame(p.e.next), Own);
  }

  lemma CloseKeepsTracked(p: Peer, id: uint32, told: bool)
    requires Tracked(p) && id in p.e.streams
    ensures Tracked(AfterClose(p, id, told)) && Keeps(p, AfterClose(p, id, told))
  {
    hide Tracks;
    LoggedTracks(p.e.normal, p.normalLog, p.written, p.refs, p.memory, CloseFrame(id), Own);
  }

  lemma EmitKeepsTracked(p: Peer, c: Priority)
    requires Tracked(p) && Queue(p.e, c) != []
    ensures Tracked(AfterEmit(p, c)) && (c != NormalPriority ==> Keeps(p, AfterEmit(p, c)))
  {
    hide Tracks;
    if c == NormalPriority {
      EmittedTracks(p.e.normal, p.normalLog, p.written, p.refs, p.memory);
    }
  }

  lemma TrackedParts(p: Peer)
    requires Tracked(p)
    ensures Out(p) == |p.normalLog| - |p.e.normal| && QueueRefs(p) == p.refs[Out(p)..] && |p.written| == |p.normalLog|
    ensures p.normalLog[Out(p)..] == p.e.normal && Twins(p.written, p.normalLog)
  {
  }

  lemma FillKeepsTracked(p: Peer, b: nat, data: seq<byte>)
    requires Tracked(p) && (b in p.memory ==> |data| == |p.memory[b]|)
    ensures Tracked(AfterFill(p, b, data)) && Keeps(p, AfterFill(p, b, data))
  {
    TrackedParts(p);
    FilledTracks(p.e.normal, p.normalLog, p.written, p.refs, p.memory, b, data);
    hide Tracks;
  }

  /** Steps that neither queue nor emit. */
  lemma RestKeepsTracked(n: Net, n': Net, ev: Event, cfg: Config)
    requires SideStep(n, n', ev, cfg) && (ev.Counted? || ev.GaveUp? || ev.Pinged? || ev.AppRead?)
    ensures SameBuffers(n.x, n'.x)
  {
  }

  predicate SameBuffers(p: Peer, p': Peer) {
    && p'.e.normal == p.e.normal && p'.normalLog == p.normalLog && p'.written == p.written
    && p'.refs == p.refs && p'.memory == p.memory
  }

  lemma SideKeepsTracked(n: Net, n': Net, ev: Event, cfg: Config)
    requires SideStep(n, n', ev, cfg) && Tracked(n.x)
    requires ev.Received? ==> n.yx != [] && n'.x == AfterHandle(n.x, n.yx[0], cfg) && Expected(n.x, n.yx[0])
    ensures Tracked(n'.x) && (ev != Emitted(NormalPriority) ==> Keeps(n.x, n'.x))
  {
    hide Tracked, Keeps;
    match ev {
      case Opened => OpenKeepsTracked(n.x);
      case Sent(id, chunk, at) => SendKeepsTracked(n.x, id, chunk, at);
      case SentLate(id, chunk, at) => SendKeepsTracked(n.x, id, chunk, at);
      case Filled(b, data) => FillKeepsTracked(n.x, b, data);
      case Emitted(c) => EmitKeepsTracked(n.x, c);
      case Received => HandleKeepsTracked(n.x, n.yx[0], cfg);
      case ClosedHere(id, told) => CloseKeepsTracked(n.x, id, told);
      case Counted(_) =>
      case GaveUp(_) =>
      case Pinged =>
      case AppRead(_, _) =>
    }
    if ev.Counted? || ev.GaveUp? || ev.Pinged? || ev.AppRead? {
      RestKeepsTracked(n, n', ev, cfg);
      SameBuffersTracked(n.x, n'.x);
    }
  }

  lemma SameBuffersTracked(p: Peer, p': Peer)
    requires Tracked(p) && SameBuffers(p, p')
    ensures Tracked(p') && Keeps(p, p')
  {
  }

  // What a frame is encoded as

  /** The step encodes a frame of stream `id` whose buffer is no longer what it was. */
  predicate SpoilsAt(n: Net, ev: (bool, Event), atX: bool, id: uint32) {
    var p := End(n, atX);
    ev == (atX, Emitted(NormalPriority)) && Spoils(p) && p.e.normal[0].streamID == id
  }

  /** In the first `i` steps a caller of `Write` has changed bytes of stream `id` before they were
      encoded. */
  predicate Spoilt(states: seq<Net>, events: seq<(bool, Event)>, i: nat, atX: bool, id: uint32)
    requires i <= |events| <= |states|
  {
    exists j :: 0 <= j < i && SpoilsAt(states[j], events[j], atX, id)
  }

  /** ... and before the frame that ends the stream. */
  predicate SpoiltInTime(states: seq<Net>, events: seq<(bool, Event)>, i: nat, atX: bool, id: uint32)
    requires i <= |events| <= |states|
  {
    exists j :: 0 <= j < i && SpoilsAt(states[j], events[j], atX, id) && !Ended(LeftWritten(End(states[j], atX)), id)
  }

  /** Emission encodes the head of the queue; that is not what was written exactly if its buffer has
      changed. */
  lemma EmissionEncodes(p: Peer)
    requires Tracked(p) && p.e.normal != []
    ensures Out(p) < |p.written| && Left(AfterEmit(p, NormalPriority)) == Left(p) + [p.e.normal[0]]
    ensures LeftWritten(AfterEmit(p, NormalPriority)) == LeftWritten(p) + [p.written[Out(p)]]
    ensures Twin(p.written[Out(p)], p.e.normal[0])
    ensures Spoils(p) <==> p.e.normal[0].payload != p.written[Out(p)].payload
  {
    var k := Out(p);
    assert p.normalLog[k] == p.e.normal[0] && QueueRefs(p)[0] == p.refs[k];
    assert Twin(p.written[k], p.normalLog[k]);
    assert p.normalLog[..k + 1] == p.normalLog[..k] + [p.normalLog[k]];
    assert p.written[..k + 1] == p.written[..k] + [p.written[k]];
  }

  lemma ChunksDiffer(fs: seq<Frame>, f: Frame, gs: seq<Frame>, g: Frame, id: uint32)
    requires Twin(g, f)
    ensures Chunks(fs + [f], id) == Chunks(gs + [g], id)
            <==> Chunks(fs, id) == Chunks(gs, id) && !(f.payload != g.payload && f.streamID == id)
  {
    hide Chunks;
    ChunksSnoc(fs, f, id);
    ChunksSnoc(gs, g, id);
    SnocEqual(Chunks(fs, id), f.payload, Chunks(gs, id), g.payload);
  }

  lemma SnocEqual<T>(a: seq<T>, x: T, b: seq<T>, y: T)
    ensures a + [x] == b + [y] <==> a == b && x == y
  {
    if a + [x] == b + [y] {
      assert (a + [x])[..|a|] == a && (b + [y])[..|b|] == b;
      assert (a + [x])[|a|] == x && (b + [y])[|b|] == y;
    }
  }

  lemma AcceptedDiffer(fs: seq<Frame>, f: Frame, gs: seq<Frame>, g: Frame, id: uint32)
    requires Twin(g, f) && (Ended(fs, id) <==> Ended(gs, id))
    ensures Ended(fs + [f], id) <==> Ended(gs + [g], id)
    ensures Accepted(fs + [f], id) == Accepted(gs + [g], id)
            <==> Accepted(fs, id) == Accepted(gs, id) && !(f.payload != g.payload && f.streamID == id && !Ended(gs, id))
  {
    hide Accepted, Ended;
    AcceptedSnoc(fs, f, id);
    AcceptedSnoc(gs, g, id);
    SnocEqual(Accepted(fs, id), f.payload, Accepted(gs, id), g.payload);
  }

  /** Stream `id` has left as it was written, unless it is `spoilt`. */
  predicate Faithful(p: Peer, id: uint32, spoilt: bool, inTime: bool) {
    && (Chunks(Left(p), id) == Chunks(LeftWritten(p), id) <==> !spoilt)
    && (Ended(Left(p), id) <==> Ended(LeftWritten(p), id))
    && (Accepted(Left(p), id) == Accepted(LeftWritten(p), id) <==> !inTime)
  }

  lemma EmissionIsFaithful(p: Peer, id: uint32, spoilt: bool, inTime: bool)
    requires Tracked(p) && p.e.normal != [] && Faithful(p, id, spoilt, inTime)
    ensures var spoils := Spoils(p) && p.e.normal[0].streamID == id;
            Faithful(AfterEmit(p, NormalPriority), id, spoilt || spoils,
                     inTime || (spoils && !Ended(LeftWritten(p), id)))
  {
    hide Tracked, Chunks, Accepted, Ended, Left, LeftWritten, Out, Spoils;
    EmissionEncodes(p);
    ChunksDiffer(Left(p), p.e.normal[0], LeftWritten(p), p.written[Out(p)], id);
    AcceptedDiffer(Left(p), p.e.normal[0], LeftWritten(p), p.written[Out(p)], id);
  }

  lemma KeepsLeft(p: Peer, p': Peer)
    requires Tracked(p) && Tracked(p') && Keeps(p, p')
    ensures Left(p') == Left(p) && LeftWritten(p') == LeftWritten(p)
  {
  }

  lemma SpoiltStep(states: seq<Net>, events: seq<(bool, Event)>, i: nat, atX: bool, id: uint32)
    requires i < |events| <= |states|
    ensures Spoilt(states, events, i + 1, atX, id)
            <==> Spoilt(states, events, i, atX, id) || SpoilsAt(states[i], events[i], atX, id)
    ensures SpoiltInTime(states, events, i + 1, atX, id)
            <==> SpoiltInTime(states, events, i, atX, id)
                 || (SpoilsAt(states[i], events[i], atX, id) && !Ended(LeftWritten(End(states[i], atX)), id))
  {
    hide SpoilsAt, Ended, LeftWritten;
  }

  lemma SideIsFaithful(n: Net, n': Net, ev: Event, cfg: Config, id: uint32, spoilt: bool, inTime: bool)
    requires SideStep(n, n', ev, cfg) && Tracked(n.x) && Faithful(n.x, id, spoilt, inTime)
    requires ev.Received? ==> n.yx != [] && n'.x == AfterHandle(n.x, n.yx[0], cfg) && Expected(n.x, n.yx[0])
    ensures Tracked(n'.x)
    ensures var spoils := ev == Emitted(NormalPriority) && Spoils(n.x) && n.x.e.normal[0].streamID == id;
            Faithful(n'.x, id, spoilt || spoils, inTime || (spoils && !Ended(LeftWritten(n.x), id)))
  {
    SideKeepsTracked(n, n', ev, cfg);
    if ev == Emitted(NormalPriority) {
      EmissionIsFaithful(n.x, id, spoilt, inTime);
    } else {
      KeepsLeft(n.x, n'.x);
    }
  }

  lemma StepIsFaithful(n: Net, n': Net, who: bool, ev: Event, cfg: Config, atX: bool, id: uint32, spoilt: bool, inTime: bool)
    requires Inv(n) && Step(n, n', who, ev, cfg)
    requires Tracked(End(n, atX)) && Faithful(End(n, atX), id, spoilt, inTime)
    ensures Tracked(End(n', atX))
    ensures var spoils := SpoilsAt(n, (who, ev), atX, id);
            Faithful(End(n', atX), id, spoilt || spoils, inTime || (spoils && !Ended(LeftWritten(End(n, atX)), id)))
  {
    hide Tracked, Faithful, SideStep, LeftWritten, Ended, Inv;
    if who != atX {
      OtherEndKept(n, n', who, ev, cfg);
    } else {
      var m, m' := if atX then n else Swap(n), if atX then n' else Swap(n');
      if ev.Received? {
        ReceivedExpected(n, n', atX, cfg);
      }
      SideIsFaithful(m, m', ev, cfg, id, spoilt, inTime);
    }
  }

  lemma ReceivedExpected(n: Net, n': Net, atX: bool, cfg: Config)
    requires Inv(n) && Step(n, n', atX, Received, cfg)
    ensures var wire := Wire(n, !atX);
            && wire != [] && Expected(End(n, atX), wire[0]) && Wf(End(n, atX).e)
            && End(n', atX) == AfterHandle(End(n, atX), wire[0], cfg)
  {
    hide Handle, SideStep, Client, Server, AllNormal, AllAck, AllPing, Pipe, SendOk, RecvOk;
    StepIsReady(n, atX, Received);
    ReceiveKeepsHalves(if atX then n else Swap(n), if atX then n' else Swap(n'), cfg);
  }

  lemma FreshIsFaithful(states: seq<Net>, events: seq<(bool, Event)>, atX: bool, id: uint32)
    requires |states| == |events| + 1
    ensures Tracked(FreshPeer)
    ensures Faithful(FreshPeer, id, Spoilt(states, events, 0, atX, id), SpoiltInTime(states, events, 0, atX, id))
  {
  }

  lemma {:induction false} EncodedAsWritten(states: seq<Net>, events: seq<(bool, Event)>, cfg: Config,
                                            i: nat, atX: bool, id: uint32)
    requires Run(states, events, cfg) && i < |states|
    ensures Tracked(End(states[i], atX))
    ensures Faithful(End(states[i], atX), id, Spoilt(states, events, i, atX, id), SpoiltInTime(states, events, i, atX, id))
    decreases i
  {
    if i == 0 {
      FreshIsFaithful(states, events, atX, id);
    } else {
      hide Spoilt, SpoiltInTime, Tracked, Faithful, Step, Inv;
      EncodedAsWritten(states, events, cfg, i - 1, atX, id);
      SpoiltStep(states, events, i - 1, atX, id);
      InvariantHolds(states, events, cfg, i - 1);
      assert Step(states[i - 1], states[i - 1 + 1], events[i - 1].0, events[i - 1].1, cfg);
      StepIsFaithful(states[i - 1], states[i], events[i - 1].0, events[i - 1].1, cfg, atX, id,
                     Spoilt(states, events, i - 1, atX, id), SpoiltInTime(states, events, i - 1, atX, id));
    }
  }

  // What a caller can do to be sure

  /** Filling buffer `b` leaves every byte of stream `id` that is still queued as it is. */
  predicate Spares(p: Peer, b: nat, data: seq<byte>, id: uint32) {
    forall k :: 0 <= k < |p.e.normal| && p.e.normal[k].streamID == id
      ==> RefilledQueue(p.e.normal, QueueRefs(p), b, data)[k] == p.e.normal[k]
  }

  /** No frame of stream `id` in the queue has changed since it was queued. */
  predicate Intact(p: Peer, id: uint32) {
    forall k :: Out(p) <= k < |p.normalLog| && k < |p.written| && p.written[k].streamID == id
      ==> p.normalLog[k] == p.written[k]
  }

  lemma IntactNotSpoilt(p: Peer, id: uint32)
    requires Tracked(p) && Intact(p, id) && p.e.normal != [] && p.e.normal[0].streamID == id
    ensures !Spoils(p)
  {
    hide Spoils;
    EmissionEncodes(p);
    assert p.normalLog[Out(p)] == p.e.normal[0];
  }

  /** Both logs grow by the same frames. */
  predicate Grows(p: Peer, p': Peer, more: seq<Frame>) {
    p'.normalLog == p.normalLog + more && p'.written == p.written + more && Out(p) <= Out(p')
  }

  lemma GrowsIntact(p: Peer, p': Peer, more: seq<Frame>, id: uint32)
    requires Tracked(p) && Intact(p, id) && Grows(p, p', more)
    ensures Intact(p', id)
  {
  }

  lemma FillIntact(p: Peer, b: nat, data: seq<byte>, id: uint32)
    requires Tracked(p) && Intact(p, id) && Spares(p, b, data, id)
    ensures Intact(AfterFill(p, b, data), id)
  {
    hide Tracked, Twins, QueueRefs, RefilledQueue;
    TrackedParts(p);
    SparedSlots(p.e.normal, p.normalLog, p.written, QueueRefs(p), b, data, id);
  }

  lemma SparedSlots(queue: seq<Frame>, log: seq<Frame>, written: seq<Frame>, refs: seq<Ref>,
                    b: nat, data: seq<byte>, id: uint32)
    requires |queue| <= |log| && log[|log| - |queue|..] == queue && Twins(written, log)
    requires forall k :: |log| - |queue| <= k < |log| && written[k].streamID == id ==> log[k] == written[k]
    requires forall k :: 0 <= k < |queue| && queue[k].streamID == id ==> RefilledQueue(queue, refs, b, data)[k] == queue[k]
    ensures var out := |log| - |queue|;
            var now := log[..out] + RefilledQueue(queue, refs, b, data);
            forall k :: out <= k < |log| && written[k].streamID == id ==> now[k] == written[k]
  {
    hide Refilled;
    var out := |log| - |queue|;
    forall k | out <= k < |log| && written[k].streamID == id
      ensures RefilledQueue(queue, refs, b, data)[k - out] == written[k]
    {
      assert log[k] == queue[k - out] && Twin(written[k], log[k]);
    }
  }

  lemma SideGrows(n: Net, n': Net, ev: Event, cfg: Config) returns (more: seq<Frame>)
    requires SideStep(n, n', ev, cfg) && !ev.Filled? && Tracked(n.x) && Tracked(n'.x)
    requires ev != Emitted(NormalPriority) ==> Keeps(n.x, n'.x)
    ensures Grows(n.x, n'.x, more)
  {
    if ev.Received? {
      var f := ReadFrom(n.yxBytes).value.0;
      more := Added(n.x.e.normal, Handle(n.x.e, f, cfg).normal);
      HandledBuffers(n.x, f, cfg);
    } else {
      more := LocallyAdded(n.x, ev);
      LocallyGrows(n, n', ev, cfg);
    }
  }

  function LocallyAdded(p: Peer, ev: Event): seq<Frame> {
    match ev
    case Opened => [OpenFrame(p.e.next)]
    case Sent(id, chunk, _) => [DataFrame(id, chunk)]
    case SentLate(id, chunk, _) => [DataFrame(id, chunk)]
    case ClosedHere(id, told) => if told then [CloseFrame(id)] else []
    case _ => []
  }

  lemma LocallyGrows(n: Net, n': Net, ev: Event, cfg: Config)
    requires SideStep(n, n', ev, cfg) && !ev.Filled? && !ev.Received? && Tracked(n.x) && Tracked(n'.x)
    requires ev != Emitted(NormalPriority) ==> Keeps(n.x, n'.x)
    ensures Grows(n.x, n'.x, LocallyAdded(n.x, ev))
  {
  }

  lemma StepIntact(n: Net, n': Net, who: bool, ev: Event, cfg: Config, atX: bool, id: uint32)
    requires Inv(n) && Step(n, n', who, ev, cfg) && Tracked(End(n, atX)) && Intact(End(n, atX), id)
    requires who == atX && ev.Filled? ==> Spares(End(n, atX), ev.buffer, ev.data, id)
    ensures Intact(End(n', atX), id) && !SpoilsAt(n, (who, ev), atX, id)
  {
    hide Tracked, Intact, SideStep, Keeps, Grows, Spares, Spoils;
    if who != atX {
      OtherEndKept(n, n', who, ev, cfg);
    } else {
      var m, m' := if atX then n else Swap(n), if atX then n' else Swap(n');
      if ev.Received? {
        ReceivedExpected(n, n', atX, cfg);
      }
      SideKeepsTracked(m, m', ev, cfg);
      SideIntact(m, m', ev, cfg, id);
    }
  }

  lemma SideIntact(n: Net, n': Net, ev: Event, cfg: Config, id: uint32)
    requires SideStep(n, n', ev, cfg) && Tracked(n.x) && Tracked(n'.x) && Intact(n.x, id)
    requires ev != Emitted(NormalPriority) ==> Keeps(n.x, n'.x)
    requires ev.Filled? ==> Spares(n.x, ev.buffer, ev.data, id)
    ensures Intact(n'.x, id)
    ensures ev == Emitted(NormalPriority) && n.x.e.normal[0].streamID == id ==> !Spoils(n.x)
  {
    hide Tracked, Intact, Keeps, Grows, Spares, Spoils;
    if ev.Filled? {
      FillIntact(n.x, ev.buffer, ev.data, id);
    } else {
      var more := SideGrows(n, n', ev, cfg);
      GrowsIntact(n.x, n'.x, more, id);
    }
    if ev == Emitted(NormalPriority) && n.x.e.normal[0].streamID == id {
      IntactNotSpoilt(n.x, id);
    }
  }

  /** In the first `i` steps no caller fills a buffer with other bytes while a queued frame of stream
      `id` refers to them. */
  predicate LeftAlone(states: seq<Net>, events: seq<(bool, Event)>, i: nat, atX: bool, id: uint32)
    requires i <= |events| <= |states|
  {
    forall j :: 0 <= j < i && events[j].0 == atX && events[j].1.Filled?
      ==> Spares(End(states[j], atX), events[j].1.buffer, events[j].1.data, id)
  }

  lemma FreshIsIntact(states: seq<Net>, events: seq<(bool, Event)>, atX: bool, id: uint32)
    requires |states| == |events| + 1
    ensures !Spoilt(states, events, 0, atX, id) && Intact(FreshPeer, id)
  {
  }

  /** A caller that leaves its buffer alone until its frames have gone out spoils nothing. */
  lemma {:induction false} LeftAloneIsSafe(states: seq<Net>, events: seq<(bool, Event)>, cfg: Config,
                                           i: nat, atX: bool, id: uint32)
    requires Run(states, events, cfg) && i < |states| && LeftAlone(states, events, i, atX, id)
    ensures !Spoilt(states, events, i, atX, id) && Intact(End(states[i], atX), id)
    decreases i
  {
    hide Spoilt, SpoiltInTime, Faithful, Tracked, Step, Inv, Intact, Spares;
    if i == 0 {
      FreshIsIntact(states, events, atX, id);
    } else {
      LeftAloneIsSafe(states, events, cfg, i - 1, atX, id);
      EncodedAsWritten(states, events, cfg, i - 1, atX, id);
      SpoiltStep(states, events, i - 1, atX, id);
      InvariantHolds(states, events, cfg, i - 1);
      assert Step(states[i - 1], states[i - 1 + 1], events[i - 1].0, events[i - 1].1, cfg);
      StepIntact(states[i - 1], states[i], events[i - 1].0, events[i - 1].1, cfg, atX, id);
    }
  }

  // At the other end

  /** What has left the queue of `p` is what `q` has handled and what is on the wire. */
  lemma LeftIsHandled(p: Peer, q: Peer, pq: seq<Frame>, id: uint32)
    requires Half(p, q, pq, EncodeAll(pq))
    ensures Left(p) == Only(q.handled + pq, NormalPriority)
    ensures Chunks(Left(p), id) == Chunks(q.handled, id) + Chunks(pq, id)
    ensures Chunks(p.normalLog, id) == Chunks(Left(p), id) + Chunks(p.e.normal, id)
  {
    var emitted := q.handled + pq;
    forall f | f in emitted ensures f.kind == TYPE_DATA ==> PriorityOf(f) == NormalPriority {
      WireMember(p, q, pq, EncodeAll(pq), f);
    }
    ChunksAreNormal(emitted, id);
    ChunksAppend(q.handled, pq, id);
    ChunksAppend(Left(p), p.e.normal, id);
  }

  /** What `p` wrote, split where its queue begins; sizes never change. */
  lemma WrittenSplit(p: Peer, id: uint32)
    requires Tracked(p)
    ensures p.written == LeftWritten(p) + QueuedWritten(p)
    ensures Written(p, id) == Chunks(LeftWritten(p), id) + Chunks(QueuedWritten(p), id)
    ensures SameSizes(Chunks(LeftWritten(p), id), Chunks(Left(p), id))
    ensures SameSizes(Written(p, id), Chunks(p.normalLog, id)) && Total(Written(p, id)) == Enqueued(p, id)
  {
    var k := Out(p);
    assert p.written == p.written[..k] + p.written[k..];
    ChunksAppend(p.written[..k], p.written[k..], id);
    assert Twins(p.written[..k], p.normalLog[..k]);
    TwinChunks(p.written[..k], p.normalLog[..k], id);
    TwinChunks(p.written, p.normalLog, id);
  }
}
