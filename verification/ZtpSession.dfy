/** The `Stream` and `Session` objects of internal/protocol/ztp, field by field.  Every method
    is proved against the functions of ZtpProtocol. */
module ZtpSession {
  import opened Bytes
  import opened ZtpFrame
  import opened ZtpProtocol

  datatype ReadError = EndOfStream | ReadTimeout | SessionClosed

  class Stream {
    const id: uint32
    const isLocalInit: bool
    var recvCh: seq<seq<byte>>
    var isClosed: bool
    var remoteClosed: bool
    var sentBytes: uint32
    var ackedBytes: uint32
    var windowSize: uint32
    var receivedBytes: uint32
    ghost var sentTotal: nat  // `sentBytes` without wrap-around

    ghost predicate Counted()
      reads this
    {
      sentBytes == Wrap32(sentTotal)
    }

    constructor (id: uint32, isLocalInit: bool)
      ensures this.id == id && this.isLocalInit == isLocalInit && State() == NewStream
      ensures Counted() && sentTotal == 0
    {
      this.id, this.isLocalInit := id, isLocalInit;
      recvCh, isClosed, remoteClosed := [], false, false;
      sentBytes, ackedBytes, windowSize, receivedBytes := 0, 0, INITIAL_WINDOW, 0;
      sentTotal := 0;
    }

    ghost function State(): StreamState
      reads this
    {
      StreamState(sentBytes, ackedBytes, windowSize, receivedBytes, recvCh, isClosed, remoteClosed)
    }

    /** The window check of `Write`. */
    method WindowAllows(chunkSize: nat) returns (ok: bool)
      ensures ok <==> Wrap32(chunkSize) <= Available(State())
    {
      var unacked := Wrap32(sentBytes - ackedBytes);
      var available := Wrap32(windowSize - unacked);
      ok := Wrap32(chunkSize) <= available;
    }

    /** `sentBytes.Add(n)`. */
    method CountSent(n: nat)
      requires Counted()
      modifies this`sentBytes, this`sentTotal
      ensures Counted() && sentTotal == old(sentTotal) + n && sentBytes == Wrap32(old(sentBytes) + n)
    {
      WrapTwice(sentTotal, n);
      sentBytes := Wrap32(sentBytes + n);
      sentTotal := sentTotal + n;
    }

    /** `Read`: the front of the oldest payload; what the buffer has no room for is gone.  `why` is how the
        wait ends when nothing is there to be read. */
    method Read(p: array<byte>, why: ReadError) returns (n: nat, err: Option<ReadError>)
      modifies this`recvCh, p
      ensures n <= p.Length
      ensures err.None? <==> !old(isClosed) && old(recvCh) != [] && old(recvCh)[0] != []
      ensures recvCh == if old(isClosed) || old(recvCh) == [] then old(recvCh) else old(recvCh)[1..]
      ensures err.None? ==> n == Min(|old(recvCh)[0]|, p.Length) && p[..n] == old(recvCh)[0][..n]
      ensures err.Some? ==>
                && n == 0 && p[..] == old(p[..])
                && err.value == if old(isClosed) || old(remoteClosed) || old(recvCh) != [] then EndOfStream else why
    {
      if isClosed || (remoteClosed && recvCh == []) {
        return 0, Some(EndOfStream);
      }
      if recvCh == [] {
        return 0, Some(why);
      }
      var data := recvCh[0];
      recvCh := recvCh[1..];
      if data == [] {
        return 0, Some(EndOfStream);
      }
      n, err := Min(|data|, p.Length), None;
      CopyTo(p, 0, data[..n]);
    }

    /** What handlers in other goroutines may do to a stream while its writer waits: everything
        except touch `sentBytes` and open it again. */
    method Interference()
      modifies this
      ensures sentBytes == old(sentBytes) && sentTotal == old(sentTotal)
      ensures old(isClosed) ==> isClosed
    {
      if * {
        ackedBytes, windowSize, receivedBytes, recvCh := *, *, *, *;
        var closes: bool, ends: bool := *, *;
        isClosed, remoteClosed := isClosed || closes, remoteClosed || ends;
      }
    }
  }

  /** A frame as the normal queue holds it.  The payload of a data frame is a slice of the buffer that
      its writer was given, and stays one until the frame is encoded. */
  datatype Queued = Made(frame: Frame) | Sliced(id: uint32, data: array<byte>, from: nat, to: nat)

  /** What the frame would be encoded as now. */
  function Now(q: Queued): Frame
    reads if q.Sliced? then {q.data} else {}
  {
    match q
    case Made(f) => f
    case Sliced(id, data, from, to) => DataFrame(id, if from <= to <= data.Length then data[from..to] else [])
  }

  ghost function Buffers(qs: seq<Queued>): set<array<byte>> {
    set q | q in qs && q.Sliced? :: q.data
  }

  ghost function Contents(qs: seq<Queued>): seq<Frame>
    reads Buffers(qs)
  {
    if qs == [] then [] else Contents(qs[..|qs| - 1]) + [Now(qs[|qs| - 1])]
  }

  /** What a queue holds depends on nothing but the buffers it refers to. */
  twostate lemma SameContents(qs: seq<Queued>)
    requires forall q :: q in qs && q.Sliced? ==> unchanged(q.data)
    ensures Contents(qs) == old(Contents(qs))
  {
    assert forall b :: b in Buffers(qs) ==> unchanged(b);
  }

  lemma ContentsSnoc(qs: seq<Queued>, q: Queued)
    ensures Contents(qs + [q]) == Contents(qs) + [Now(q)]
  {
    assert (qs + [q])[..|qs|] == qs;
  }

  lemma {:induction false} ContentsAt(qs: seq<Queued>)
    ensures |Contents(qs)| == |qs| && forall k :: 0 <= k < |qs| ==> Contents(qs)[k] == Now(qs[k])
    decreases |qs|
  {
    if qs != [] {
      ContentsAt(qs[..|qs| - 1]);
    }
  }

  lemma WrappedOne(qs: seq<Queued>, f: Frame)
    ensures Wrapped([f]) == [Made(f)] && qs + Wrapped([]) == qs
  {
  }

  lemma ContentsRest(qs: seq<Queued>)
    requires qs != []
    ensures Contents(qs) != [] && Contents(qs)[0] == Now(qs[0]) && Contents(qs[1..]) == Contents(qs)[1..]
  {
    hide Contents;
    ContentsAt(qs);
    ContentsAt(qs[1..]);
  }

  lemma ContentsAppend(qs: seq<Queued>, fs: seq<Frame>)
    ensures Contents(qs + Wrapped(fs)) == Contents(qs) + fs
  {
    hide Contents;
    ContentsAt(qs);
    ContentsAt(qs + Wrapped(fs));
  }

  function Wrapped(fs: seq<Frame>): seq<Queued> {
    seq(|fs|, k requires 0 <= k < |fs| => Made(fs[k]))
  }

  /** A frame put into the normal queue, and the streams as they were then. */
  datatype Logged = Logged(frame: Frame, streams: map<uint32, StreamState>)

  function Frames(log: seq<Logged>): seq<Frame> {
    if log == [] then [] else Frames(log[..|log| - 1]) + [log[|log| - 1].frame]
  }

  /** Every data frame of stream `id` in the log met a window that allowed it when it was queued. */
  predicate Checked(log: seq<Logged>, id: uint32) {
    forall l :: l in log && l.frame.kind == TYPE_DATA && l.frame.streamID == id
      ==> id in l.streams && MaySend(l.streams[id], l.frame.payload)
  }

  lemma FramesSnoc(log: seq<Logged>, l: Logged)
    ensures Frames(log + [l]) == Frames(log) + [l.frame]
  {
    assert (log + [l])[..|log|] == log;
  }

  datatype WriteError = StreamClosed | SendError | WriteTimeout

  class Session {
    const config: Config
    var streams: map<uint32, Stream>
    ghost var known: map<uint32, Stream>  // every stream made here, also after it left the map
    var nextStream: uint32
    var highPriorityCh: seq<Frame>
    var normalPriorityCh: seq<Queued>
    var lowPriorityCh: seq<Frame>
    var acceptCh: seq<Stream>
    var failed: bool
    ghost var log: seq<Logged>  // every frame ever put into the normal queue

    constructor (config: Config)
      ensures Valid() && this.config == config
      ensures View() == Endpoint(map[], {}, 1, [], [], [], false) && log == []
    {
      this.config := config;
      streams, known, nextStream := map[], map[], 1;
      highPriorityCh, normalPriorityCh, lowPriorityCh, acceptCh := [], [], [], [];
      failed, log := false, [];
    }

    ghost predicate Valid()
      reads this`known, this`streams
    {
      && (forall i :: i in known ==> known[i].id == i)
      && (forall i :: i in streams ==> i in known && known[i] == streams[i])
    }

    ghost function States(): map<uint32, StreamState>
      reads this`known, known.Values
    {
      map i | i in known :: known[i].State()
    }

    ghost function View(): Endpoint
      reads this, known.Values, Buffers(normalPriorityCh)
    {
      Endpoint(States(), streams.Keys, nextStream, highPriorityCh, Contents(normalPriorityCh), lowPriorityCh, failed)
    }

    /** A call that touches one stream changes the state of no other. */
    twostate lemma OnlyStream(stream: Stream)
      requires stream.id in known && known == old(known) && known[stream.id] == stream
      requires old(Valid()) && forall i :: i in known && i != stream.id ==> unchanged(known[i])
      ensures States() == old(States())[stream.id := stream.State()]
    {
    }

    ghost function Note(frame: Frame): (entries: seq<Logged>)
      reads this`known, known.Values
    {
      if PriorityOf(frame) == NormalPriority then [Logged(frame, States())] else []
    }

    /** The normal queue with `q` put at its end, if that is where it belongs. */
    ghost function With(q: Queued): seq<Queued>
      reads this`normalPriorityCh, if q.Sliced? then {q.data} else {}
    {
      if PriorityOf(Now(q)) == NormalPriority then normalPriorityCh + [q] else normalPriorityCh
    }

    /** Puts a frame into the queue of its priority. */
    method Put(q: Queued)
      requires Valid()
      modifies this`highPriorityCh, this`normalPriorityCh, this`lowPriorityCh, this`log
      ensures Valid() && View() == Enqueue(old(View()), Now(q)) && log == old(log) + old(Note(Now(q)))
      ensures normalPriorityCh == old(With(q))
    {
      hide Contents, States, Now;
      var frame := Now(q);
      if frame.HasFlag(FLAG_PRIORITY) {
        highPriorityCh := highPriorityCh + [frame];
      } else if frame.HasFlag(FLAG_LOW_PRIORITY) {
        lowPriorityCh := lowPriorityCh + [frame];
      } else {
        normalPriorityCh := normalPriorityCh + [q];
        log := log + [Logged(frame, States())];
        ContentsSnoc(old(normalPriorityCh), q);
      }
      SameContents(old(normalPriorityCh));
    }

    /** How full the queue of `frame` is. */
    function Used(frame: Frame): (used: nat)
      reads this`highPriorityCh, this`normalPriorityCh, this`lowPriorityCh
    {
      if frame.HasFlag(FLAG_PRIORITY) then |highPriorityCh|
      else if frame.HasFlag(FLAG_LOW_PRIORITY) then |lowPriorityCh| else |normalPriorityCh|
    }

    lemma UsedIsLength(frame: Frame)
      ensures Used(frame) == |Queue(View(), PriorityOf(frame))|
    {
      ContentsAt(normalPriorityCh);
    }

    /** `sendFrame`: fails when the queue stays full for too long. */
    method SendFrame(q: Queued) returns (ok: bool)
      requires Valid()
      modifies this`highPriorityCh, this`normalPriorityCh, this`lowPriorityCh, this`log
      ensures Valid() && (ok <==> HasRoom(old(View()), Now(q), config))
      ensures ok ==> && View() == Enqueue(old(View()), Now(q)) && log == old(log) + old(Note(Now(q)))
                     && normalPriorityCh == old(With(q))
      ensures !ok ==> View() == old(View()) && log == old(log) && normalPriorityCh == old(normalPriorityCh)
    {
      UsedIsLength(Now(q));
      hide Contents, States, Now, Enqueue, PriorityOf;
      var used := Used(Now(q));
      if used >= config.sendCap {
        return false;
      }
      Put(q);
      ok := true;
    }

    /** One tick of `pingLoop`. */
    method Ping() returns (ok: bool)
      requires Valid()
      modifies this`highPriorityCh, this`normalPriorityCh, this`lowPriorityCh, this`log
      ensures Valid() && (ok <==> HasRoom(old(View()), PingFrame(), config))
      ensures ok ==> View() == Enqueue(old(View()), PingFrame())
      ensures !ok ==> View() == old(View())
      ensures normalPriorityCh == (if ok then old(With(Made(PingFrame()))) else old(normalPriorityCh))
    {
      ok := SendFrame(Made(PingFrame()));
    }

    /** `trySendFrame`. */
    method TrySendFrame(frame: Frame) returns (ok: bool)
      requires Valid()
      modifies this`highPriorityCh, this`normalPriorityCh, this`lowPriorityCh, this`log
      ensures Valid() && View() == TrySend(old(View()), frame, config)
      ensures ok <==> |Queue(old(View()), PriorityOf(frame))| < config.sendCap
      ensures normalPriorityCh == (if ok then old(With(Made(frame))) else old(normalPriorityCh))
      ensures normalPriorityCh == old(normalPriorityCh) + Wrapped(Added(old(View()).normal, View().normal))
    {
      WrappedOne(normalPriorityCh, frame);
      AddedIs(View().normal, frame);
      UsedIsLength(frame);
      hide Contents, States, Added, Wrapped;
      var used := Used(frame);
      if used >= config.sendCap {
        return false;
      }
      Put(Made(frame));
      ok := true;
    }

    /** `OpenStream`; when `sendFrame` fails, the stream stays registered although the caller does
        not get it. */
    method Open() returns (stream: Option<Stream>)
      requires Valid()
      modifies this
      ensures Valid()
      ensures stream.Some? <==>
                old(nextStream) <= config.maxStreams && HasRoom(old(View()), OpenFrame(old(nextStream)), config)
      ensures stream.Some? ==>
                && fresh(stream.value) && stream.value.id == old(nextStream) && stream.value.isLocalInit
                && View() == OpenStream(old(View()))
                && normalPriorityCh == old(normalPriorityCh) + [Made(OpenFrame(old(nextStream)))]
      ensures stream.None? && old(nextStream) <= config.maxStreams ==>
                var e := old(View());
                View() == e.(streams := e.streams[e.next := NewStream], open := e.open + {e.next},
                             next := Wrap32(e.next + 2))
      ensures old(nextStream) > config.maxStreams ==>
                stream.None? && View() == old(View()).(next := Wrap32(old(nextStream) + 2))
    {
      hide Contents, States, Enqueue, Valid;
      var streamID := nextStream;
      nextStream := Wrap32(nextStream + 2);
      SameContents(normalPriorityCh);
      if streamID > config.maxStreams {
        return None;
      }
      var made := MakeStream(streamID, true);
      assert View() == var e := old(View());
        e.(streams := e.streams[e.next := NewStream], open := e.open + {e.next}, next := Wrap32(e.next + 2));
      var ok := SendFrame(Made(OpenFrame(streamID)));
      stream := if ok then Some(made) else None;
    }

    /** Makes a stream and registers it in the map. */
    method MakeStream(id: uint32, isLocalInit: bool) returns (stream: Stream)
      requires Valid()
      modifies this`streams, this`known
      ensures Valid() && fresh(stream) && stream.id == id && id in streams && streams[id] == stream
      ensures stream.isLocalInit == isLocalInit
      ensures View() == old(View()).(streams := old(States())[id := NewStream], open := old(View()).open + {id})
    {
      hide Contents;
      stream := new Stream(id, isLocalInit);
      streams := streams[id := stream];
      known := known[id := stream];
      assert States() == old(States())[id := NewStream];
      SameContents(normalPriorityCh);
    }

    /** `handleDataFrame`.  A receive channel that stays full drops the payload. */
    method HandleDataFrame(frame: Frame)
      requires Valid()
      modifies this`highPriorityCh, this`normalPriorityCh, this`lowPriorityCh, this`log, known.Values
      ensures Valid() && View() == HandleData(old(View()), frame, config)
      ensures normalPriorityCh == old(normalPriorityCh) + Wrapped(Added(old(View()).normal, View().normal))
    {
      hide Contents, NewAckFrame, ResetFrame, TrySend, Wrap32;
      if frame.streamID !in streams {
        var _ := TrySendFrame(ResetFrame(frame.streamID, "stream not found"));
        return;
      }
      var stream := streams[frame.streamID];
      if |stream.recvCh| >= config.recvCap {
        return;
      }
      PutIntoChannel(stream, frame.payload);
      var _ := TrySendFrame(NewAckFrame(frame.streamID, stream.receivedBytes, INITIAL_WINDOW));
    }

    method PutIntoChannel(stream: Stream, payload: seq<byte>)
      requires Valid() && stream.id in known && known[stream.id] == stream
      modifies stream`recvCh, stream`receivedBytes
      ensures Valid() && stream.State() == Deliver(old(stream.State()), payload)
      ensures View() == old(View()).(streams := old(States())[stream.id := stream.State()])
    {
      hide Contents, Wrap32;
      stream.recvCh := stream.recvCh + [payload];
      stream.receivedBytes := Wrap32(stream.receivedBytes + |payload|);
      OnlyStream(stream);
      SameContents(normalPriorityCh);
    }

    /** `handleStreamOpenFrame`. */
    method HandleStreamOpenFrame(frame: Frame)
      requires Valid()
      modifies this
      ensures Valid() && View() == HandleOpen(old(View()), frame, config)
      ensures normalPriorityCh == old(normalPriorityCh) + Wrapped(Added(old(View()).normal, View().normal))
      ensures frame.streamID !in old(streams) ==> frame.streamID in streams && !streams[frame.streamID].isLocalInit
      ensures if frame.streamID in old(streams) || |old(acceptCh)| >= config.recvCap then acceptCh == old(acceptCh)
              else frame.streamID in streams && acceptCh == old(acceptCh) + [streams[frame.streamID]]
    {
      hide Contents, ResetFrame, TrySend, States;
      if frame.streamID in streams {
        var _ := TrySendFrame(ResetFrame(frame.streamID, "stream already exists"));
        return;
      }
      var stream := MakeStream(frame.streamID, false);
      if |acceptCh| < config.recvCap {
        acceptCh := acceptCh + [stream];
        SameContents(normalPriorityCh);
      }
    }

    /** `handleStreamCloseFrame` and `handleResetFrame`. */
    method HandleStreamCloseFrame(frame: Frame)
      requires Valid()
      modifies this`streams, known.Values
      ensures Valid() && View() == HandleClose(old(View()), frame)
    {
      if frame.streamID in streams {
        var stream := streams[frame.streamID];
        stream.remoteClosed := true;
        streams := streams - {frame.streamID};
        OnlyStream(stream);
        assert old(States())[frame.streamID] == old(stream.State());
        SameContents(normalPriorityCh);
      }
    }

    /** `handleAckFrame`. */
    method HandleAckFrame(frame: Frame)
      requires Valid()
      modifies this`failed, known.Values
      ensures Valid() && View() == HandleAck(old(View()), frame)
    {
      var ack := DecodeAckPayload(frame.payload);
      if ack.None? {
        failed := true;
        SameContents(normalPriorityCh);
        return;
      }
      if frame.streamID in streams {
        var stream := streams[frame.streamID];
        if ack.value.0 > stream.ackedBytes {
          stream.ackedBytes := ack.value.0;
        }
        stream.windowSize := ack.value.1;
        OnlyStream(stream);
        assert old(States())[frame.streamID] == old(stream.State());
        SameContents(normalPriorityCh);
      }
    }

    /** `handleFrame`. */
    method HandleFrame(frame: Frame)
      requires Valid()
      modifies this, known.Values
      ensures Valid() && View() == Handle(old(View()), frame, config)
      ensures normalPriorityCh == old(normalPriorityCh) + Wrapped(Added(old(View()).normal, View().normal))
    {
      if frame.kind == TYPE_DATA {
        HandleDataFrame(frame);
      } else if frame.kind == TYPE_STREAM_OPEN {
        HandleStreamOpenFrame(frame);
      } else if frame.kind == TYPE_STREAM_CLOSE || frame.kind == TYPE_RESET {
        HandleStreamCloseFrame(frame);
      } else if frame.kind == TYPE_ACK {
        HandleAckFrame(frame);
      } else if frame.kind == TYPE_PING {
        var _ := TrySendFrame(NewFrame(TYPE_ACK, frame.streamID, Text("pong")));
      } else {
        failed := true;
        SameContents(normalPriorityCh);
      }
    }

    /** Frames that other goroutines put into the queues between two looks of `sendLoop`. */
    method Arrivals()
      requires Valid()
      modifies this`highPriorityCh, this`normalPriorityCh, this`lowPriorityCh
      ensures Valid() && Longer(old(View()), View()) && Grown(old(View()), View(), old(normalPriorityCh), normalPriorityCh)
    {
      hide Contents, States, Added, Wrapped;
      var high: seq<Frame>, normal: seq<Frame>, low: seq<Frame> := *, *, *;
      highPriorityCh, lowPriorityCh := highPriorityCh + high, lowPriorityCh + low;
      normalPriorityCh := normalPriorityCh + Wrapped(normal);
      ContentsAppend(old(normalPriorityCh), normal);
      SameContents(old(normalPriorityCh));
      AppendedIs(old(View()).normal, normal);
    }

    /** One round of `sendLoop`: takes the oldest frame of the first queue that it finds not empty.
        `mid` is the session at that look; frames may arrive between the looks, but none is taken
        before one of a higher queue that was there when the round began. */
    method TakeNext() returns (frame: Option<Frame>, ghost c: Priority, ghost mid: Endpoint, ghost queue: seq<Queued>)
      requires Valid()
      modifies this`highPriorityCh, this`normalPriorityCh, this`lowPriorityCh
      ensures Valid() && Longer(old(View()), mid) && Grown(old(View()), mid, old(normalPriorityCh), queue)
      ensures normalPriorityCh == if frame.Some? && c == NormalPriority && queue != [] then queue[1..] else queue
      ensures frame.None? ==> View() == mid && mid.high == mid.normal == mid.low == []
      ensures frame.Some? ==>
                && Queue(mid, c) != [] && frame.value == Queue(mid, c)[0] && View() == Take(mid, c)
                && (c != HighPriority ==> old(View()).high == [])
                && (c == LowPriority ==> old(View()).normal == [])
    {
      hide Contents, States, Longer, Grown;
      mid, queue, c := View(), normalPriorityCh, HighPriority;
      GrownNot(mid, queue);
      if |highPriorityCh| > 0 {
        frame := TakeHigh();
        return;
      }
      Arrivals();
      mid, queue, c := View(), normalPriorityCh, NormalPriority;
      if |normalPriorityCh| > 0 {
        frame := TakeNormal();
        return;
      }
      ContentsAt(normalPriorityCh);
      NothingThere(old(View()), mid);
      frame, c, mid, queue := TakeLast(old(View()), mid, old(normalPriorityCh), queue);
    }

    lemma NothingThere(e: Endpoint, e': Endpoint)
      requires Longer(e, e') && e'.normal == []
      ensures e.normal == []
    {
    }

    /** The last two looks, after the first two have found nothing. */
    method TakeLast(ghost start: Endpoint, ghost now: Endpoint, ghost first: seq<Queued>, ghost second: seq<Queued>)
      returns (frame: Option<Frame>, ghost c: Priority, ghost mid: Endpoint, ghost queue: seq<Queued>)
      requires Valid() && now == View() && second == normalPriorityCh
      requires Longer(start, now) && Grown(start, now, first, second)
      modifies this`highPriorityCh, this`normalPriorityCh, this`lowPriorityCh
      ensures Valid() && Longer(start, mid) && Grown(start, mid, first, queue)
      ensures normalPriorityCh == if frame.Some? && c == NormalPriority && queue != [] then queue[1..] else queue
      ensures frame.None? ==> View() == mid && mid.high == mid.normal == mid.low == []
      ensures frame.Some? ==> Queue(mid, c) != [] && frame.value == Queue(mid, c)[0] && View() == Take(mid, c)
    {
      hide Contents, States, Grown;
      Arrivals();
      frame, mid, c, queue := None, View(), LowPriority, normalPriorityCh;
      GrownTwice(start, now, mid, first, second, queue);
      if |lowPriorityCh| > 0 {
        frame := TakeLow();
      } else {
        // the blocking `select`: any of the three
        Arrivals();
        GrownTwice(start, mid, View(), first, queue, normalPriorityCh);
        queue := normalPriorityCh;
        frame, c, mid := TakeAny();
      }
    }

    method TakeHigh() returns (frame: Option<Frame>)
      requires Valid() && |highPriorityCh| > 0
      modifies this`highPriorityCh
      ensures Valid() && frame == Some(old(View()).high[0]) && View() == Take(old(View()), HighPriority)
    {
      frame := Some(highPriorityCh[0]);
      highPriorityCh := highPriorityCh[1..];
      SameContents(normalPriorityCh);
    }

    /** The frame is encoded when it is taken. */
    method TakeNormal() returns (frame: Option<Frame>)
      requires Valid() && |normalPriorityCh| > 0
      modifies this`normalPriorityCh
      ensures Valid() && normalPriorityCh == old(normalPriorityCh)[1..]
      ensures old(View()).normal != [] && frame == Some(old(View()).normal[0])
      ensures View() == Take(old(View()), NormalPriority)
    {
      hide Contents, States;
      ContentsRest(normalPriorityCh);
      frame := Some(Now(normalPriorityCh[0]));
      normalPriorityCh := normalPriorityCh[1..];
      SameContents(old(normalPriorityCh[1..]));
    }

    method TakeLow() returns (frame: Option<Frame>)
      requires Valid() && |lowPriorityCh| > 0
      modifies this`lowPriorityCh
      ensures Valid() && frame == Some(old(View()).low[0]) && View() == Take(old(View()), LowPriority)
    {
      frame := Some(lowPriorityCh[0]);
      lowPriorityCh := lowPriorityCh[1..];
      SameContents(normalPriorityCh);
    }

    /** The blocking `select` of `sendLoop`, which takes from any queue that is not empty. */
    method TakeAny() returns (frame: Option<Frame>, ghost c: Priority, ghost mid: Endpoint)
      requires Valid()
      modifies this`highPriorityCh, this`normalPriorityCh, this`lowPriorityCh
      ensures var was := old(normalPriorityCh);
              normalPriorityCh == if frame.Some? && c == NormalPriority && was != [] then was[1..] else was
      ensures Valid() && mid == old(View())
      ensures frame.None? ==> View() == mid && mid.high == mid.normal == mid.low == []
      ensures frame.Some? ==> Queue(mid, c) != [] && frame.value == Queue(mid, c)[0] && View() == Take(mid, c)
    {
      hide Contents, States;
      frame, c, mid := None, HighPriority, View();
      ContentsAt(normalPriorityCh);
      if {
        case |highPriorityCh| > 0 =>
          frame := TakeHigh();
        case |normalPriorityCh| > 0 =>
          frame := TakeNormal();
          c := NormalPriority;
        case |lowPriorityCh| > 0 =>
          frame := TakeLow();
          c := LowPriority;
        case |highPriorityCh| == |normalPriorityCh| == |lowPriorityCh| == 0 =>
      }
    }

    /** `Stream.Close`: closes locally, leaves the map, then sends the close frame if it can. */
    method CloseStream(stream: Stream) returns (sent: bool)
      requires Valid() && stream.id in known && known[stream.id] == stream
      modifies this`streams, this`highPriorityCh, this`normalPriorityCh, this`lowPriorityCh, this`log, stream`isClosed
      ensures Valid()
      ensures old(stream.isClosed) ==> !sent && View() == old(View())
      ensures var left := old(View()).(streams := old(States())[stream.id := old(stream.State()).(isClosed := true)],
                                       open := old(View()).open - {stream.id});
              !old(stream.isClosed) ==>
                && View() == (if sent then Enqueue(left, CloseFrame(stream.id)) else left)
                && (sent <==> HasRoom(left, CloseFrame(stream.id), config))
                && normalPriorityCh == old(normalPriorityCh) + (if sent then [Made(CloseFrame(stream.id))] else [])
    {
      hide States, Enqueue;
      if stream.isClosed {
        return false;
      }
      hide Contents, States, Text, Enqueue;
      stream.isClosed := true;
      streams := streams - {stream.id};
      OnlyStream(stream);
      SameContents(normalPriorityCh);
      sent := SendFrame(Made(CloseFrame(stream.id)));
    }

    /** What other goroutines may do to the queues while a writer waits: drain them and put
        frames in, except data frames of the stream being written. */
    method Interference(ghost id: uint32)
      requires Valid()
      modifies this`highPriorityCh, this`normalPriorityCh, this`lowPriorityCh, this`log
      ensures Valid() && Chunks(Frames(log), id) == old(Chunks(Frames(log), id))
      ensures old(Checked(log, id)) ==> Checked(log, id)
    {
      if * {
        highPriorityCh, normalPriorityCh, lowPriorityCh := *, *, *;
      }
    }

    /** `Stream.Write` of the first `size` bytes of a buffer.  `chunks` are the payloads it has put
        into the normal queue, in order, each when the window allowed it; at most the last of them is
        not counted in `n` and `sentBytes`, when the write is abandoned between the send and the
        count, as it is behind chunk `late`, when its timer fires there.  They stay slices of the buffer
        after the write has returned.  `refused` are the states in which the window has refused the
        chunk after them. */
    method Write(stream: Stream, data: array<byte>, size: nat, patience: nat, late: Option<nat>)
      returns (n: nat, err: Option<WriteError>, ghost chunks: seq<seq<byte>>, ghost refused: seq<StreamState>)
      requires Valid() && stream.Counted() && stream.id in known && known[stream.id] == stream && size <= data.Length
      modifies this`highPriorityCh, this`normalPriorityCh, this`lowPriorityCh, this`log, stream
      ensures Valid() && stream.Counted() && n <= size && stream.sentTotal == old(stream.sentTotal) + n
      ensures Chunks(Frames(log), stream.id) == old(Chunks(Frames(log), stream.id)) + chunks
      ensures old(Checked(log, stream.id)) ==> Checked(log, stream.id)
      ensures Pieces(chunks, data[..size])
      ensures old(stream.isClosed) ==>
                n == 0 && err == Some(StreamClosed) && chunks == [] && View() == old(View()) && log == old(log)
      ensures !old(stream.isClosed) ==> Ends(stream, n, err, |chunks|, refused, data[..size], patience, late)
      ensures !old(stream.isClosed) && size > 0 && MaySend(old(stream.State()), data[..Min(size, MAX_FRAME_SIZE)]) ==>
                if |old(View()).normal| < config.sendCap then chunks != []
                else err == Some(SendError) && View() == old(View())
    {
      hide Chunks, Frames, Checked, Pieces, MaySend, Contents, States, Ends, Going;
      n, chunks, refused := 0, [], [];
      ghost var w := Started(Chunks(Frames(log), stream.id), stream.sentTotal, View(), stream.State());
      if stream.isClosed {
        NothingWritten(w.chunks, data[..size]);
        return 0, Some(StreamClosed), [], [];
      }
      BeginsGoing(stream, data[..size], w);
      assert data[..size][..Min(size, MAX_FRAME_SIZE)] == data[..Min(size, MAX_FRAME_SIZE)];
      var passes := 0;
      while n < size
        invariant n <= size && Going(stream, data[..size], n, chunks, w) && passes == |chunks|
        invariant old(Checked(log, stream.id)) ==> Checked(log, stream.id)
        invariant late.Some? ==> late.value >= passes
      {
        err, chunks, refused := WritePass(stream, data, size, n, passes, patience, late, chunks, w);
        if err.Some? {
          assert old(stream.State()).isClosed == old(stream.isClosed);
          return;
        }
        n, passes := n + Min(size - n, MAX_FRAME_SIZE), passes + 1;
      }
      err := None;
      AllWritten(stream, data[..size], n, chunks, w, refused, patience, late);
    }

    /** The write that started at `w` has written `n` bytes of `data` so far, and nothing has ended it. */
    ghost predicate Going(stream: Stream, data: seq<byte>, n: nat, chunks: seq<seq<byte>>, w: Start)
      reads this, known.Values, Buffers(normalPriorityCh), stream
    {
      && Valid() && stream.Counted() && n == Min(|chunks| * MAX_FRAME_SIZE, |data|)
      && Sofar(stream, data, n, chunks, w)
      && (chunks == [] ==> View() == w.view && stream.State() == w.state)
    }

    /** What it has put into the queue; the first chunk at once if it may and there is room. */
    ghost predicate Sofar(stream: Stream, data: seq<byte>, n: nat, chunks: seq<seq<byte>>, w: Start)
      reads this, stream
    {
      && stream.sentTotal == w.total + n && Chunks(Frames(log), stream.id) == w.chunks + chunks && Pieces(chunks, data)
      && (chunks != [] && MaySend(w.state, data[..Min(|data|, MAX_FRAME_SIZE)]) ==> |w.view.normal| < config.sendCap)
    }

    lemma BeginsGoing(stream: Stream, data: seq<byte>, w: Start)
      requires Valid() && stream.Counted()
      requires w == Started(Chunks(Frames(log), stream.id), stream.sentTotal, View(), stream.State())
      ensures Going(stream, data, 0, [], w)
    {
      hide Chunks, Frames, MaySend, Contents, States, View;
      NothingWritten(w.chunks, data);
    }

    lemma AllWritten(stream: Stream, data: seq<byte>, n: nat, chunks: seq<seq<byte>>, w: Start,
                     refused: seq<StreamState>, patience: nat, late: Option<nat>)
      requires Going(stream, data, n, chunks, w) && n == |data|
      ensures Valid() && stream.Counted() && Sofar(stream, data, n, chunks, w)
      ensures Ends(stream, n, None, |chunks|, refused, data, patience, late)
      ensures data != [] ==> chunks != []
    {
      hide Sofar, View;
    }

    /** One pass of its loop, and how the write ends if that ends it. */
    method WritePass(stream: Stream, data: array<byte>, size: nat, n: nat, passes: nat, patience: nat, late: Option<nat>,
                     ghost chunks: seq<seq<byte>>, ghost w: Start)
      returns (err: Option<WriteError>, ghost chunks': seq<seq<byte>>, ghost refused: seq<StreamState>)
      requires n < size <= data.Length && stream.id in known && known[stream.id] == stream
      requires Going(stream, data[..size], n, chunks, w) && passes == |chunks| && (late.Some? ==> late.value >= passes)
      modifies this`highPriorityCh, this`normalPriorityCh, this`lowPriorityCh, this`log, stream
      ensures err.None? ==> Going(stream, data[..size], n + Min(size - n, MAX_FRAME_SIZE), chunks', w)
                            && |chunks'| == passes + 1 && (late.Some? ==> late.value > passes)
      ensures err.Some? ==> Valid() && stream.Counted() && Sofar(stream, data[..size], n, chunks', w)
                            && Ends(stream, n, err, |chunks'|, refused, data[..size], patience, late)
                            && (chunks' == [] && MaySend(w.state, data[..Min(size, MAX_FRAME_SIZE)])
                                ==> err == Some(SendError) && View() == w.view && |w.view.normal| >= config.sendCap)
      ensures old(Checked(log, stream.id)) ==> Checked(log, stream.id)
    {
      hide Chunks, Frames, Checked, Pieces, MaySend, Contents, States, Valid;
      var chunkSize := Min(size - n, MAX_FRAME_SIZE);
      assert data[..size][n..n + chunkSize] == data[n..n + chunkSize];
      assert n == 0 ==> data[n..n + chunkSize] == data[..Min(size, MAX_FRAME_SIZE)];
      assert data[..size][..Min(size, MAX_FRAME_SIZE)] == data[..Min(size, MAX_FRAME_SIZE)];
      var sent;
      sent, err, refused := WriteChunk(stream, data, n, n + chunkSize, patience, late == Some(passes));
      chunks' := NextChunks(w.chunks, chunks, data[..size], n, chunkSize, sent);
      assert refused != [] ==> refused[0] in refused;
      assert n == passes * MAX_FRAME_SIZE;
    }

    /** How a write to an open stream ends, having sent `sent` chunks. */
    ghost predicate Ends(stream: Stream, n: nat, err: Option<WriteError>, sent: nat, refused: seq<StreamState>,
                         data: seq<byte>, patience: nat, late: Option<nat>)
      reads this, known.Values, Buffers(normalPriorityCh), stream
    {
      match err
      case None => n == |data| && n == Min(sent * MAX_FRAME_SIZE, |data|)
      case Some(why) =>
        if late.Some? && late.value + 1 == sent then
          // the last chunk is in the queue, and not counted
          && n == late.value * MAX_FRAME_SIZE < |data| && why == (if stream.isClosed then StreamClosed else WriteTimeout)
        else
          && n == sent * MAX_FRAME_SIZE < |data|
          && var next := data[n..Min(n + MAX_FRAME_SIZE, |data|)];
             match why
             case SendError => |View().normal| >= config.sendCap && MaySend(stream.State(), next) && |refused| <= patience
             case WriteTimeout => |refused| == patience + 1 && (forall r :: r in refused ==> !MaySend(r, next))
             case StreamClosed => 0 < |refused| <= patience && stream.isClosed && !MaySend(refused[0], next)
    }

    /** One pass of its loop: window, send, count. */
    method WriteChunk(stream: Stream, data: array<byte>, from: nat, to: nat, patience: nat, late: bool)
      returns (sent: bool, err: Option<WriteError>, ghost refused: seq<StreamState>)
      requires Valid() && stream.Counted() && stream.id in known && known[stream.id] == stream
      requires from < to <= data.Length && to - from <= MAX_FRAME_SIZE
      modifies this`highPriorityCh, this`normalPriorityCh, this`lowPriorityCh, this`log, stream
      ensures Valid() && stream.Counted() && (err.None? <==> sent && !late)
      ensures stream.sentTotal == old(stream.sentTotal) + (if err.None? then to - from else 0)
      ensures Chunks(Frames(log), stream.id)
              == old(Chunks(Frames(log), stream.id)) + (if sent then [data[from..to]] else [])
      ensures old(Checked(log, stream.id)) ==> Checked(log, stream.id)
      ensures RefusedAll(refused, old(stream.State()), data[from..to])
      ensures sent && late ==> err == Some(if stream.isClosed then StreamClosed else WriteTimeout)
      ensures !sent && err == Some(SendError) ==>
                && |View().normal| >= config.sendCap && MaySend(stream.State(), data[from..to]) && |refused| <= patience
                && (refused == [] ==> View() == old(View()))
      ensures !sent && err == Some(WriteTimeout) ==> |refused| == patience + 1
      ensures !sent && err == Some(StreamClosed) ==> 0 < |refused| <= patience && stream.isClosed
      ensures |old(View()).normal| >= config.sendCap && refused == [] ==> err == Some(SendError)
    {
      hide Chunks, Frames, Checked, Contents, States, MaySend, RefusedAll;
      ChunkIsNormal(stream.id, data[from..to]);
      sent, err, refused := WaitAndSend(stream, data, from, to, patience);
      if !sent {
        assert err.value.SendError? || err.value.WriteTimeout? || err.value.StreamClosed?;
        return;
      }
      Interference(stream.id);
      stream.Interference();
      if late {
        return true, Some(if stream.isClosed then StreamClosed else WriteTimeout), refused;
      }
      Count(stream, to - from);
      err := None;
    }

    /** `sentBytes.Add` of a stream of this session. */
    method Count(stream: Stream, size: nat)
      requires Valid() && stream.Counted() && stream.id in known && known[stream.id] == stream
      modifies stream`sentBytes, stream`sentTotal
      ensures Valid() && stream.Counted() && stream.sentTotal == old(stream.sentTotal) + size
      ensures var e, s := old(View()), old(stream.State());
              View() == e.(streams := e.streams[stream.id := s.(sent := Wrap32(s.sent + size))])
    {
      stream.CountSent(size);
      OnlyStream(stream);
      SameContents(normalPriorityCh);
    }

    /** The inner loop of `Write`, with `patience` rounds before its timeout, and the send after it.
        `refused` are the states in which the window check failed, in order. */
    method WaitAndSend(stream: Stream, data: array<byte>, from: nat, to: nat, patience: nat)
      returns (sent: bool, err: Option<WriteError>, ghost refused: seq<StreamState>)
      requires Valid() && stream.Counted() && stream.id in known && known[stream.id] == stream
      requires from < to <= data.Length && to - from <= MAX_FRAME_SIZE
      modifies this`highPriorityCh, this`normalPriorityCh, this`lowPriorityCh, this`log, stream
      ensures Valid() && stream.Counted() && stream.sentTotal == old(stream.sentTotal) && (sent <==> err.None?)
      ensures Chunks(Frames(log), stream.id)
              == old(Chunks(Frames(log), stream.id)) + (if sent then [data[from..to]] else [])
      ensures old(Checked(log, stream.id)) ==> Checked(log, stream.id)
      ensures RefusedAll(refused, old(stream.State()), data[from..to])
      ensures refused == [] && sent ==>
                && |old(View()).normal| < config.sendCap
                && View() == Enqueue(old(View()), DataFrame(stream.id, data[from..to]))
                && stream.State() == old(stream.State())
      ensures sent || err == Some(SendError) ==> |refused| <= patience && MaySend(stream.State(), data[from..to])
      ensures err == Some(SendError) ==> |View().normal| >= config.sendCap && (refused == [] ==> View() == old(View()))
      ensures err == Some(WriteTimeout) ==> |refused| == patience + 1 && refused[patience] == stream.State()
      ensures err == Some(StreamClosed) ==> 0 < |refused| <= patience && stream.isClosed
    {
      hide Chunks, Frames, Checked, Contents, MaySend;
      ChunkIsNormal(stream.id, data[from..to]);
      AppendNothing(Chunks(Frames(log), stream.id));
      refused := [];
      var rounds := 0;
      while true
        invariant Valid() && stream.Counted() && rounds == |refused| <= patience
        invariant stream.sentTotal == old(stream.sentTotal)
        invariant Chunks(Frames(log), stream.id) == old(Chunks(Frames(log), stream.id))
        invariant old(Checked(log, stream.id)) ==> Checked(log, stream.id)
        invariant RefusedAll(refused, old(stream.State()), data[from..to])
        invariant refused == [] ==> View() == old(View()) && stream.State() == old(stream.State())
        decreases patience - rounds
      {
        ghost var before := log;
        var fits;
        fits, sent := SendIfFits(stream, data, from, to);
        if fits {
          NoteChunk(before, View().streams, stream.id, data[from..to]);
          return sent, if sent then None else Some(SendError), refused;
        }
        refused := refused + [stream.State()];
        if rounds == patience {
          return false, Some(WriteTimeout), refused;
        }
        Interference(stream.id);
        stream.Interference();
        if stream.isClosed {
          return false, Some(StreamClosed), refused;
        }
        rounds := rounds + 1;
      }
    }

    /** The window check and, when it passes, the send of a slice of the caller's buffer. */
    method SendIfFits(stream: Stream, data: array<byte>, from: nat, to: nat) returns (fits: bool, sent: bool)
      requires Valid() && stream.id in known && known[stream.id] == stream
      requires from < to <= data.Length && to - from <= MAX_FRAME_SIZE
      modifies this`highPriorityCh, this`normalPriorityCh, this`lowPriorityCh, this`log
      ensures Valid() && (fits <==> MaySend(stream.State(), data[from..to]))
      ensures sent <==> fits && HasRoom(old(View()), DataFrame(stream.id, data[from..to]), config)
      ensures sent ==> && View() == Enqueue(old(View()), DataFrame(stream.id, data[from..to]))
                       && log == old(log) + [Logged(DataFrame(stream.id, data[from..to]), old(States()))]
                       && normalPriorityCh == old(normalPriorityCh) + [Sliced(stream.id, data, from, to)]
      ensures !sent ==> View() == old(View()) && log == old(log) && normalPriorityCh == old(normalPriorityCh)
    {
      sent := false;
      fits := stream.WindowAllows(to - from);
      SameContents(normalPriorityCh);
      if fits {
        sent := SendFrame(Sliced(stream.id, data, from, to));
      }
    }
  }

  /** `e'` is `e` with frames added to its queues. */
  predicate Longer(e: Endpoint, e': Endpoint) {
    && e.high <= e'.high && e.normal <= e'.normal && e.low <= e'.low
    && e' == e.(high := e'.high, normal := e'.normal, low := e'.low)
  }

  lemma AppendedIs(before: seq<Frame>, more: seq<Frame>)
    ensures Added(before, before + more) == more
  {
  }

  lemma AddedIs(before: seq<Frame>, f: Frame)
    ensures Added(before, before + [f]) == [f] && Added(before, before) == []
  {
  }

  /** The queue itself has grown by what its contents have grown. */
  predicate Grown(e: Endpoint, e': Endpoint, qs: seq<Queued>, qs': seq<Queued>) {
    qs' == qs + Wrapped(Added(e.normal, e'.normal))
  }

  lemma GrownTwice(e: Endpoint, e': Endpoint, e'': Endpoint, qs: seq<Queued>, qs': seq<Queued>, qs'': seq<Queued>)
    requires Longer(e, e') && Longer(e', e'') && Grown(e, e', qs, qs') && Grown(e', e'', qs', qs'')
    ensures Longer(e, e'') && Grown(e, e'', qs, qs'')
  {
    var a, b := Added(e.normal, e'.normal), Added(e'.normal, e''.normal);
    assert Added(e.normal, e''.normal) == a + b;
    assert Wrapped(a + b) == Wrapped(a) + Wrapped(b);
  }

  lemma GrownNot(e: Endpoint, qs: seq<Queued>)
    ensures Longer(e, e) && Grown(e, e, qs, qs)
  {
  }

  lemma NoteChunk(log: seq<Logged>, streams: map<uint32, StreamState>, id: uint32, chunk: seq<byte>)
    ensures var more := log + [Logged(DataFrame(id, chunk), streams)];
            && Chunks(Frames(more), id) == Chunks(Frames(log), id) + [chunk]
            && (Checked(log, id) && id in streams && MaySend(streams[id], chunk) ==> Checked(more, id))
  {
    FramesSnoc(log, Logged(DataFrame(id, chunk), streams));
    var fs := Frames(log);
    assert (fs + [DataFrame(id, chunk)])[..|fs|] == fs;
  }

  lemma ChunkIsNormal(id: uint32, chunk: seq<byte>)
    ensures PriorityOf(DataFrame(id, chunk)) == NormalPriority
  {
  }

  /** These are the states in which the window has refused `chunk`, beginning with `first`. */
  predicate RefusedAll(refused: seq<StreamState>, first: StreamState, chunk: seq<byte>) {
    && (forall r :: r in refused ==> !MaySend(r, chunk))
    && (refused != [] ==> refused[0] == first)
  }

  /** The chunks are the first pieces of `data`, each as long as a frame allows. */
  predicate Pieces(chunks: seq<seq<byte>>, data: seq<byte>) {
    forall j :: 0 <= j < |chunks| ==>
      j * MAX_FRAME_SIZE < |data| && chunks[j] == data[j * MAX_FRAME_SIZE..Min((j + 1) * MAX_FRAME_SIZE, |data|)]
  }

  /** The chunks of its stream that had been queued when a write started, their bytes, and the session and the
      stream as they were. */
  datatype Start = Started(chunks: seq<seq<byte>>, total: nat, view: Endpoint, state: StreamState)

  lemma NothingWritten(before: seq<seq<byte>>, data: seq<byte>)
    ensures before + [] == before && Pieces([], data)
  {
  }

  /** The chunks written, after a pass that has sent the next `k` bytes or none. */
  lemma NextChunks(before: seq<seq<byte>>, cs: seq<seq<byte>>, data: seq<byte>, n: nat, k: nat, sent: bool)
    returns (ds: seq<seq<byte>>)
    requires Pieces(cs, data) && n == |cs| * MAX_FRAME_SIZE < |data| && k == Min(|data| - n, MAX_FRAME_SIZE)
    ensures ds == (if sent then cs + [data[n..n + k]] else cs) && Pieces(ds, data)
    ensures before + cs + (if sent then [data[n..n + k]] else []) == before + ds
  {
    ds := if sent then cs + [data[n..n + k]] else cs;
  }

  /** What the pieces come to: the front of the data. */
  lemma {:induction false} PiecesAreFront(chunks: seq<seq<byte>>, data: seq<byte>)
    requires Pieces(chunks, data)
    ensures Flatten(chunks) == data[..Min(|chunks| * MAX_FRAME_SIZE, |data|)]
    ensures forall c :: c in chunks ==> 0 < |c| <= MAX_FRAME_SIZE
    decreases |chunks|
  {
    if chunks != [] {
      var init := chunks[..|chunks| - 1];
      PiecesAreFront(init, data);
      assert chunks[|chunks| - 1] in chunks;
    }
  }
}
