/** What holds in every state of every run of two Ztp sessions, for either direction: `p` sends and
    `q` receives, and `atX` says which end is `p`. */
module ZtpResults {
  import opened Bytes
  import opened ZtpFrame
  import opened ZtpProtocol
  import opened ZtpRun
  import opened ZtpInvariant
  import opened ZtpReach
  import opened ZtpBuffers

  // Failure

  /** An end has raised an error exactly when it has handled the answer to a ping, which it can only
      have if it has sent one. */
  lemma OnlyPingsFail(states: seq<Net>, events: seq<(bool, Event)>, cfg: Config, i: nat, atX: bool)
    requires Run(states, events, cfg) && i < |states|
    ensures var p := End(states[i], atX);
            && (p.e.failed <==> PongFrame(0) in p.handled)
            && (p.e.failed ==> PingFrame() in p.lowLog)
  {
    Reached(states, events, cfg, i, atX);
    var n := states[i];
    var p, q := End(n, atX), End(n, !atX);
    if PongFrame(0) in p.handled {
      PongComesFromPing(p, q, Wire(n, atX), Wire(n, !atX));
    }
  }

  lemma PongComesFromPing(p: Peer, q: Peer, pq: seq<Frame>, qp: seq<Frame>)
    requires Half(p, q, pq, EncodeAll(pq)) && Half(q, p, qp, EncodeAll(qp)) && PongFrame(0) in p.handled
    ensures PingFrame() in p.lowLog
  {
    PingIsLow();
    PipeMember(q, p.handled + qp, PongFrame(0));
    assert PongFrame(0) in q.normalLog;
    PipeMember(p, q.handled + pq, PingFrame());
  }

  /** Once a session has answered a ping and all it queued has arrived, the session that asked has
      failed. */
  lemma AnsweredPingFails(states: seq<Net>, events: seq<(bool, Event)>, cfg: Config, i: nat, atX: bool)
    requires Run(states, events, cfg) && i < |states|
    requires Wire(states[i], !atX) == [] && End(states[i], !atX).e.normal == []
    ensures End(states[i], atX).e.failed <==> PongFrame(0) in End(states[i], !atX).normalLog
  {
    Reached(states, events, cfg, i, atX);
    var p, q := End(states[i], atX), End(states[i], !atX);
    PingIsLow();
    AppendNothing(p.handled);
    AppendNothing(Only(p.handled, NormalPriority));
    if PongFrame(0) in p.handled {
      OnlyHas(p.handled, PongFrame(0));
    }
    if PongFrame(0) in q.normalLog {
      OnlyFrom(p.handled, PongFrame(0), NormalPriority);
    }
  }

  /** A session that sends no pings never fails. */
  lemma QuietSessionsNeverFail(states: seq<Net>, events: seq<(bool, Event)>, cfg: Config, i: nat, atX: bool)
    requires Run(states, events, cfg) && i < |states|
    requires forall j :: 0 <= j < i ==> events[j] != (atX, Pinged)
    ensures !End(states[i], atX).e.failed
  {
    NoPings(states, events, cfg, i, atX);
    OnlyPingsFail(states, events, cfg, i, atX);
  }

  lemma {:induction false} NoPings(states: seq<Net>, events: seq<(bool, Event)>, cfg: Config, i: nat, atX: bool)
    requires Run(states, events, cfg) && i < |states|
    requires forall j :: 0 <= j < i ==> events[j] != (atX, Pinged)
    ensures End(states[i], atX).lowLog == []
    decreases i
  {
    if i > 0 {
      NoPings(states, events, cfg, i - 1, atX);
      var (who, ev) := events[i - 1];
      assert Step(states[i - 1], states[i - 1 + 1], who, ev, cfg);
      if who {
        OnlyPingsAreLow(states[i - 1], states[i], ev, cfg);
      } else {
        OnlyPingsAreLow(Swap(states[i - 1]), Swap(states[i]), ev, cfg);
      }
    }
  }

  lemma OnlyPingsAreLow(n: Net, n': Net, ev: Event, cfg: Config)
    requires SideStep(n, n', ev, cfg)
    ensures n'.y.lowLog == n.y.lowLog && (!ev.Pinged? ==> n'.x.lowLog == n.x.lowLog)
  {
  }

  // Flow control

  /** Acknowledged, delivered, and queued bytes are always in this order, an acknowledgement that
      overtakes the count included; and no more than a window of them is unacknowledged, besides those
      whose writer gave up before counting them.  The window check sees exactly what is left, modulo
      2^32. */
  lemma FlowControl(states: seq<Net>, events: seq<(bool, Event)>, cfg: Config, i: nat, atX: bool, id: uint32)
    requires Run(states, events, cfg) && i < |states| && id in End(states[i], atX).e.streams
    ensures var p, q := End(states[i], atX), End(states[i], !atX);
            var s := p.e.streams[id];
            && s.acked <= Total(Delivered(q, id)) <= Enqueued(p, id) <= s.acked + INITIAL_WINDOW + Uncounted(p, id)
            && (Pending(p, id) == 0 ==>
                  Available(s) == Wrap32(INITIAL_WINDOW + Uncounted(p, id) - (Enqueued(p, id) - s.acked)))
            && (Pending(p, id) == Uncounted(p, id) == 0 ==>
                  Available(s) == INITIAL_WINDOW - (Enqueued(p, id) - s.acked))
  {
    Reached(states, events, cfg, i, atX);
    var n := states[i];
    var p, q := End(n, atX), End(n, !atX);
    assert RecvOk(q, id);
    SentWithinWindow(p, q, Wire(n, atX), id);
  }

  lemma SentWithinWindow(p: Peer, q: Peer, pq: seq<Frame>, id: uint32)
    requires Half(p, q, pq, EncodeAll(pq)) && RecvOk(q, id) && id in p.e.streams
    ensures var s := p.e.streams[id];
            && s.acked <= Total(Delivered(q, id)) <= Enqueued(p, id) <= s.acked + INITIAL_WINDOW + Uncounted(p, id)
            && (Pending(p, id) == 0 ==>
                  Available(s) == Wrap32(INITIAL_WINDOW + Uncounted(p, id) - (Enqueued(p, id) - s.acked)))
            && (Pending(p, id) == Uncounted(p, id) == 0 ==>
                  Available(s) == INITIAL_WINDOW - (Enqueued(p, id) - s.acked))
  {
    hide RecvOk, Accepted, Chunks, Total;
    assert SendOk(p, q, id);
    DeliveredIsQueued(p, q, pq, EncodeAll(pq), id);
    WindowLeft(p.e.streams[id], Enqueued(p, id), Uncounted(p, id));
  }

  lemma WindowLeft(s: StreamState, enqueued: nat, uncounted: nat)
    requires s.window == INITIAL_WINDOW && s.acked <= enqueued <= s.acked + INITIAL_WINDOW + uncounted
    ensures var left := INITIAL_WINDOW + uncounted - (enqueued - s.acked);
            && (s.sent == Wrap32(enqueued - uncounted) ==> Available(s) == Wrap32(left))
            && (uncounted == 0 ==> Wrap32(left) == left)
  {
    if s.sent == Wrap32(enqueued - uncounted) {
      AvailableIs(s, enqueued - uncounted);
    }
    WrapAtMost(INITIAL_WINDOW + uncounted - (enqueued - s.acked));
  }

  /** A stream is worn out: an acknowledgement is a 32-bit word, so a stream whose writers count all
      they send carries at most 2^32 - 1 + 65535 bytes in its life, and no chunk that would pass this
      ever gets past the window check. */
  lemma StreamWearsOut(states: seq<Net>, events: seq<(bool, Event)>, cfg: Config, i: nat, atX: bool, id: uint32)
    requires Run(states, events, cfg) && i < |states|
    ensures var p := End(states[i], atX);
            && Enqueued(p, id) <= TWO_TO_THE_32 - 1 + INITIAL_WINDOW + Uncounted(p, id)
            && (i < |events| && events[i].0 == atX && events[i].1.Sent? && events[i].1.id == id ==>
                  Enqueued(p, id) + |events[i].1.chunk| <= TWO_TO_THE_32 - 1 + INITIAL_WINDOW + Uncounted(p, id))
  {
    Worn(states, events, cfg, i, atX, id);
    if i < |events| && events[i].0 == atX && events[i].1.Sent? && events[i].1.id == id {
      assert Step(states[i], states[i + 1], atX, events[i].1, cfg);
      Worn(states, events, cfg, i + 1, atX, id);
      EnqueuedMore(End(states[i], atX).normalLog, id, events[i].1.chunk, id);
    }
  }

  lemma Worn(states: seq<Net>, events: seq<(bool, Event)>, cfg: Config, i: nat, atX: bool, id: uint32)
    requires Run(states, events, cfg) && i < |states|
    ensures var p := End(states[i], atX); Enqueued(p, id) <= TWO_TO_THE_32 - 1 + INITIAL_WINDOW + Uncounted(p, id)
  {
    Reached(states, events, cfg, i, atX);
    assert SendOk(End(states[i], atX), End(states[i], !atX), id);
  }

  /** The comparison of acknowledgements is one of plain words.  An acknowledgement of everything
      delivered, `total`, raises a counter that stands at `acked` bytes exactly when no multiple of
      2^32 lies between the two. */
  lemma AckCountsUntilWrap(s: StreamState, acked: nat, total: nat)
    requires s.acked == Wrap32(acked) && acked < total <= acked + INITIAL_WINDOW
    ensures TakeAck(s, Wrap32(total), INITIAL_WINDOW).acked == Wrap32(total)
            <==> acked / TWO_TO_THE_32 == total / TWO_TO_THE_32
  {
    assert total / TWO_TO_THE_32 == acked / TWO_TO_THE_32 || total / TWO_TO_THE_32 == acked / TWO_TO_THE_32 + 1;
  }

  // The window of an idle stream

  /** Everything `q` queued at high priority has come back to `p`. */
  predicate AcksBack(n: Net, atX: bool) {
    Wire(n, !atX) == [] && End(n, !atX).e.high == []
  }

  /** When every acknowledgement is back, a stream still open at its sender has the window that the
      largest acknowledgement queued leaves it.  When everything else has arrived too and no writer
      gave up, the whole window is back exactly if no payload met a full channel and an
      acknowledgement of all that was delivered got into the queue. */
  lemma WindowWhenIdle(states: seq<Net>, events: seq<(bool, Event)>, cfg: Config, i: nat, atX: bool, id: uint32)
    requires Run(states, events, cfg) && i < |states| && AcksBack(states[i], atX)
    requires id in End(states[i], atX).e.open && Pending(End(states[i], atX), id) == Uncounted(End(states[i], atX), id) == 0
    ensures id in End(states[i], atX).e.streams
    ensures var n := states[i]; var p, q := End(n, atX), End(n, !atX);
            && Available(p.e.streams[id]) == INITIAL_WINDOW - (Enqueued(p, id) - MaxAck(q.highLog, id))
            && (Wire(n, atX) == p.e.normal == [] && id in q.e.open ==>
                  (Available(p.e.streams[id]) == INITIAL_WINDOW
                   <==> id !in q.slow && MaxAck(q.highLog, id) == Total(Delivered(q, id))))
  {
    var n := states[i];
    var p, q := End(n, atX), End(n, !atX);
    Reached(states, events, cfg, i, atX);
    FlowControl(states, events, cfg, i, atX, id);
    assert SendOk(p, q, id) && RecvOk(q, id);
    AcksAreBack(q, p);
    AcksAreHigh(q, p, id);
    if Wire(n, atX) == p.e.normal == [] && id in q.e.open {
      ChunksOnTheWay(p, q, [], EncodeAll([]), id);
      AppendNothing(Chunks(q.handled, id));
      AllAccepted(q.handled, id);
    }
  }

  lemma AcksAreBack(q: Peer, p: Peer)
    requires Pipe(q, p.handled + []) && q.e.high == []
    ensures q.highLog == Only(p.handled, HighPriority)
  {
    AppendNothing(p.handled);
    AppendNothing(Only(p.handled, HighPriority));
  }

  lemma AcksAreHigh(q: Peer, p: Peer, id: uint32)
    requires Half(q, p, [], EncodeAll([]))
    ensures MaxAck(Only(p.handled, HighPriority), id) == MaxAck(p.handled, id)
  {
    forall f | f in p.handled ensures AckOf(f, id) > 0 ==> PriorityOf(f) == HighPriority {
      assert f in p.handled + [];
      WireMember(q, p, [], EncodeAll([]), f);
      PingIsLow();
    }
    MaxAckOfHigh(p.handled, id);
  }

  lemma {:induction false} MaxAckOfHigh(fs: seq<Frame>, id: uint32)
    requires forall f :: f in fs && AckOf(f, id) > 0 ==> PriorityOf(f) == HighPriority
    ensures MaxAck(Only(fs, HighPriority), id) == MaxAck(fs, id)
    decreases |fs|
  {
    if fs != [] {
      var init, last := fs[..|fs| - 1], fs[|fs| - 1];
      assert fs == init + [last];
      MaxAckOfHigh(init, id);
      OnlySnoc(init, last, HighPriority);
      MaxAckSnoc(init, last, id);
      MaxAckSnoc(Only(init, HighPriority), last, id);
    }
  }

  /** A payload that is handled but not delivered is never acknowledged: its size is gone from the
      window for good. */
  lemma LostPayloadsShrinkWindow(states: seq<Net>, events: seq<(bool, Event)>, cfg: Config, i: nat, atX: bool, id: uint32)
    requires Run(states, events, cfg) && i < |states| && id in End(states[i], atX).e.streams
    requires Pending(End(states[i], atX), id) == Uncounted(End(states[i], atX), id) == 0
    ensures var p, q := End(states[i], atX), End(states[i], !atX);
            var lost := Total(Chunks(q.handled, id)) - Total(Delivered(q, id));
            && (id in q.slow ==> lost > 0) && lost >= 0
            && Available(p.e.streams[id]) <= INITIAL_WINDOW - lost
  {
    var n := states[i];
    var p, q := End(n, atX), End(n, !atX);
    Reached(states, events, cfg, i, atX);
    FlowControl(states, events, cfg, i, atX, id);
    assert RecvOk(q, id);
    DeliveredIsQueued(p, q, Wire(n, atX), EncodeAll(Wire(n, atX)), id);
    SubsequenceTotal(Delivered(q, id), Chunks(q.handled, id));
  }

  // Order and completeness

  lemma ReceiverOk(states: seq<Net>, events: seq<(bool, Event)>, cfg: Config, i: nat, atX: bool, id: uint32)
    requires Run(states, events, cfg) && i < |states|
    ensures RecvOk(End(states[i], atX), id)
  {
    Reached(states, events, cfg, i, atX);
  }

  /** The receiver's counter, and with it the next acknowledgement, is exact. */
  lemma ReceiverCounts(states: seq<Net>, events: seq<(bool, Event)>, cfg: Config, i: nat, atX: bool, id: uint32)
    requires Run(states, events, cfg) && i < |states| && id in End(states[i], atX).e.streams
    ensures var q := End(states[i], atX); q.e.streams[id].received == Wrap32(Total(Delivered(q, id)))
  {
    Reached(states, events, cfg, i, atX);
    assert RecvOk(End(states[i], atX), id);
  }

  /** What has left a session is an interleaving of its queues that loses nothing, repeats nothing,
      and keeps each queue in order. */
  lemma EmissionInterleaves(states: seq<Net>, events: seq<(bool, Event)>, cfg: Config, i: nat, atX: bool)
    requires Run(states, events, cfg) && i < |states|
    ensures var n := states[i]; var p, q, pq := End(n, atX), End(n, !atX), Wire(n, atX);
            && p.highLog == Only(q.handled, HighPriority) + Only(pq, HighPriority) + p.e.high
            && p.normalLog == Only(q.handled, NormalPriority) + Only(pq, NormalPriority) + p.e.normal
            && p.lowLog == Only(q.handled, LowPriority) + Only(pq, LowPriority) + p.e.low
  {
    Reached(states, events, cfg, i, atX);
    var n := states[i];
    var q, pq := End(n, !atX), Wire(n, atX);
    OnlyAppend(q.handled, pq, HighPriority);
    OnlyAppend(q.handled, pq, NormalPriority);
    OnlyAppend(q.handled, pq, LowPriority);
  }

  /** The payloads that reach a receive channel are an in-order subsequence of the chunks that were
      encoded.  Without a slow receiver and without a close of either end so far, nothing is missing
      but what is still on its way.  They are what was written as long as no caller has changed its
      buffer before its frame was encoded; and without losses, only as long as none has. */
  lemma InOrderDelivery(states: seq<Net>, events: seq<(bool, Event)>, cfg: Config, i: nat, atX: bool, id: uint32)
    requires Run(states, events, cfg) && i < |states|
    ensures var n := states[i]; var p, q, pq := End(n, atX), End(n, !atX), Wire(n, atX);
            && Subsequence(Delivered(q, id), Chunks(p.normalLog, id)) && SameSizes(Written(p, id), Chunks(p.normalLog, id))
            && (!Spoilt(states, events, i, atX, id) ==> Subsequence(Delivered(q, id), Written(p, id)))
            && (id !in q.slow && id !in q.closedHere && !Ended(q.handled, id) ==>
                  && Chunks(p.normalLog, id) == Delivered(q, id) + Chunks(pq, id) + Chunks(p.e.normal, id)
                  && (Delivered(q, id) + Chunks(pq, id) <= Written(p, id) <==> !Spoilt(states, events, i, atX, id)))
  {
    hide Spoilt, SpoiltInTime, Tracked, Inv, Half, Accepted;
    Reached(states, events, cfg, i, atX);
    EncodedAsWritten(states, events, cfg, i, atX, id);
    var n := states[i];
    var p, q, pq := End(n, atX), End(n, !atX), Wire(n, atX);
    LeftIsHandled(p, q, pq, id);
    WrittenSplit(p, id);
    assert RecvOk(q, id) by { ReceiverOk(states, events, cfg, i, !atX, id); }
    InOrder(p, q, pq, id);
    SubsequenceAppend(Delivered(q, id), Chunks(Left(p), id), Chunks(p.e.normal, id));
    SubsequenceAppend(Delivered(q, id), Chunks(Left(p), id), Chunks(QueuedWritten(p), id));
    PrefixOrNot(Chunks(Left(p), id), Chunks(LeftWritten(p), id), Chunks(QueuedWritten(p), id));
  }

  lemma PrefixOrNot<T>(a: seq<T>, b: seq<T>, c: seq<T>)
    requires |a| == |b|
    ensures a <= b + c <==> a == b
  {
    assert (b + c)[..|b|] == b;
  }

  /** What has been delivered, of what has left the queue. */
  lemma InOrder(p: Peer, q: Peer, pq: seq<Frame>, id: uint32)
    requires Half(p, q, pq, EncodeAll(pq)) && RecvOk(q, id)
    ensures Subsequence(Delivered(q, id), Chunks(Left(p), id))
    ensures id !in q.slow && id !in q.closedHere && !Ended(q.handled, id) ==>
              Chunks(Left(p), id) == Delivered(q, id) + Chunks(pq, id)
  {
    LeftIsHandled(p, q, pq, id);
    SubsequenceAppend(Delivered(q, id), Chunks(q.handled, id), Chunks(pq, id));
    if !Ended(q.handled, id) {
      AllAccepted(q.handled, id);
    }
  }

  lemma {:induction false} SubsequenceAppend(a: seq<seq<byte>>, b: seq<seq<byte>>, c: seq<seq<byte>>)
    requires Subsequence(a, b)
    ensures Subsequence(a, b + c)
    decreases |c|
  {
    if c == [] {
      assert b + c == b;
    } else {
      var init, last := c[..|c| - 1], c[|c| - 1];
      SubsequenceAppend(a, b, init);
      SubsequenceSnoc(a, b + init, last);
      assert b + c == (b + init) + [last];
    }
  }

  lemma {:induction false} AllAccepted(fs: seq<Frame>, id: uint32)
    requires !Ended(fs, id)
    ensures Accepted(fs, id) == Chunks(fs, id)
    decreases |fs|
  {
    if fs != [] {
      var init, last := fs[..|fs| - 1], fs[|fs| - 1];
      assert fs == init + [last];
      AcceptedSnoc(init, last, id);
      AllAccepted(init, id);
    }
  }

  /** When the frame that ends a stream has been handled, everything queued before that frame has been
      delivered, and nothing else ever is: the close overtakes no chunk.  It is what was written
      exactly if no caller has changed its buffer before its frame was encoded. */
  lemma CloseComesLast(states: seq<Net>, events: seq<(bool, Event)>, cfg: Config, i: nat, atX: bool, id: uint32)
    requires Run(states, events, cfg) && i < |states|
    requires var q := End(states[i], !atX); Ended(q.handled, id) && id !in q.slow && id !in q.closedHere
    ensures var p, q := End(states[i], atX), End(states[i], !atX);
            && Delivered(q, id) == Accepted(p.normalLog, id)
            && (Delivered(q, id) == Accepted(p.written, id) <==> !SpoiltInTime(states, events, i, atX, id))
  {
    hide Spoilt, SpoiltInTime, Tracked, Inv, Half, Accepted, Ended, Chunks;
    Reached(states, events, cfg, i, atX);
    ReceiverOk(states, events, cfg, i, !atX, id);
    EncodedAsWritten(states, events, cfg, i, atX, id);
    var n := states[i];
    var p, q, pq := End(n, atX), End(n, !atX), Wire(n, atX);
    EndedIsAccepted(p, q, pq, id);
    WrittenSplit(p, id);
    NothingAfterEnd(LeftWritten(p), QueuedWritten(p), id);
  }

  lemma EndedIsAccepted(p: Peer, q: Peer, pq: seq<Frame>, id: uint32)
    requires Half(p, q, pq, EncodeAll(pq)) && RecvOk(q, id)
    requires Ended(q.handled, id) && id !in q.slow && id !in q.closedHere
    ensures Delivered(q, id) == Accepted(Left(p), id) == Accepted(p.normalLog, id) && Ended(Left(p), id)
  {
    hide Accepted, Ended;
    LeftIsHandled(p, q, pq, id);
    forall f | f in q.handled ensures f.kind == TYPE_DATA || Ends(f, id) ==> PriorityOf(f) == NormalPriority {
      assert f in q.handled + pq;
      WireMember(p, q, pq, EncodeAll(pq), f);
    }
    AcceptedAreNormal(q.handled, id);
    OnlyAppend(q.handled, pq, NormalPriority);
    NothingAfterEnd(Only(q.handled, NormalPriority), Only(pq, NormalPriority), id);
    NothingAfterEnd(Left(p), p.e.normal, id);
  }

  lemma {:induction false} AcceptedAreNormal(fs: seq<Frame>, id: uint32)
    requires forall f :: f in fs && (f.kind == TYPE_DATA || Ends(f, id)) ==> PriorityOf(f) == NormalPriority
    ensures Accepted(Only(fs, NormalPriority), id) == Accepted(fs, id)
    ensures Ended(Only(fs, NormalPriority), id) <==> Ended(fs, id)
    decreases |fs|
  {
    if fs != [] {
      var init, last := fs[..|fs| - 1], fs[|fs| - 1];
      assert fs == init + [last];
      AcceptedAreNormal(init, id);
      OnlySnoc(init, last, NormalPriority);
      AcceptedSnoc(init, last, id);
      AcceptedSnoc(Only(init, NormalPriority), last, id);
    }
  }

  lemma {:induction false} NothingAfterEnd(fs: seq<Frame>, gs: seq<Frame>, id: uint32)
    requires Ended(fs, id)
    ensures Accepted(fs + gs, id) == Accepted(fs, id) && Ended(fs + gs, id)
    decreases |gs|
  {
    if gs == [] {
      assert fs + gs == fs;
    } else {
      var init, last := gs[..|gs| - 1], gs[|gs| - 1];
      NothingAfterEnd(fs, init, id);
      AcceptedSnoc(fs + init, last, id);
      assert fs + gs == (fs + init) + [last];
    }
  }

  /** With nothing in the queue or on the wire, as many bytes have been delivered as were written, and
      they are the bytes that were written exactly if no caller has changed its buffer before its
      frame was encoded. */
  lemma AllDelivered(states: seq<Net>, events: seq<(bool, Event)>, cfg: Config, i: nat, atX: bool, id: uint32)
    requires Run(states, events, cfg) && i < |states|
    requires Wire(states[i], atX) == End(states[i], atX).e.normal == []
    requires var q := End(states[i], !atX); id !in q.slow && id !in q.closedHere && !Ended(q.handled, id)
    ensures var p, q := End(states[i], atX), End(states[i], !atX);
            && Total(Delivered(q, id)) == Total(Written(p, id))
            && (Flatten(Delivered(q, id)) == Flatten(Written(p, id)) <==> !Spoilt(states, events, i, atX, id))
  {
    hide Spoilt, Tracked, Total, Subsequence;
    InOrderDelivery(states, events, cfg, i, atX, id);
    EncodedAsWritten(states, events, cfg, i, atX, id);
    var p, q := End(states[i], atX), End(states[i], !atX);
    WrittenSplit(p, id);
    assert Delivered(q, id) + Chunks([], id) == Delivered(q, id);
    assert Delivered(q, id) + Chunks([], id) + Chunks([], id) == Delivered(q, id);
    FlattenInjective(Delivered(q, id), Written(p, id));
  }

  /** Chunks of the same sizes are told apart by their bytes. */
  lemma {:induction false} FlattenInjective(a: seq<seq<byte>>, b: seq<seq<byte>>)
    requires SameSizes(a, b)
    ensures |Flatten(a)| == |Flatten(b)| && (Flatten(a) == Flatten(b) <==> a == b)
    decreases |a|
  {
    if a != [] {
      var k := |a| - 1;
      FlattenInjective(a[..k], b[..k]);
      assert a == a[..k] + [a[k]] && b == b[..k] + [b[k]];
      AppendInjective(Flatten(a[..k]), a[k], Flatten(b[..k]), b[k]);
    }
  }

  lemma AppendInjective<T>(a: seq<T>, x: seq<T>, b: seq<T>, y: seq<T>)
    requires |a| == |b|
    ensures a + x == b + y <==> a == b && x == y
  {
    if a + x == b + y {
      assert (a + x)[..|a|] == a && (b + y)[..|b|] == b;
      assert (a + x)[|a|..] == x && (b + y)[|b|..] == y;
    }
  }
}
