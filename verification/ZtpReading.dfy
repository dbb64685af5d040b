/** What `Stream.Read` returns of what was delivered, over the runs of ZtpRun. */
module ZtpReading {
  import opened Bytes
  import opened ZtpFrame
  import opened ZtpProtocol
  import opened ZtpRun
  import opened ZtpInvariant
  import opened ZtpReach
  import opened ZtpBuffers
  import opened ZtpResults

  /** Of the payloads `d` delivered, the channel still holds the last ones; reads have returned the
      others, whole unless one was cut. */
  predicate Reads(d: seq<seq<byte>>, inbox: seq<seq<byte>>, got: seq<byte>, cut: bool) {
    var k := |d| - |inbox|;
    && 0 <= k && inbox == d[k..]
    && |got| <= |Flatten(d[..k])|
    && (cut <==> |got| < |Flatten(d[..k])|)
    && (!cut ==> got == Flatten(d[..k]))
  }

  predicate ReadOk(p: Peer, id: uint32) {
    if id in p.e.streams then Reads(Delivered(p, id), p.e.streams[id].inbox, Got(p, id), id in p.cut)
    else Delivered(p, id) == [] && Got(p, id) == [] && id !in p.cut
  }

  lemma FlattenSnoc(cs: seq<seq<byte>>, c: seq<byte>)
    ensures Flatten(cs + [c]) == Flatten(cs) + c
  {
    assert (cs + [c])[..|cs|] == cs;
  }

  lemma TakeOne<T>(d: seq<T>, k: nat)
    requires k < |d|
    ensures d[..k + 1] == d[..k] + [d[k]] && d[k..][1..] == d[k + 1..] && d[k..][0] == d[k]
  {
  }

  /** A read takes the oldest payload and loses what it has no room for. */
  lemma ReadOne(d: seq<seq<byte>>, inbox: seq<seq<byte>>, got: seq<byte>, cut: bool, room: nat)
    requires Reads(d, inbox, got, cut) && inbox != []
    ensures Reads(d, inbox[1..], got + inbox[0][..Min(|inbox[0]|, room)], cut || room < |inbox[0]|)
  {
    var k := |d| - |inbox|;
    TakeOne(d, k);
    FlattenSnoc(d[..k], d[k]);
  }

  lemma DeliverOne(d: seq<seq<byte>>, inbox: seq<seq<byte>>, got: seq<byte>, cut: bool, c: seq<byte>)
    requires Reads(d, inbox, got, cut)
    ensures Reads(d + [c], inbox + [c], got, cut)
  {
    var k := |d| - |inbox|;
    assert (d + [c])[..k] == d[..k] && (d + [c])[k..] == d[k..] + [c];
  }

  lemma NothingRead()
    ensures Reads([], [], [], false)
  {
  }

  /** Nothing that `ReadOk` looks at has changed, or the stream is new. */
  predicate SameReads(p: Peer, p': Peer, id: uint32) {
    && Delivered(p', id) == Delivered(p, id) && Got(p', id) == Got(p, id) && (id in p.cut <==> id in p'.cut)
    && (id in p.e.streams ==> id in p'.e.streams && p'.e.streams[id].inbox == p.e.streams[id].inbox)
    && (id !in p.e.streams && id in p'.e.streams ==> p'.e.streams[id].inbox == [])
  }

  lemma SameReadsOk(p: Peer, p': Peer, id: uint32)
    requires ReadOk(p, id) && SameReads(p, p', id)
    ensures ReadOk(p', id)
  {
    NothingRead();
  }

  lemma ReadKeepsRead(p: Peer, id0: uint32, room: nat, id: uint32)
    requires ReadOk(p, id) && id0 in p.e.streams && p.e.streams[id0].inbox != []
    ensures ReadOk(AfterRead(p, id0, room), id)
  {
    if id == id0 {
      ReadOne(Delivered(p, id), p.e.streams[id].inbox, Got(p, id), id in p.cut, room);
    } else {
      SameReadsOk(p, AfterRead(p, id0, room), id);
    }
  }

  lemma DeliveryKeepsRead(p: Peer, p': Peer, f: Frame, id: uint32)
    requires ReadOk(p, id) && f.streamID in p.e.streams && HasDelivered(p, p', f) && p'.got == p.got && p'.cut == p.cut
    ensures ReadOk(p', id)
  {
    if id == f.streamID {
      DeliverOne(Delivered(p, id), p.e.streams[id].inbox, Got(p, id), id in p.cut, f.payload);
    }
  }

  lemma HandleKeepsGot(p: Peer, f: Frame, cfg: Config)
    requires Wf(p.e)
    ensures AfterHandle(p, f, cfg).got == p.got && AfterHandle(p, f, cfg).cut == p.cut
  {
  }

  lemma HandleKeepsInbox(e: Endpoint, f: Frame, cfg: Config, id: uint32)
    requires Wf(e) && f.kind != TYPE_DATA && (f.kind == TYPE_STREAM_OPEN ==> f.streamID !in e.streams)
    ensures var e' := Handle(e, f, cfg);
            && (id in e.streams ==> id in e'.streams && e'.streams[id].inbox == e.streams[id].inbox)
            && (id !in e.streams && id in e'.streams ==> e'.streams[id].inbox == [])
  {
  }

  lemma HandleKeepsRead(p: Peer, f: Frame, cfg: Config, id: uint32)
    requires Wf(p.e) && Expected(p, f) && ReadOk(p, id)
    ensures ReadOk(AfterHandle(p, f, cfg), id)
  {
    HandleKeepsGot(p, f, cfg);
    if f.kind != TYPE_DATA {
      OtherHistories(p, f, cfg);
      HandleKeepsInbox(p.e, f, cfg, id);
      SameReadsOk(p, AfterHandle(p, f, cfg), id);
    } else if Fits(p.e, f, cfg) {
      AfterDelivery(p, f, cfg);
      DeliveryKeepsRead(p, AfterHandle(p, f, cfg), f, id);
    } else {
      AfterSkip(p, f, cfg);
      SameReadsOk(p, AfterHandle(p, f, cfg), id);
    }
  }

  /** Steps that neither read nor receive. */
  lemma OtherStepsKeepRead(n: Net, n': Net, ev: Event, cfg: Config, id: uint32)
    requires SideStep(n, n', ev, cfg) && !ev.Received? && !ev.AppRead? && ReadOk(n.x, id)
    requires ev.Opened? ==> n.x.e.next !in n.x.e.streams
    ensures ReadOk(n'.x, id)
  {
    hide ReadOk;
    OtherStepsKeepHistories(n, n', ev, cfg);
    OtherStepsKeepInbox(n, n', ev, cfg, id);
    SameReadsOk(n.x, n'.x, id);
  }

  lemma OtherStepsKeepHistories(n: Net, n': Net, ev: Event, cfg: Config)
    requires SideStep(n, n', ev, cfg) && !ev.Received? && !ev.AppRead?
    ensures n'.x.delivered == n.x.delivered && n'.x.got == n.x.got && n'.x.cut == n.x.cut
  {
  }

  lemma OtherStepsKeepInbox(n: Net, n': Net, ev: Event, cfg: Config, id: uint32)
    requires SideStep(n, n', ev, cfg) && !ev.Received? && !ev.AppRead?
    requires ev.Opened? ==> n.x.e.next !in n.x.e.streams
    ensures id in n.x.e.streams ==> id in n'.x.e.streams && n'.x.e.streams[id].inbox == n.x.e.streams[id].inbox
    ensures id !in n.x.e.streams && id in n'.x.e.streams ==> n'.x.e.streams[id].inbox == []
  {
    if ev.Opened? || ev.Counted? || ev.ClosedHere? {
      StreamStepsKeepInbox(n, n', ev, cfg, id);
    } else {
      QueueStepsKeepStreams(n, n', ev, cfg);
    }
  }

  lemma QueueStepsKeepStreams(n: Net, n': Net, ev: Event, cfg: Config)
    requires SideStep(n, n', ev, cfg) && !ev.Received? && !ev.AppRead? && !ev.Opened? && !ev.Counted? && !ev.ClosedHere?
    ensures n'.x.e.streams == n.x.e.streams
  {
    hide DataFrame, PingFrame, FrameBytes;
  }

  lemma StreamStepsKeepInbox(n: Net, n': Net, ev: Event, cfg: Config, id: uint32)
    requires SideStep(n, n', ev, cfg) && (ev.Opened? || ev.Counted? || ev.ClosedHere?)
    requires ev.Opened? ==> n.x.e.next !in n.x.e.streams
    ensures SameInbox(n.x.e, n'.x.e, id)
  {
    hide OpenFrame, CloseFrame, SameInbox, AfterOpen, AfterCount, AfterClose;
    if ev.Opened? {
      OpenKeepsInbox(n.x, id);
    } else {
      ChangeKeepsInbox(n.x, ev.id, ev.ClosedHere? && ev.told, id);
    }
  }

  predicate SameInbox(e: Endpoint, e': Endpoint, id: uint32) {
    && (id in e.streams ==> id in e'.streams && e'.streams[id].inbox == e.streams[id].inbox)
    && (id !in e.streams && id in e'.streams ==> e'.streams[id].inbox == [])
  }

  lemma OpenKeepsInbox(p: Peer, id: uint32)
    requires p.e.next !in p.e.streams
    ensures SameInbox(p.e, AfterOpen(p).e, id)
  {
    hide OpenFrame;
  }

  lemma ChangeKeepsInbox(p: Peer, id0: uint32, told: bool, id: uint32)
    requires id0 in p.e.streams
    ensures SameInbox(p.e, AfterCount(p, id0).e, id) && SameInbox(p.e, AfterClose(p, id0, told).e, id)
  {
    hide CloseFrame;
  }

  lemma SideKeepsRead(n: Net, n': Net, ev: Event, cfg: Config, id: uint32)
    requires Halves(n) && SideStep(n, n', ev, cfg) && Ready(n, ev) && ReadOk(n.x, id)
    ensures ReadOk(n'.x, id)
  {
    if ev.Received? {
      ReceiveKeepsHalves(n, n', cfg);
      HandleKeepsRead(n.x, n.yx[0], cfg, id);
    } else if ev.AppRead? {
      ReadKeepsRead(n.x, ev.id, ev.room, id);
    } else {
      OtherStepsKeepRead(n, n', ev, cfg, id);
    }
  }

  lemma NothingReadYet(n: Net, atX: bool, id: uint32)
    requires n == START
    ensures ReadOk(End(n, atX), id)
  {
    NothingRead();
  }

  lemma {:induction false} ReadsHold(states: seq<Net>, events: seq<(bool, Event)>, cfg: Config,
                                     i: nat, atX: bool, id: uint32)
    requires Run(states, events, cfg) && i < |states|
    ensures ReadOk(End(states[i], atX), id)
    decreases i
  {
    hide ReadOk, Inv, Step;
    if i == 0 {
      NothingReadYet(states[0], atX, id);
    } else {
      ReadsHold(states, events, cfg, i - 1, atX, id);
      InvariantHolds(states, events, cfg, i - 1);
      assert Step(states[i - 1], states[i - 1 + 1], events[i - 1].0, events[i - 1].1, cfg);
      StepKeepsRead(states[i - 1], states[i], events[i - 1].0, events[i - 1].1, cfg, atX, id);
    }
  }

  lemma StepKeepsRead(n: Net, n': Net, who: bool, ev: Event, cfg: Config, atX: bool, id: uint32)
    requires Inv(n) && Step(n, n', who, ev, cfg) && ReadOk(End(n, atX), id)
    ensures ReadOk(End(n', atX), id)
  {
    hide ReadOk, SideStep, Half, Client, Server;
    if who != atX {
      OtherEndKept(n, n', who, ev, cfg);
    } else {
      StepIsReady(n, who, ev);
      SideKeepsRead(if atX then n else Swap(n), if atX then n' else Swap(n'), ev, cfg, id);
    }
  }

  /** What reads of a stream return, in order, is what its peer wrote: a prefix of it, with the rest
      in the channel or on the way, while no slow receiver or close intervenes, exactly as long as no
      read had less room than the payload it took and no caller has changed its buffer before its
      frame was encoded. */
  lemma ReadsReturnWritten(states: seq<Net>, events: seq<(bool, Event)>, cfg: Config, i: nat, atX: bool, id: uint32)
    requires Run(states, events, cfg) && i < |states|
    requires var q := End(states[i], !atX);
             id in q.e.streams && id !in q.slow && id !in q.closedHere && !Ended(q.handled, id)
    ensures var n := states[i]; var p, q := End(n, atX), End(n, !atX);
            var rest := q.e.streams[id].inbox + Chunks(Wire(n, atX), id) + Chunks(QueuedWritten(p), id);
            id !in q.cut && !Spoilt(states, events, i, atX, id) <==> Got(q, id) + Flatten(rest) == Flatten(Written(p, id))
  {
    hide Spoilt, SpoiltInTime, Tracked, Inv, Half, Accepted, Chunks, Flatten, Ended, SideStep, RecvOk;
    var n := states[i];
    var p, q, pq := End(n, atX), End(n, !atX), Wire(n, atX);
    ReadsHold(states, events, cfg, i, !atX, id);
    Reached(states, events, cfg, i, atX);
    ReceiverOk(states, events, cfg, i, !atX, id);
    EncodedAsWritten(states, events, cfg, i, atX, id);
    WrittenSplit(p, id);
    InOrder(p, q, pq, id);
    ReadsOf(Delivered(q, id), q.e.streams[id].inbox, Got(q, id), id in q.cut, Chunks(pq, id),
            Chunks(LeftWritten(p), id), Chunks(QueuedWritten(p), id));
  }

  /** Of chunks `was`, sent as `d + wire` and followed by `queued`, reads have returned `got`. */
  lemma ReadsOf(d: seq<seq<byte>>, inbox: seq<seq<byte>>, got: seq<byte>, cut: bool, wire: seq<seq<byte>>,
                was: seq<seq<byte>>, queued: seq<seq<byte>>)
    requires Reads(d, inbox, got, cut) && SameSizes(was, d + wire)
    ensures got + Flatten(inbox + wire + queued) == Flatten(was + queued) <==> !cut && was == d + wire
  {
    hide Flatten;
    var k := |d| - |inbox|;
    SplitAt(d, k);
    Assoc(d[..k], inbox, wire);
    FlattenAppend(d[..k], inbox + wire);
    FlattenAppend(inbox + wire, queued);
    FlattenAppend(was, queued);
    FlattenInjective(d + wire, was);
    AppendInjective(Flatten(d[..k]), Flatten(inbox + wire), Flatten(d[..k]), Flatten(inbox + wire));
    Assoc(got, Flatten(inbox + wire), Flatten(queued));
    if |got| == |Flatten(d[..k])| {
      AppendInjective(got + Flatten(inbox + wire), Flatten(queued), Flatten(was), Flatten(queued));
    }
  }

  lemma {:induction false} FlattenAppend(a: seq<seq<byte>>, b: seq<seq<byte>>)
    ensures Flatten(a + b) == Flatten(a) + Flatten(b)
    decreases |b|
  {
    if b == [] {
      AppendNothing(a);
      AppendNothing(Flatten(a));
    } else {
      var init, last := b[..|b| - 1], b[|b| - 1];
      FlattenAppend(a, init);
      Assoc(a, init, [last]);
      assert b == init + [last];
      FlattenSnoc(a + init, last);
      FlattenSnoc(init, last);
      Assoc(Flatten(a), Flatten(init), last);
    }
  }
}
