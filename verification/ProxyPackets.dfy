/** Which packets the proxy hands to the TUN device, with all their fields, and what they acknowledge. */
module ProxyPackets {
  import opened Bytes
  import opened TcpPacket
  import opened ProxyProtocol
  import opened ProxyRun

  const SYN_ACK: byte := 0x12
  const BARE_ACK: byte := 0x10
  const PSH_ACK: byte := 0x18
  const FIN_ACK: byte := 0x11

  /** The packet, if any, that one event causes, and the connection it is for: a SYN-ACK for a new connection,
      the acknowledgement of a FIN, the data of a read, or the FIN of the timer. */
  function Handed(w: Proxy, ev: Event): seq<(nat, Segment)>
    requires Wf(w)
  {
    match ev
    case Packet(bytes, o) => if Parse(bytes).Tcp? then HandedFor(w, Parse(bytes).segment, o) else []
    case Forwarded(i, data) =>
      if i >= |w.conns| then []
      else var c := w.conns[i]; [(i, ToClient(c, data, c.serverSeq, c.clientAck, PSH_ACK))]
    case TimerFires(i, _) =>
      if i >= |w.conns| || w.conns[i].state != CloseWait then []
      else var c := w.conns[i]; [(i, ToClient(c, [], c.serverSeq, c.clientAck, FIN_ACK))]
    case _ => []
  }

  function HandedFor(w: Proxy, s: Segment, o: Oracle): seq<(nat, Segment)>
    requires Wf(w)
  {
    var key := KeyOf(s);
    if HasFlag(s.flags, FLAG_SYN) then
      if key in w.table || !o.dialOk then []
      else [(|w.conns|, Segment(s.dstIP, s.dstPort, s.srcIP, s.srcPort, o.isn, Wrap32(s.seqNum + 1), SYN_ACK, []))]
    else if key in w.table && HasFlag(s.flags, FLAG_FIN) && !HasFlag(s.flags, FLAG_RST) then
      var c := w.conns[w.table[key]];
      // the two numbers in exchanged roles
      [(w.table[key], ToClient(c, [], Wrap32(s.seqNum + 1), c.serverSeq, BARE_ACK))]
    else []
  }

  lemma FinHands(w: Proxy, i: nat, seqNum: uint32, hasSender: bool, o: Oracle)
    requires i < |w.conns| && ConnOk(w.conns[i])
    ensures var c := w.conns[i];
            HandleFin(w, i, seqNum, hasSender, o).out
            == w.out + (if hasSender then [(i, ToClient(c, [], Wrap32(seqNum + 1), c.serverSeq, BARE_ACK))] else [])
  {
  }

  lemma SynHands(w: Proxy, s: Segment, hasSender: bool, o: Oracle)
    requires Wf(w) && HasFlag(s.flags, FLAG_SYN)
    ensures HandleSyn(w, s, hasSender, o).out == w.out + (if hasSender then HandedFor(w, s, o) else [])
  {
    hide HasFlag;
    AppendNothing(w.out);
  }

  lemma SegmentHands(w: Proxy, s: Segment, hasSender: bool, o: Oracle)
    requires Good(w) && w.lock.Free?
    ensures HandleSegment(w, s, hasSender, o).out == w.out + (if hasSender then HandedFor(w, s, o) else [])
  {
    hide HasFlag, HandleSyn, HandleFin, ConnOk, Wrap32;
    var key := KeyOf(s);
    AppendNothing(w.out);
    if HasFlag(s.flags, FLAG_SYN) {
      SynHands(w, s, hasSender, o);
    } else if key in w.table {
      var i := w.table[key];
      assert ConnOk(w.conns[i]);
      FinHands(w, i, s.seqNum, hasSender, o);
    }
  }

  /** A step hands over exactly that packet, and none at all without a sender. */
  lemma StepHands(w: Proxy, w': Proxy, ev: Event, hasSender: bool)
    requires Good(w) && Step(w, w', ev, hasSender)
    ensures w'.out == w.out + (if hasSender then Handed(w, ev) else [])
  {
    hide Good, HandedFor, HandleSegment, Parse, Wrap32;
    AppendNothing(w.out);
    if ev.Packet? && Parse(ev.bytes).Tcp? {
      SegmentHands(w, Parse(ev.bytes).segment, hasSender, ev.o);
    }
  }

  // Errors and counts

  /** What `SendPacket` reports.  When it returns from a segment, it returns an error exactly if it owed the client
      a packet and could not send it, or if the segment has a payload, is no SYN and belongs to no connection. */
  lemma ErrorsAreReported(w: Proxy, s: Segment, hasSender: bool, o: Oracle)
    requires Good(w) && w.lock.Free? && HandleSegment(w, s, hasSender, o).lock.Free?
    ensures !Succeeds(w, s, hasSender, o) <==>
            || (HandedFor(w, s, o) != [] && !(hasSender && o.sendOk))
            || (s.payload != [] && !HasFlag(s.flags, FLAG_SYN) && KeyOf(s) !in w.table)
  {
    hide HasFlag, KeyOf, HandleSegment, Wrap32, ConnOk;
    ReturnsUnlessBlocked(w, s, hasSender, o);
    if KeyOf(s) in w.table {
      assert EntryOk(w, w.table[KeyOf(s)]);
    }
  }

  /** Whether the send to the TUN device that an event asks for succeeds; reads do not look at it. */
  predicate SendWorks(ev: Event) {
    match ev
    case Packet(_, o) => o.sendOk
    case TimerFires(_, o) => o.sendOk
    case _ => true
  }

  /** The size of a packet as it is counted. */
  function Counted(s: Segment): nat {
    if s.payload != [] then |s.payload| else BARE
  }

  /** The count of bytes to the client starts again when the connection is established, and otherwise moves by the
      packets that are sent to it. */
  predicate CountsRight(w: Proxy, w': Proxy, h: seq<(nat, Segment)>, sent: bool, i: nat)
    requires i < |w.conns| <= |w'.conns| && |h| <= 1
  {
    var c, c' := w.conns[i], w'.conns[i];
    c'.bytesToClient == if c'.state == Established && c.state != Established then 0
                        else c.bytesToClient + (if h != [] && h[0].0 == i && sent then Counted(h[0].1) else 0)
  }

  lemma FinCounts(w: Proxy, i: nat, seqNum: uint32, o: Oracle, j: nat)
    requires i < |w.conns| && j < |w.conns| && ConnOk(w.conns[i])
    ensures var c := w.conns[i];
            CountsRight(w, HandleFin(w, i, seqNum, true, o),
                        [(i, ToClient(c, [], Wrap32(seqNum + 1), c.serverSeq, BARE_ACK))], o.sendOk, j)
  {
    hide Wrap32;
  }

  lemma SegmentCounts(w: Proxy, s: Segment, o: Oracle, i: nat)
    requires Good(w) && w.lock.Free? && i < |w.conns|
    ensures |HandedFor(w, s, o)| <= 1 && |w.conns| <= |HandleSegment(w, s, true, o).conns|
    ensures CountsRight(w, HandleSegment(w, s, true, o), HandedFor(w, s, o), o.sendOk, i)
  {
    hide HasFlag, KeyOf, Wrap32, ConnOk, HandleFin;
    SegmentMakes(w, s, o);
    if KeyOf(s) in w.table {
      var k := w.table[KeyOf(s)];
      assert ConnOk(w.conns[k]);
      FinCounts(w, k, s.seqNum, o, i);
    }
  }

  lemma StepCounts(w: Proxy, w': Proxy, ev: Event, i: nat)
    requires Good(w) && Step(w, w', ev, true) && i < |w.conns|
    ensures |Handed(w, ev)| <= 1 && |w.conns| <= |w'.conns|
    ensures CountsRight(w, w', Handed(w, ev), SendWorks(ev), i)
  {
    hide Parse, Wrap32, HandleSegment, HandedFor;
    StepMakes(w, w', ev);
    if ev.Packet? && Parse(ev.bytes).Tcp? {
      SegmentCounts(w, Parse(ev.bytes).segment, ev.o, i);
    }
  }

  // Over whole runs

  /** Packet `j` is of one of the four kinds; only data is pushed, and the SYN is the first packet of its
      connection and no other. */
  predicate KindOk(out: seq<(nat, Segment)>, j: nat)
    requires j < |out|
  {
    var (i, s) := out[j];
    && (s.flags == SYN_ACK || s.flags == BARE_ACK || s.flags == PSH_ACK || s.flags == FIN_ACK)
    && (s.payload != [] <==> s.flags == PSH_ACK)
    && (s.flags == SYN_ACK <==> forall k :: 0 <= k < j ==> out[k].0 != i)
  }

  predicate Kinds(w: Proxy) {
    && (forall j :: 0 <= j < |w.out| ==> w.out[j].0 < |w.conns| && KindOk(w.out, j))
    && (forall i :: 0 <= i < |w.conns| ==> Mentioned(w.out, i))
  }

  predicate Mentioned(out: seq<(nat, Segment)>, i: nat) {
    exists j :: 0 <= j < |out| && out[j].0 == i
  }

  lemma MentionedMore(out: seq<(nat, Segment)>, i: nat, s: Segment, c: nat)
    ensures Mentioned(out + [(i, s)], c) <==> Mentioned(out, c) || c == i
  {
    var more := out + [(i, s)];
    if j :| 0 <= j < |out| && out[j].0 == c {
      assert more[j].0 == c;
    }
    assert more[|out|].0 == i;
  }

  /** One packet more, for a connection that has had some, or one connection more with its SYN-ACK. */
  lemma OneMoreKind(w: Proxy, w': Proxy, i: nat, s: Segment)
    requires Kinds(w) && w'.out == w.out + [(i, s)]
    requires s.flags == SYN_ACK || s.flags == BARE_ACK || s.flags == PSH_ACK || s.flags == FIN_ACK
    requires s.payload != [] <==> s.flags == PSH_ACK
    requires if s.flags == SYN_ACK then i == |w.conns| && |w'.conns| == i + 1 else i < |w.conns| == |w'.conns|
    ensures Kinds(w')
  {
    var n := |w.out|;
    assert forall k :: 0 <= k < n ==> w'.out[k] == w.out[k];
    forall j | 0 <= j < |w'.out| ensures w'.out[j].0 < |w'.conns| && KindOk(w'.out, j) {
      if j < n {
        assert w'.out[j] == w.out[j] && KindOk(w.out, j);
      } else if s.flags != SYN_ACK {
        assert Mentioned(w.out, i);
        var k :| 0 <= k < n && w.out[k].0 == i;
        assert w'.out[k] == w.out[k];
      }
    }
    forall c | 0 <= c < |w'.conns| ensures Mentioned(w'.out, c) {
      MentionedMore(w.out, i, s, c);
    }
  }

  /** Connections are made by SYNs that are answered, and by nothing else. */
  lemma StepMakes(w: Proxy, w': Proxy, ev: Event)
    requires Good(w) && Step(w, w', ev, true)
    ensures var h := Handed(w, ev);
            if h != [] && h[0].1.flags == SYN_ACK then h[0].0 == |w.conns| && |w'.conns| == |w.conns| + 1
            else |w'.conns| == |w.conns| && (h != [] ==> h[0].0 < |w.conns|)
    ensures |Handed(w, ev)| <= 1
  {
    hide Parse, Wrap32, HandleSegment, Good, HandedFor;
    if ev.Packet? && Parse(ev.bytes).Tcp? {
      SegmentMakes(w, Parse(ev.bytes).segment, ev.o);
    }
  }

  lemma SegmentMakes(w: Proxy, s: Segment, o: Oracle)
    requires Wf(w)
    ensures var h, w' := HandedFor(w, s, o), HandleSegment(w, s, true, o);
            if h != [] && h[0].1.flags == SYN_ACK then h[0].0 == |w.conns| && |w'.conns| == |w.conns| + 1
            else |w'.conns| == |w.conns| && (h != [] ==> h[0].0 < |w.conns|)
    ensures |HandedFor(w, s, o)| <= 1
  {
    hide Wrap32, HasFlag, KeyOf;
  }

  lemma StepKeepsKinds(w: Proxy, w': Proxy, ev: Event)
    requires Good(w) && Step(w, w', ev, true) && Kinds(w)
    ensures Kinds(w')
  {
    StepHands(w, w', ev, true);
    StepMakes(w, w', ev);
    var h := Handed(w, ev);
    if h == [] {
      AppendNothing(w.out);
    } else {
      HandedKind(w, w', ev);
      assert h == [h[0]];
      OneMoreKind(w, w', h[0].0, h[0].1);
    }
  }

  lemma HandedKind(w: Proxy, w': Proxy, ev: Event)
    requires Wf(w) && Step(w, w', ev, true) && Handed(w, ev) != []
    ensures var s := Handed(w, ev)[0].1;
            && (s.flags == SYN_ACK || s.flags == BARE_ACK || s.flags == PSH_ACK || s.flags == FIN_ACK)
            && (s.payload != [] <==> s.flags == PSH_ACK)
  {
    hide Parse, HandleSegment;
  }

  lemma {:induction false} AlwaysKinds(states: seq<Proxy>, events: seq<Event>, n: nat)
    requires Run(states, events, true) && n < |states|
    ensures Kinds(states[n])
    decreases n
  {
    if n > 0 {
      AlwaysKinds(states, events, n - 1);
      AlwaysGood(states, events, true, n - 1);
      assert StepAt(states, events, n - 1, true);
      StepKeepsKinds(states[n - 1], states[n], events[n - 1]);
    }
  }

  /** In every run: no packet that the proxy hands over is a reset; a SYN is the first packet of its
      connection and no other; a packet with a payload is ACK and PSH, and only the FIN of the timer is a FIN. */
  lemma PacketsAreOrderly(states: seq<Proxy>, events: seq<Event>, n: nat, j: nat)
    requires Run(states, events, true) && n < |states| && j < |states[n].out|
    ensures var out := states[n].out;
            var (i, s) := out[j];
            && !HasFlag(s.flags, FLAG_RST) && HasFlag(s.flags, FLAG_ACK)
            && (HasFlag(s.flags, FLAG_SYN) <==> forall k :: 0 <= k < j ==> out[k].0 != i)
            && (HasFlag(s.flags, FLAG_PSH) <==> s.payload != [])
            && (HasFlag(s.flags, FLAG_FIN) <==> s.flags == FIN_ACK)
  {
    AlwaysKinds(states, events, n);
    assert KindOk(states[n].out, j);
  }

  // What data packets acknowledge

  /** The segment is treated as an acknowledgement, and nothing else, of established connection `i`. */
  predicate Acknowledges(w: Proxy, ev: Event, i: nat)
    requires i < |w.conns|
  {
    && ev.Packet? && Parse(ev.bytes).Tcp?
    && var s := Parse(ev.bytes).segment;
       && KeyOf(s) in w.table && w.table[KeyOf(s)] == i && w.conns[i].state == Established
       && HasFlag(s.flags, FLAG_ACK) && s.payload == [] && s.seqNum > 0
       && !HasFlag(s.flags, FLAG_SYN) && !HasFlag(s.flags, FLAG_RST) && !HasFlag(s.flags, FLAG_FIN)
  }

  /** One more than the number of the last such segment; 0 before any. */
  function LastAck(states: seq<Proxy>, events: seq<Event>, n: nat, i: nat): uint32
    requires n <= |events| <= |states|
  {
    if n == 0 then 0
    else if i < |states[n - 1].conns| && Acknowledges(states[n - 1], events[n - 1], i)
    then Wrap32(Parse(events[n - 1].bytes).segment.seqNum + 1)
    else LastAck(states, events, n - 1, i)
  }

  /** No connection acknowledges anything else, and new ones acknowledge nothing. */
  predicate AcksKept(w: Proxy, w': Proxy) {
    && |w.conns| <= |w'.conns|
    && (forall j :: 0 <= j < |w.conns| ==> w'.conns[j].clientAck == w.conns[j].clientAck)
    && (forall j :: |w.conns| <= j < |w'.conns| ==> w'.conns[j].clientAck == 0)
  }

  lemma SynKeepsAcks(w: Proxy, s: Segment, o: Oracle)
    ensures AcksKept(w, HandleSyn(w, s, true, o))
  {
    hide Wrap32, KeyOf;
  }

  lemma FinKeepsAcks(w: Proxy, i: nat, seqNum: uint32, o: Oracle)
    requires i < |w.conns|
    ensures AcksKept(w, HandleFin(w, i, seqNum, true, o)) && AcksKept(w, Strand(w, i))
  {
    hide Wrap32;
  }

  lemma DataKeepsAcks(w: Proxy, key: Key, payload: seq<byte>, o: Oracle)
    requires Wf(w)
    ensures AcksKept(w, HandleData(w, key, payload, o))
  {
    hide Wrap32;
  }

  lemma OtherStepsKeepAcks(w: Proxy, w': Proxy, ev: Event)
    requires Step(w, w', ev, true) && !(ev.Packet? && Parse(ev.bytes).Tcp?)
    ensures AcksKept(w, w')
  {
    hide Wrap32, Parse;
  }

  lemma SegmentAcks(w: Proxy, s: Segment, o: Oracle, i: nat)
    requires Wf(w) && i < |w.conns|
    ensures var w' := HandleSegment(w, s, true, o);
            && |w.conns| <= |w'.conns|
            && w'.conns[i].clientAck
               == if KeyOf(s) in w.table && w.table[KeyOf(s)] == i && w.conns[i].state == Established
                     && HasFlag(s.flags, FLAG_ACK) && s.payload == [] && s.seqNum > 0
                     && !HasFlag(s.flags, FLAG_SYN) && !HasFlag(s.flags, FLAG_RST) && !HasFlag(s.flags, FLAG_FIN)
                  then Wrap32(s.seqNum + 1) else w.conns[i].clientAck
  {
    hide Wrap32, HasFlag, KeyOf, HandleSyn, HandleFin, HandleData;
    var key := KeyOf(s);
    if HasFlag(s.flags, FLAG_SYN) {
      SynKeepsAcks(w, s, o);
    } else if key in w.table && (HasFlag(s.flags, FLAG_RST) || HasFlag(s.flags, FLAG_FIN)) {
      FinKeepsAcks(w, w.table[key], s.seqNum, o);
    } else if s.payload != [] {
      DataKeepsAcks(w, key, s.payload, o);
    }
  }

  lemma NewAcksNothing(w: Proxy, w': Proxy, ev: Event, i: nat)
    requires Step(w, w', ev, true) && |w.conns| <= i < |w'.conns|
    ensures w'.conns[i].clientAck == 0
  {
    hide Wrap32, Parse, KeyOf, HasFlag, HandleSyn, HandleFin, HandleData;
    if ev.Packet? && Parse(ev.bytes).Tcp? {
      var s := Parse(ev.bytes).segment;
      var key := KeyOf(s);
      if HasFlag(s.flags, FLAG_SYN) {
        SynKeepsAcks(w, s, ev.o);
      } else {
        DataKeepsAcks(w, key, s.payload, ev.o);
        if key in w.table {
          FinKeepsAcks(w, w.table[key], s.seqNum, ev.o);
        }
      }
    } else {
      OtherStepsKeepAcks(w, w', ev);
    }
  }

  lemma StepAcks(w: Proxy, w': Proxy, ev: Event, i: nat)
    requires Step(w, w', ev, true) && i < |w.conns|
    ensures |w.conns| <= |w'.conns|
    ensures w'.conns[i].clientAck == if Acknowledges(w, ev, i) then Wrap32(Parse(ev.bytes).segment.seqNum + 1)
                                     else w.conns[i].clientAck
  {
    hide Wrap32, Parse, HandleSegment, HasFlag, KeyOf;
    if ev.Packet? && Parse(ev.bytes).Tcp? {
      SegmentAcks(w, Parse(ev.bytes).segment, ev.o, i);
    } else {
      OtherStepsKeepAcks(w, w', ev);
    }
  }

  lemma {:induction false} NotMadeNoAck(states: seq<Proxy>, events: seq<Event>, n: nat, i: nat)
    requires Run(states, events, true) && n < |states| && |states[n].conns| <= i
    ensures LastAck(states, events, n, i) == 0
    decreases n
  {
    hide Step, Parse, Wrap32;
    if n > 0 {
      assert StepAt(states, events, n - 1, true);
      AlwaysGood(states, events, true, n - 1);
      ConnsStay(states[n - 1], states[n], events[n - 1]);
      NotMadeNoAck(states, events, n - 1, i);
    }
  }

  lemma ConnsStay(w: Proxy, w': Proxy, ev: Event)
    requires Good(w) && Step(w, w', ev, true)
    ensures |w.conns| <= |w'.conns|
  {
    StepMakes(w, w', ev);
  }

  lemma {:induction false} AcksExact(states: seq<Proxy>, events: seq<Event>, n: nat, i: nat)
    requires Run(states, events, true) && n < |states| && i < |states[n].conns|
    ensures states[n].conns[i].clientAck == LastAck(states, events, n, i)
    decreases n
  {
    hide Step, Parse, Wrap32, Acknowledges, Good;
    if n > 0 {
      var w, w', ev := states[n - 1], states[n], events[n - 1];
      assert StepAt(states, events, n - 1, true);
      AlwaysGood(states, events, true, n - 1);
      if i < |w.conns| {
        AcksExact(states, events, n - 1, i);
        StepAcks(w, w', ev, i);
      } else {
        NewAcksNothing(w, w', ev, i);
        NotMadeNoAck(states, events, n - 1, i);
      }
    }
  }

  /** Every packet of a read acknowledges one more than the number of the last bare acknowledgement that came on
      the established connection, however much data the client has sent since or before. */
  lemma DataAcknowledges(states: seq<Proxy>, events: seq<Event>, n: nat, i: nat, data: seq<byte>)
    requires Run(states, events, true) && n < |events| && events[n] == Forwarded(i, data)
    ensures var w, w' := states[n], states[n + 1];
            && i < |w.conns| && |w'.out| == |w.out| + 1 && w'.out[|w.out|].0 == i
            && var s := w'.out[|w.out|].1; s.flags == PSH_ACK && s.ackNum == LastAck(states, events, n, i)
  {
    AlwaysGood(states, events, true, n);
    assert StepAt(states, events, n, true);
    StepHands(states[n], states[n + 1], events[n], true);
    AcksExact(states, events, n, i);
  }

  /** So data that the client sends is not acknowledged by it, and a bare acknowledgement that carries the
      client's own next number makes the packets after it acknowledge one byte that was never sent. */
  lemma HonestAckIsOneAhead(w: Proxy, i: nat, ackNum: uint32)
    requires i < |w.conns| && w.conns[i].state == Established && w.conns[i].clientSeq > 0
    ensures var c, c' := w.conns[i], HandleAck(w, i, ackNum, w.conns[i].clientSeq).conns[i];
            c'.clientSeq == c.clientSeq && c'.clientAck == Wrap32(c.clientSeq + 1) != c'.clientSeq
  {
  }
}
