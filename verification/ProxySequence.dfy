/** The packets that the proxy hands to the TUN device: whom they are for, and their sequence
    numbers. */
module ProxySequence {
  import opened Bytes
  import opened TcpPacket
  import opened ProxyProtocol
  import opened ProxyRun
  import R = ProxyResults

  // Whom packets are for

  /** The connection id of the answers to `s`. */
  function Turned(s: Segment): Key {
    Key(Printed(s.dstIP), s.dstPort, Printed(s.srcIP), s.srcPort)
  }

  /** The id and the addresses of a connection agree. */
  predicate Named(c: ConnState) {
    c.key.srcIP == Printed(c.srcIP) && c.key.dstIP == Printed(c.dstIP)
  }

  /** Every packet handed over goes from the server to the client of its connection. */
  predicate Addressed(w: Proxy) {
    && (forall i :: 0 <= i < |w.conns| ==> Named(w.conns[i]))
    && (forall j :: 0 <= j < |w.out| ==> w.out[j].0 < |w.conns| && Turned(w.out[j].1) == w.conns[w.out[j].0].key)
  }

  /** All that a step may do to names and packets: connections stay as they are named, and at most one
      packet is handed over, for the connection it names. */
  predicate Tidy(w: Proxy, w': Proxy) {
    && |w.conns| <= |w'.conns|
    && (forall i :: 0 <= i < |w.conns| ==>
          w'.conns[i].key == w.conns[i].key && w'.conns[i].srcIP == w.conns[i].srcIP
          && w'.conns[i].dstIP == w.conns[i].dstIP)
    && (forall i :: |w.conns| <= i < |w'.conns| ==> Named(w'.conns[i]))
    && (w'.out == w.out
        || (|w'.out| == |w.out| + 1 && w.out <= w'.out
            && var (i, s) := w'.out[|w.out|];
               i < |w'.conns| && s.srcIP == w'.conns[i].dstIP && s.dstIP == w'.conns[i].srcIP
               && s.srcPort == w'.conns[i].key.dstPort && s.dstPort == w'.conns[i].key.srcPort))
  }

  lemma TidyKeepsAddressed(w: Proxy, w': Proxy)
    requires Addressed(w) && Tidy(w, w')
    ensures Addressed(w')
  {
    forall j | 0 <= j < |w'.out| ensures w'.out[j].0 < |w'.conns| && Turned(w'.out[j].1) == w'.conns[w'.out[j].0].key {
      if j < |w.out| {
        assert w'.out[j] == w.out[j];
      }
    }
  }

  lemma SynIsTidy(w: Proxy, s: Segment, hasSender: bool, o: Oracle)
    ensures Tidy(w, HandleSyn(w, s, hasSender, o))
  {
  }

  predicate SameName(c: ConnState, c': ConnState) {
    c'.key == c.key && c'.srcIP == c.srcIP && c'.dstIP == c.dstIP
  }

  /** Changing a connection's other fields, or stopping, on top of a tidy step. */
  lemma TidyThenSet(w: Proxy, v: Proxy, i: nat, c: ConnState)
    requires Tidy(w, v) && |v.conns| == |w.conns| && i < |v.conns| && SameName(v.conns[i], c)
    ensures Tidy(w, SetConn(v, i, c))
  {
    var v' := SetConn(v, i, c);
    forall j | 0 <= j < |w.conns| ensures SameName(w.conns[j], v'.conns[j]) {
      assert SameName(w.conns[j], v.conns[j]);
    }
    if v.out != w.out {
      var at := v.out[|w.out|].0;
      assert SameName(v.conns[at], v'.conns[at]);
    }
  }

  lemma TidyThenStrand(w: Proxy, v: Proxy, i: nat)
    requires Tidy(w, v) && |v.conns| == |w.conns| && i < |v.conns|
    ensures Tidy(w, Strand(v, i))
  {
    var c := v.conns[i].(state := Closed, closed := true, outboundOpen := false);
    TidyThenSet(w, v, i, c);
    assert Strand(v, i).out == SetConn(v, i, c).out && Strand(v, i).conns == SetConn(v, i, c).conns;
  }

  /** A packet without payload for a connection whose other fields have changed. */
  lemma BareIsTidy(w: Proxy, i: nat, c: ConnState, seqNum: uint32, ackNum: uint32, flags: byte, hasSender: bool, o: Oracle)
    requires i < |w.conns| && SameName(w.conns[i], c)
    ensures Tidy(w, SendBare(SetConn(w, i, c), i, seqNum, ackNum, flags, hasSender, o))
    ensures |SendBare(SetConn(w, i, c), i, seqNum, ackNum, flags, hasSender, o).conns| == |w.conns|
    ensures SameName(w.conns[i], SendBare(SetConn(w, i, c), i, seqNum, ackNum, flags, hasSender, o).conns[i])
  {
  }

  lemma FinIsTidy(w: Proxy, i: nat, seqNum: uint32, hasSender: bool, o: Oracle)
    requires i < |w.conns|
    ensures Tidy(w, HandleFin(w, i, seqNum, hasSender, o))
  {
    hide Tidy, SendBare, Strand, FirstFin;
    var c, next := w.conns[i], Wrap32(seqNum + 1);
    if c.state == Established {
      FirstFinIsTidy(w, i, seqNum, hasSender, o);
    } else if c.state == FinWait2 {
      BareIsTidy(w, i, c.(state := TimeWait), c.clientSeq, c.serverSeq, FLAG_ACK, hasSender, o);
    } else {
      assert SetConn(w, i, c) == w;
      BareIsTidy(w, i, c, next, c.serverSeq, FLAG_ACK, hasSender, o);
      TidyThenStrand(w, SendBare(w, i, next, c.serverSeq, FLAG_ACK, hasSender, o), i);
    }
  }

  lemma FirstFinIsTidy(w: Proxy, i: nat, seqNum: uint32, hasSender: bool, o: Oracle)
    requires i < |w.conns|
    ensures Tidy(w, FirstFin(w, i, seqNum, hasSender, o))
  {
    hide Tidy, SendBare;
    var c, next := w.conns[i], Wrap32(seqNum + 1);
    var closing := c.(state := CloseWait, clientSeq := next);
    BareIsTidy(w, i, closing, next, c.serverSeq, FLAG_ACK, hasSender, o);
    var sent := SendBare(SetConn(w, i, closing), i, next, c.serverSeq, FLAG_ACK, hasSender, o);
    TidyThenSet(w, sent, i, sent.conns[i].(finTimer := true));
  }

  lemma TimerIsTidy(w: Proxy, i: nat, hasSender: bool, o: Oracle)
    requires i < |w.conns|
    ensures Tidy(w, FinTimer(w, i, hasSender, o))
  {
  }

  lemma SetIsTidy(w: Proxy, i: nat, c: ConnState)
    requires i < |w.conns| && c.key == w.conns[i].key && c.srcIP == w.conns[i].srcIP && c.dstIP == w.conns[i].dstIP
    ensures Tidy(w, SetConn(w, i, c))
  {
  }

  lemma StrandIsTidy(w: Proxy, i: nat)
    requires i < |w.conns|
    ensures Tidy(w, Strand(w, i))
  {
  }

  lemma AckIsTidy(w: Proxy, i: nat, ackNum: uint32, seqNum: uint32)
    requires i < |w.conns|
    ensures Tidy(w, HandleAck(w, i, ackNum, seqNum))
  {
    var c := w.conns[i];
    match c.state
    case SynReceived => SetIsTidy(w, i, c.(state := Established, bytesFromClient := 0, bytesToClient := 0));
    case Established =>
      SetIsTidy(w, i, c.(serverSeq := if ackNum > c.serverSeq then ackNum else c.serverSeq,
                         clientAck := if seqNum > 0 then Wrap32(seqNum + 1) else c.clientAck));
    case FinWait1 => SetIsTidy(w, i, c.(state := FinWait2));
    case Closing => SetIsTidy(w, i, c.(state := TimeWait));
    case LastAck => StrandIsTidy(w, i);
    case _ =>
  }

  lemma SegmentIsTidy(w: Proxy, s: Segment, hasSender: bool, o: Oracle)
    requires Wf(w)
    ensures Tidy(w, HandleSegment(w, s, hasSender, o))
  {
    var key := KeyOf(s);
    if HasFlag(s.flags, FLAG_SYN) {
      SynIsTidy(w, s, hasSender, o);
    } else if key in w.table && HasFlag(s.flags, FLAG_RST) {
      StrandIsTidy(w, w.table[key]);
    } else if key in w.table && HasFlag(s.flags, FLAG_FIN) {
      FinIsTidy(w, w.table[key], s.seqNum, hasSender, o);
    } else if s.payload != [] {
      DataIsTidy(w, key, s.payload, o);
    } else if key in w.table && HasFlag(s.flags, FLAG_ACK) {
      AckIsTidy(w, w.table[key], s.ackNum, s.seqNum);
    }
  }

  lemma DataIsTidy(w: Proxy, key: Key, payload: seq<byte>, o: Oracle)
    requires Wf(w)
    ensures Tidy(w, HandleData(w, key, payload, o))
  {
  }

  lemma StepIsTidy(w: Proxy, w': Proxy, ev: Event, hasSender: bool)
    requires Step(w, w', ev, hasSender)
    ensures Tidy(w, w')
  {
    if ev.Packet? && Parse(ev.bytes).Tcp? {
      SegmentIsTidy(w, Parse(ev.bytes).segment, hasSender, ev.o);
    } else if ev.TimerFires? {
      TimerIsTidy(w, ev.i, hasSender, ev.o);
    }
  }

  /** Whatever is handed to the TUN device goes from the server of its connection to its client:
      turned round, its addresses and ports are the connection's id. */
  lemma {:induction false} PacketsAreAddressed(states: seq<Proxy>, events: seq<Event>, hasSender: bool, n: nat)
    requires Run(states, events, hasSender) && n < |states|
    ensures Addressed(states[n])
    decreases n
  {
    if n > 0 {
      PacketsAreAddressed(states, events, hasSender, n - 1);
      assert StepAt(states, events, n - 1, hasSender);
      StepIsTidy(states[n - 1], states[n], events[n - 1], hasSender);
      TidyKeepsAddressed(states[n - 1], states[n]);
    }
  }

  // Sequence numbers

  /** How far a step moves the sequence number of connection `i` when its client acknowledges nothing
      that was not sent: by the bytes of a read, or by one for a FIN that went out. */
  function Advance(w: Proxy, ev: Event, i: nat): nat {
    if ev.Forwarded? && ev.i == i then |ev.data|
    else if ev.TimerFires? && ev.i == i && i < |w.conns| && w.conns[i].state == CloseWait && ev.o.sendOk then 1
    else 0
  }

  /** The segment is treated as an acknowledgement, and nothing else, of established connection `i`, and
      its number is above the expected one. */
  predicate SegmentAhead(w: Proxy, s: Segment, i: nat)
    requires i < |w.conns|
  {
    && KeyOf(s) in w.table && w.table[KeyOf(s)] == i && w.conns[i].state == Established
    && HasFlag(s.flags, FLAG_ACK) && s.payload == []
    && !HasFlag(s.flags, FLAG_SYN) && !HasFlag(s.flags, FLAG_RST) && !HasFlag(s.flags, FLAG_FIN)
    && s.ackNum > w.conns[i].serverSeq
  }

  predicate AckAhead(w: Proxy, ev: Event, i: nat)
    requires i < |w.conns|
  {
    ev.Packet? && Parse(ev.bytes).Tcp? && SegmentAhead(w, Parse(ev.bytes).segment, i)
  }

  /** The sum of the moves in the first `n` steps. */
  function Moves(states: seq<Proxy>, events: seq<Event>, n: nat, i: nat): nat
    requires n <= |events| <= |states|
  {
    if n == 0 then 0 else Moves(states, events, n - 1, i) + Advance(states[n - 1], events[n - 1], i)
  }

  /** No acknowledgement for connection `i` has been ahead in the first `n` steps. */
  predicate NoneAhead(states: seq<Proxy>, events: seq<Event>, n: nat, i: nat)
    requires n <= |events| <= |states|
  {
    n == 0 || (NoneAhead(states, events, n - 1, i) && InStep(states[n - 1], events[n - 1], i))
  }

  predicate InStep(w: Proxy, ev: Event, i: nat) {
    i < |w.conns| ==> !AckAhead(w, ev, i)
  }

  predicate SameNumbers(c: ConnState, c': ConnState) {
    c'.serverISN == c.serverISN && c'.serverSeq == c.serverSeq
  }

  lemma SynKeepsNumbers(w: Proxy, s: Segment, o: Oracle, i: nat)
    requires i < |w.conns|
    ensures |w.conns| <= |HandleSyn(w, s, true, o).conns| && SameNumbers(w.conns[i], HandleSyn(w, s, true, o).conns[i])
  {
  }

  lemma FinKeepsNumbers(w: Proxy, k: nat, seqNum: uint32, o: Oracle, i: nat)
    requires i < |w.conns| && k < |w.conns|
    ensures |HandleFin(w, k, seqNum, true, o).conns| == |w.conns|
    ensures SameNumbers(w.conns[i], HandleFin(w, k, seqNum, true, o).conns[i])
  {
    FirstFinKeepsNumbers(w, k, seqNum, o, i);
  }

  lemma FirstFinKeepsNumbers(w: Proxy, k: nat, seqNum: uint32, o: Oracle, i: nat)
    requires i < |w.conns| && k < |w.conns|
    ensures |FirstFin(w, k, seqNum, true, o).conns| == |w.conns|
    ensures SameNumbers(w.conns[i], FirstFin(w, k, seqNum, true, o).conns[i])
  {
  }

  lemma AckKeepsNumbers(w: Proxy, k: nat, ackNum: uint32, seqNum: uint32, i: nat)
    requires i < |w.conns| && k < |w.conns|
    ensures |HandleAck(w, k, ackNum, seqNum).conns| == |w.conns|
    ensures var c, c' := w.conns[i], HandleAck(w, k, ackNum, seqNum).conns[i];
            if k == i && c.state == Established && ackNum > c.serverSeq
            then c'.serverISN == c.serverISN && c'.serverSeq == ackNum else SameNumbers(c, c')
  {
  }

  lemma SegmentKeepsNumbers(w: Proxy, s: Segment, o: Oracle, i: nat)
    requires Wf(w) && i < |w.conns|
    ensures var w' := HandleSegment(w, s, true, o);
            && |w.conns| <= |w'.conns| && w'.conns[i].serverISN == w.conns[i].serverISN
            && w'.conns[i].serverSeq == if SegmentAhead(w, s, i) then s.ackNum else w.conns[i].serverSeq
  {
    var key := KeyOf(s);
    if HasFlag(s.flags, FLAG_SYN) {
      SynKeepsNumbers(w, s, o, i);
    } else if key in w.table && HasFlag(s.flags, FLAG_RST) {
      StrandKeepsNumbers(w, w.table[key], i);
    } else if key in w.table && HasFlag(s.flags, FLAG_FIN) {
      FinKeepsNumbers(w, w.table[key], s.seqNum, o, i);
    } else if s.payload != [] {
      DataKeepsNumbers(w, key, s.payload, o, i);
    } else if key in w.table && HasFlag(s.flags, FLAG_ACK) {
      AckKeepsNumbers(w, w.table[key], s.ackNum, s.seqNum, i);
    }
  }

  lemma StrandKeepsNumbers(w: Proxy, k: nat, i: nat)
    requires i < |w.conns| && k < |w.conns|
    ensures |Strand(w, k).conns| == |w.conns| && SameNumbers(w.conns[i], Strand(w, k).conns[i])
  {
  }

  lemma DataKeepsNumbers(w: Proxy, key: Key, payload: seq<byte>, o: Oracle, i: nat)
    requires Wf(w) && i < |w.conns|
    ensures |HandleData(w, key, payload, o).conns| == |w.conns|
    ensures SameNumbers(w.conns[i], HandleData(w, key, payload, o).conns[i])
  {
  }

  lemma TimerMoves(w: Proxy, k: nat, o: Oracle, i: nat)
    requires i < |w.conns| && k < |w.conns|
    ensures var c, c' := w.conns[i], FinTimer(w, k, true, o).conns[i];
            c'.serverISN == c.serverISN
            && c'.serverSeq == if k == i && c.state == CloseWait && o.sendOk then Wrap32(c.serverSeq + 1) else c.serverSeq
  {
  }

  /** A step moves the number by exactly `Advance`, in 32 bits, if and only if it is not such an
      acknowledgement. */
  lemma StepMoves(w: Proxy, w': Proxy, ev: Event, i: nat)
    requires Step(w, w', ev, true) && i < |w.conns|
    ensures |w.conns| <= |w'.conns| && w'.conns[i].serverISN == w.conns[i].serverISN
    ensures w'.conns[i].serverSeq == Wrap32(w.conns[i].serverSeq + Advance(w, ev, i)) <==> !AckAhead(w, ev, i)
  {
    hide Parse, HandleSegment, KeyOf, HasFlag;
    if ev.Packet? && Parse(ev.bytes).Tcp? {
      SegmentKeepsNumbers(w, Parse(ev.bytes).segment, ev.o, i);
    } else if ev.TimerFires? {
      TimerMoves(w, ev.i, ev.o, i);
    }
  }

  lemma NewNumbers(w: Proxy, w': Proxy, ev: Event, i: nat)
    requires Good(w) && Step(w, w', ev, true) && |w.conns| <= i < |w'.conns|
    ensures w'.conns[i].serverSeq == Wrap32(w'.conns[i].serverISN + 1) && Advance(w, ev, i) == 0
  {
    hide HandleSyn, Good, Parse;
    if ev.Packet? && Parse(ev.bytes).Tcp? {
      var s := Parse(ev.bytes).segment;
      if HasFlag(s.flags, FLAG_SYN) {
        MadeNumbers(w, s, ev.o);
      } else {
        R.NoNewConn(w, s, true, ev.o);
      }
    }
  }

  lemma MadeNumbers(w: Proxy, s: Segment, o: Oracle)
    ensures var cs := HandleSyn(w, s, true, o).conns;
            |cs| == |w.conns| || (|cs| == |w.conns| + 1
                                  && cs[|w.conns|].serverSeq == Wrap32(cs[|w.conns|].serverISN + 1))
  {
  }

  /** Connection `i` has been moved by `m` since it was made. */
  predicate Numbered(w: Proxy, i: nat, m: nat) {
    if i < |w.conns| then w.conns[i].serverSeq == Wrap32(w.conns[i].serverISN + 1 + m) else m == 0
  }

  lemma StepKeepsNumbered(w: Proxy, w': Proxy, ev: Event, i: nat, m: nat)
    requires Good(w) && Step(w, w', ev, true) && Numbered(w, i, m) && InStep(w, ev, i)
    ensures Numbered(w', i, m + Advance(w, ev, i))
  {
    hide Step, AckAhead, Advance, Good;
    if i < |w.conns| {
      StepMoves(w, w', ev, i);
      WrapTwice(w.conns[i].serverISN + 1 + m, Advance(w, ev, i));
    } else if i < |w'.conns| {
      NewNumbers(w, w', ev, i);
    } else {
      NothingAdvances(w, w', ev, i);
    }
  }

  lemma NothingAdvances(w: Proxy, w': Proxy, ev: Event, i: nat)
    requires Step(w, w', ev, true) && |w.conns| <= i
    ensures Advance(w, ev, i) == 0
  {
  }

  /** As long as no acknowledgement has been ahead, the next sequence number of a connection is its
      initial one plus one for the SYN plus all that has been forwarded and the FIN, modulo 2^32. */
  lemma {:induction false} ServerNumbersExact(states: seq<Proxy>, events: seq<Event>, n: nat, i: nat)
    requires Run(states, events, true) && n < |states| && NoneAhead(states, events, n, i)
    ensures Numbered(states[n], i, Moves(states, events, n, i))
    decreases n
  {
    if n > 0 {
      ServerNumbersExact(states, events, n - 1, i);
      AlwaysGood(states, events, true, n - 1);
      assert StepAt(states, events, n - 1, true);
      StepKeepsNumbered(states[n - 1], states[n], events[n - 1], i, Moves(states, events, n - 1, i));
    }
  }

  /** And so every packet of a read carries the number of its first byte, and the data that was read. */
  lemma PacketsNumberedExactly(states: seq<Proxy>, events: seq<Event>, n: nat, i: nat, data: seq<byte>)
    requires Run(states, events, true) && n < |events| && events[n] == Forwarded(i, data)
    requires NoneAhead(states, events, n, i)
    ensures var w, w' := states[n], states[n + 1];
            && i < |w.conns| && |w'.out| == |w.out| + 1 && w'.out[|w.out|].0 == i
            && var s := w'.out[|w.out|].1;
               && s.payload == data && s.flags == 0x18 && s.ackNum == w.conns[i].clientAck
               && s.seqNum == Wrap32(w.conns[i].serverISN + 1 + Moves(states, events, n, i))
  {
    ServerNumbersExact(states, events, n, i);
    assert StepAt(states, events, n, true);
    DataCarriesNumber(states[n], states[n + 1], i, data, Moves(states, events, n, i));
  }

  lemma DataCarriesNumber(w: Proxy, w': Proxy, i: nat, data: seq<byte>, m: nat)
    requires Step(w, w', Forwarded(i, data), true) && Numbered(w, i, m)
    ensures i < |w.conns| && |w'.out| == |w.out| + 1 && w'.out[|w.out|].0 == i
    ensures var s := w'.out[|w.out|].1;
            && s.payload == data && s.flags == 0x18 && s.ackNum == w.conns[i].clientAck
            && s.seqNum == Wrap32(w.conns[i].serverISN + 1 + m)
  {
  }

  // Acknowledgements that look ahead

  /** The comparison is one of plain words: an acknowledgement of `acked` bytes, no more than the `sent`
      that were sent, is taken for one that is ahead exactly when a multiple of 2^32 lies between. */
  lemma LooksAhead(acked: nat, sent: nat)
    requires acked <= sent < acked + TWO_TO_THE_32
    ensures Wrap32(acked) > Wrap32(sent) <==> acked / TWO_TO_THE_32 != sent / TWO_TO_THE_32
  {
    assert sent / TWO_TO_THE_32 == acked / TWO_TO_THE_32 || sent / TWO_TO_THE_32 == acked / TWO_TO_THE_32 + 1;
  }

  /** On an established connection whose next number stands after `sent` bytes, an honest acknowledgement
      of `acked` of them leaves the number alone exactly when no multiple of 2^32 lies between the two
      places; otherwise it sets the number back. */
  lemma OldAckSetsBack(w: Proxy, i: nat, acked: nat, sent: nat, seqNum: uint32)
    requires i < |w.conns| && w.conns[i].state == Established && acked <= sent < acked + TWO_TO_THE_32
    requires w.conns[i].serverSeq == Wrap32(w.conns[i].serverISN + 1 + sent)
    ensures var c := w.conns[i];
            var c' := HandleAck(w, i, Wrap32(c.serverISN + 1 + acked), seqNum).conns[i];
            if (c.serverISN + 1 + acked) / TWO_TO_THE_32 == (c.serverISN + 1 + sent) / TWO_TO_THE_32
            then c'.serverSeq == c.serverSeq
            else c'.serverSeq == Wrap32(c.serverISN + 1 + acked) != c.serverSeq
  {
    LooksAhead(w.conns[i].serverISN + 1 + acked, w.conns[i].serverISN + 1 + sent);
  }

  /** Packets between one client and one server, in either role. */
  datatype Pair = Pair(client: seq<byte>, server: seq<byte>, clientPort: uint16, serverPort: uint16)

  function FromClient(p: Pair, ackNum: uint32, flags: byte): Segment {
    Segment(p.client, p.clientPort, p.server, p.serverPort, 0, ackNum, flags, [])
  }

  /** Everything outside succeeds, and the clock gives 2^32 - 2. */
  const LATE := Oracle(true, true, 0xFFFF_FFFE, true, 0)

  lemma ClientPacketStep(w: Proxy, p: Pair, ackNum: uint32, flags: byte)
    requires Wf(w) && w.lock.Free? && |p.client| == |p.server| == 4
    ensures var s := FromClient(p, ackNum, flags);
            Step(w, HandleSegment(w, s, true, LATE), Packet(PacketBytes(s), LATE), true)
  {
    R.PacketStep(w, FromClient(p, ackNum, flags), LATE);
  }

  /** The only connection is established, its initial number is 2^32 - 2, and its next one `next`. */
  predicate OnlyOne(w: Proxy, p: Pair, next: uint32, state: TcpState) {
    && |w.conns| == 1 && w.lock.Free? && w.table == map[KeyOf(FromClient(p, 0, 0)) := 0]
    && w.conns[0].serverISN == 0xFFFF_FFFE && w.conns[0].serverSeq == next
    && w.conns[0].state == state && w.conns[0].forwarding
  }

  lemma AfterSyn(p: Pair)
    ensures OnlyOne(HandleSegment(Fresh, FromClient(p, 0, FLAG_SYN), true, LATE), p, 0xFFFF_FFFF, SynReceived)
  {
    assert HasFlag(FLAG_SYN, FLAG_SYN);
  }

  lemma AfterAck(w: Proxy, p: Pair, next: uint32, state: TcpState)
    requires OnlyOne(w, p, next, state) && (state == SynReceived || state == Established)
    requires state == SynReceived ==> next == 0xFFFF_FFFF
    ensures Wf(w)
    ensures OnlyOne(HandleSegment(w, FromClient(p, 0xFFFF_FFFF, FLAG_ACK), true, LATE), p, 0xFFFF_FFFF, Established)
  {
    var s := FromClient(p, 0xFFFF_FFFF, FLAG_ACK);
    assert KeyOf(s) == KeyOf(FromClient(p, 0, 0));
    assert HasFlag(s.flags, FLAG_ACK) && !HasFlag(s.flags, FLAG_SYN);
    assert !HasFlag(s.flags, FLAG_RST) && !HasFlag(s.flags, FLAG_FIN);
    assert HandleSegment(w, s, true, LATE) == HandleAck(w, 0, s.ackNum, s.seqNum);
  }

  lemma AfterByte(w: Proxy, p: Pair, next: uint32, b: byte)
    requires OnlyOne(w, p, next, Established)
    ensures Step(w, Forward(w, 0, [b], true), Forwarded(0, [b]), true)
    ensures OnlyOne(Forward(w, 0, [b], true), p, Wrap32(next + 1), Established)
    ensures var out := Forward(w, 0, [b], true).out;
            |out| == |w.out| + 1 && out[|w.out|].0 == 0 && out[|w.out|].1.seqNum == next
  {
  }

  function SynOf(p: Pair): Event {
    Packet(PacketBytes(FromClient(p, 0, FLAG_SYN)), LATE)
  }

  /** It acknowledges the SYN and nothing else. */
  function AckOf(p: Pair): Event {
    Packet(PacketBytes(FromClient(p, 0xFFFF_FFFF, FLAG_ACK)), LATE)
  }

  lemma OpenLate(p: Pair) returns (w: Proxy)
    requires |p.client| == |p.server| == 4
    ensures Run([Fresh, w], [SynOf(p)], true) && OnlyOne(w, p, 0xFFFF_FFFF, SynReceived)
  {
    AfterSyn(p);
    ClientPacketStep(Fresh, p, 0, FLAG_SYN);
    w := HandleSegment(Fresh, FromClient(p, 0, FLAG_SYN), true, LATE);
    R.RunMore([Fresh], [], w, SynOf(p));
    assert [Fresh] + [w] == [Fresh, w] && [] + [SynOf(p)] == [SynOf(p)];
  }

  lemma AckMore(states: seq<Proxy>, events: seq<Event>, p: Pair, next: uint32, state: TcpState) returns (w: Proxy)
    requires Run(states, events, true) && |p.client| == |p.server| == 4
    requires OnlyOne(states[|states| - 1], p, next, state) && (state == SynReceived || state == Established)
    requires state == SynReceived ==> next == 0xFFFF_FFFF
    ensures Run(states + [w], events + [AckOf(p)], true) && OnlyOne(w, p, 0xFFFF_FFFF, Established)
  {
    var last := states[|states| - 1];
    AfterAck(last, p, next, state);
    ClientPacketStep(last, p, 0xFFFF_FFFF, FLAG_ACK);
    w := HandleSegment(last, FromClient(p, 0xFFFF_FFFF, FLAG_ACK), true, LATE);
    R.RunMore(states, events, w, AckOf(p));
  }

  lemma ByteMore(states: seq<Proxy>, events: seq<Event>, p: Pair, next: uint32, b: byte) returns (w: Proxy)
    requires Run(states, events, true) && OnlyOne(states[|states| - 1], p, next, Established)
    ensures Run(states + [w], events + [Forwarded(0, [b])], true) && OnlyOne(w, p, Wrap32(next + 1), Established)
    ensures var at := |states[|states| - 1].out|; |w.out| == at + 1 && w.out[at].0 == 0 && w.out[at].1.seqNum == next
  {
    AfterByte(states[|states| - 1], p, next, b);
    w := Forward(states[|states| - 1], 0, [b], true);
    R.RunMore(states, events, w, Forwarded(0, [b]));
  }

  /** Two bytes are forwarded one after the other, and an old acknowledgement of neither comes in
      between.  The two packets carry the same sequence number. */
  lemma TwoBytesOneNumber(p: Pair, b0: byte, b1: byte) returns (states: seq<Proxy>, events: seq<Event>)
    requires |p.client| == |p.server| == 4
    ensures Run(states, events, true)
    ensures events == [SynOf(p), AckOf(p), Forwarded(0, [b0]), AckOf(p), Forwarded(0, [b1])]
    ensures var first, last := |states[2].out|, |states[4].out|;
            && first < |states[3].out| && last < |states[5].out|
            && states[3].out[first].1.seqNum == states[5].out[last].1.seqNum == 0xFFFF_FFFF
  {
    var w1 := OpenLate(p);
    states, events := [Fresh, w1], [SynOf(p)];
    var w2 := AckMore(states, events, p, 0xFFFF_FFFF, SynReceived);
    states, events := states + [w2], events + [AckOf(p)];
    var w3 := ByteMore(states, events, p, 0xFFFF_FFFF, b0);
    states, events := states + [w3], events + [Forwarded(0, [b0])];
    var w4 := AckMore(states, events, p, 0, Established);
    states, events := states + [w4], events + [AckOf(p)];
    var w5 := ByteMore(states, events, p, 0xFFFF_FFFF, b1);
    states, events := states + [w5], events + [Forwarded(0, [b1])];
  }
}
