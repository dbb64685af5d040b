/** What the proxy forwards in either direction, over all its runs. */
module ProxyResults {
  import opened Bytes
  import opened TcpPacket
  import opened ProxyProtocol
  import opened ProxyRun

  // Client to server

  /** The packet is treated as data. */
  predicate IsData(w: Proxy, s: Segment) {
    && !HasFlag(s.flags, FLAG_SYN) && s.payload != []
    && (KeyOf(s) in w.table ==> !HasFlag(s.flags, FLAG_RST) && !HasFlag(s.flags, FLAG_FIN))
  }

  /** The payload that the step hands to the outbound side of connection `i`, whole. */
  function Accepted(w: Proxy, ev: Event, i: nat): seq<byte> {
    if ev.Packet? && Parse(ev.bytes).Tcp? && ev.o.writeOk && i < |w.conns| then
      var s := Parse(ev.bytes).segment;
      if IsData(w, s) && KeyOf(s) in w.table && w.table[KeyOf(s)] == i && w.conns[i].state == Established then s.payload
      else []
    else []
  }

  /** The payloads accepted for connection `i` in the first `n` steps, one after the other. */
  function Transcript(states: seq<Proxy>, events: seq<Event>, n: nat, i: nat): seq<byte>
    requires n <= |events| <= |states|
  {
    if n == 0 then [] else Transcript(states, events, n - 1, i) + Accepted(states[n - 1], events[n - 1], i)
  }

  /** A step adds `a` to what has been forwarded; only a call that never returns may add the beginning
      of a failed write. */
  predicate Grows(c: ConnState, c': ConnState, a: seq<byte>, lock: Lock) {
    && c'.key == c.key && c'.clientISN == c.clientISN
    && c'.bytesToServer == c.bytesToServer + |a| && c.written + a <= c'.written
    && (lock.Free? ==> c'.written == c.written + a)
  }

  predicate SameData(c: ConnState, c': ConnState) {
    && c'.key == c.key && c'.clientISN == c.clientISN && c'.bytesToServer == c.bytesToServer
    && c'.written == c.written && (c.closed ==> c'.closed)
  }

  lemma NothingAdded(c: ConnState, c': ConnState, lock: Lock)
    requires SameData(c, c')
    ensures Grows(c, c', [], lock)
  {
    assert c.written + [] == c.written;
  }

  lemma SynLeaves(w: Proxy, s: Segment, hasSender: bool, o: Oracle)
    ensures w.conns <= HandleSyn(w, s, hasSender, o).conns
    ensures |HandleSyn(w, s, hasSender, o).conns| <= |w.conns| + 1
    ensures forall i :: |w.conns| <= i < |HandleSyn(w, s, hasSender, o).conns| ==>
              var c := HandleSyn(w, s, hasSender, o).conns[i];
              c.written == [] && c.bytesToServer == c.bytesFromServer == 0
  {
  }

  lemma AckLeaves(w: Proxy, i: nat, ackNum: uint32, seqNum: uint32, j: nat)
    requires i < |w.conns| && j < |w.conns|
    ensures var w' := HandleAck(w, i, ackNum, seqNum);
            |w'.conns| == |w.conns| && SameData(w.conns[j], w'.conns[j])
  {
  }

  lemma FirstFinLeaves(w: Proxy, i: nat, seqNum: uint32, hasSender: bool, o: Oracle, j: nat)
    requires i < |w.conns| && j < |w.conns|
    ensures var w' := FirstFin(w, i, seqNum, hasSender, o);
            |w'.conns| == |w.conns| && SameData(w.conns[j], w'.conns[j])
  {
  }

  lemma FinLeaves(w: Proxy, i: nat, seqNum: uint32, hasSender: bool, o: Oracle, j: nat)
    requires i < |w.conns| && j < |w.conns|
    ensures var w' := HandleFin(w, i, seqNum, hasSender, o);
            |w'.conns| == |w.conns| && SameData(w.conns[j], w'.conns[j])
  {
    hide FirstFin;
    FirstFinLeaves(w, i, seqNum, hasSender, o, j);
  }

  lemma DataGrows(w: Proxy, key: Key, payload: seq<byte>, o: Oracle, i: nat)
    requires Good(w) && w.lock.Free? && i < |w.conns|
    ensures var w', c := HandleData(w, key, payload, o), w.conns[i];
            |w'.conns| == |w.conns|
            && Grows(c, w'.conns[i],
                     if key in w.table && w.table[key] == i && c.state == Established && o.writeOk then payload else [],
                     w'.lock)
  {
    assert EntryOk(w, i);
    var w', c := HandleData(w, key, payload, o), w.conns[i];
    if key in w.table && w.table[key] == i && c.state == Established {
      assert c.written + [] <= c.written + payload[..Min(o.partial, |payload|)];
    } else {
      NothingAdded(c, w'.conns[i], w'.lock);
    }
  }

  lemma OtherSegmentLeaves(w: Proxy, s: Segment, hasSender: bool, o: Oracle, i: nat)
    requires Good(w) && w.lock.Free? && i < |w.conns| && !IsData(w, s)
    ensures var w' := HandleSegment(w, s, hasSender, o);
            |w.conns| <= |w'.conns| && SameData(w.conns[i], w'.conns[i])
  {
    var key := KeyOf(s);
    if HasFlag(s.flags, FLAG_SYN) {
      SynLeaves(w, s, hasSender, o);
    } else if key in w.table && HasFlag(s.flags, FLAG_RST) {
      StrandLeaves(w, w.table[key], i);
    } else if key in w.table && HasFlag(s.flags, FLAG_FIN) {
      FinLeaves(w, w.table[key], s.seqNum, hasSender, o, i);
    } else if key in w.table && HasFlag(s.flags, FLAG_ACK) {
      AckLeaves(w, w.table[key], s.ackNum, s.seqNum, i);
    }
  }

  lemma StrandLeaves(w: Proxy, i: nat, j: nat)
    requires i < |w.conns| && j < |w.conns|
    ensures |Strand(w, i).conns| == |w.conns| && SameData(w.conns[j], Strand(w, i).conns[j])
  {
  }

  lemma StepGrows(w: Proxy, w': Proxy, ev: Event, hasSender: bool, i: nat)
    requires Good(w) && Step(w, w', ev, hasSender) && i < |w.conns|
    ensures |w.conns| <= |w'.conns| && Grows(w.conns[i], w'.conns[i], Accepted(w, ev, i), w'.lock)
  {
    hide Good;
    if ev.Packet? && Parse(ev.bytes).Tcp? {
      var s := Parse(ev.bytes).segment;
      if IsData(w, s) {
        DataGrows(w, KeyOf(s), s.payload, ev.o, i);
      } else {
        OtherSegmentLeaves(w, s, hasSender, ev.o, i);
        NothingAdded(w.conns[i], w'.conns[i], w'.lock);
      }
    } else {
      NothingAdded(w.conns[i], w'.conns[i], w'.lock);
    }
  }

  /** Connections are only made by a SYN, empty. */
  lemma NewIsEmpty(w: Proxy, w': Proxy, ev: Event, hasSender: bool, i: nat)
    requires Good(w) && Step(w, w', ev, hasSender) && |w.conns| <= i < |w'.conns|
    ensures i == |w.conns| && w'.conns[i].written == [] && w'.conns[i].bytesToServer == w'.conns[i].bytesFromServer == 0
    ensures Accepted(w, ev, i) == []
  {
    if ev.Packet? && Parse(ev.bytes).Tcp? {
      var s := Parse(ev.bytes).segment;
      if HasFlag(s.flags, FLAG_SYN) {
        SynLeaves(w, s, hasSender, ev.o);
      } else {
        NoNewConn(w, s, hasSender, ev.o);
      }
    }
  }

  lemma NoNewConn(w: Proxy, s: Segment, hasSender: bool, o: Oracle)
    requires Good(w) && !HasFlag(s.flags, FLAG_SYN)
    ensures |HandleSegment(w, s, hasSender, o).conns| == |w.conns|
  {
    var key := KeyOf(s);
    if key in w.table {
      FinLeaves(w, w.table[key], s.seqNum, hasSender, o, w.table[key]);
      AckLeaves(w, w.table[key], s.ackNum, s.seqNum, w.table[key]);
    }
  }

  lemma {:induction false} NotMadeYet(states: seq<Proxy>, events: seq<Event>, hasSender: bool, n: nat, i: nat)
    requires Run(states, events, hasSender) && n < |states| && |states[n].conns| <= i
    ensures Transcript(states, events, n, i) == []
    decreases n
  {
    if n > 0 {
      AlwaysGood(states, events, hasSender, n - 1);
      assert StepAt(states, events, n - 1, hasSender);
      if |states[n - 1].conns| > i {
        StepGrows(states[n - 1], states[n], events[n - 1], hasSender, i);
      }
      NotMadeYet(states, events, hasSender, n - 1, i);
    }
  }

  /** What the outbound side of a connection has been given is, byte for byte, the payloads
      accepted for it while it was established, closed or not; only a write that fails, and with
      which `SendPacket` stops for ever, leaves a few bytes more.  The counter counts exactly the
      accepted bytes. */
  lemma {:induction false} OutboundIsTranscript(states: seq<Proxy>, events: seq<Event>, hasSender: bool, n: nat, i: nat)
    requires Run(states, events, hasSender) && n < |states| && i < |states[n].conns|
    ensures var c, t := states[n].conns[i], Transcript(states, events, n, i);
            t <= c.written && (states[n].lock.Free? ==> t == c.written) && c.bytesToServer == |t|
    decreases n
  {
    hide Good, HandleSegment, Parse;
    if n > 0 {
      var w, w', ev := states[n - 1], states[n], events[n - 1];
      AlwaysGood(states, events, hasSender, n - 1);
      assert StepAt(states, events, n - 1, hasSender);
      if i < |w.conns| {
        OutboundIsTranscript(states, events, hasSender, n - 1, i);
        StepGrows(w, w', ev, hasSender, i);
      } else {
        NewIsEmpty(w, w', ev, hasSender, i);
        NotMadeYet(states, events, hasSender, n - 1, i);
      }
    }
  }

  /** In every state of every run the table holds open connections, each under its own key, and no
      outbound side is open without an entry; but for one closed connection that a call which stopped
      for ever has left in the table. */
  lemma TableInvariant(states: seq<Proxy>, events: seq<Event>, hasSender: bool, n: nat, i: nat)
    requires Run(states, events, hasSender) && n < |states| && i < |states[n].conns|
    ensures var w, c := states[n], states[n].conns[i];
            && (forall k :: k in w.table && w.table[k] == i ==> c.key == k)
            && (c.closed && i in w.table.Values <==> w.lock == Held(Some(i)))
            && (c.outboundOpen <==> i in w.table.Values && w.lock != Held(Some(i)))
  {
    AlwaysGood(states, events, hasSender, n);
    var w, c := states[n], states[n].conns[i];
    assert EntryOk(w, i);
    if i in w.table.Values {
      var k :| k in w.table && w.table[k] == i;
      assert c.key == k;
    }
    if c.key in w.table && w.table[c.key] == i {
      assert i in w.table.Values;
    }
  }

  /** In a run `SendPacket` does not return from a segment exactly in these cases: a reset of a known
      connection; a FIN for one that is not established, if its acknowledgement goes out; data for an
      established one whose outbound write fails; and a new connection whose dial or SYN-ACK fails.
      Nothing happens after such a call. */
  lemma SendPacketReturns(states: seq<Proxy>, events: seq<Event>, hasSender: bool, n: nat)
    requires Run(states, events, hasSender) && n < |events| && events[n].Packet? && Parse(events[n].bytes).Tcp?
    ensures var w, s, o := states[n], Parse(events[n].bytes).segment, events[n].o;
            var key, ok := KeyOf(s), hasSender && o.sendOk;
            Wf(w) &&
            (states[n + 1].lock.Held? <==>
               if HasFlag(s.flags, FLAG_SYN) then key !in w.table && !(o.dialOk && ok)
               else
                 && key in w.table
                 && var established := w.conns[w.table[key]].state == Established;
                    if HasFlag(s.flags, FLAG_RST) then true
                    else if HasFlag(s.flags, FLAG_FIN) then !established && ok
                    else s.payload != [] && established && !o.writeOk)
    ensures states[n + 1].lock.Held? ==> n + 1 == |events|
  {
    AlwaysGood(states, events, hasSender, n);
    assert StepAt(states, events, n, hasSender);
    var w, s := states[n], Parse(events[n].bytes).segment;
    if KeyOf(s) in w.table {
      assert ConnOk(w.conns[w.table[KeyOf(s)]]) && EntryOk(w, w.table[KeyOf(s)]);
    }
    ReturnsUnlessBlocked(w, s, hasSender, events[n].o);
    if n + 1 < |events| {
      assert StepAt(states, events, n + 1, hasSender);
    }
  }

  /** A segment and the step it is, when its addresses are IPv4. */
  lemma PacketStep(w: Proxy, s: Segment, o: Oracle)
    requires Wf(w) && w.lock.Free? && |s.srcIP| == |s.dstIP| == 4
    ensures Parse(PacketBytes(s)) == Tcp(s)
    ensures Step(w, HandleSegment(w, s, true, o), Packet(PacketBytes(s), o), true)
  {
    ParseBuilt(s);
    assert s == s.(srcIP := Addr4(s.srcIP), dstIP := Addr4(s.dstIP));
  }

  /** A run and one more step. */
  lemma RunMore(states: seq<Proxy>, events: seq<Event>, w: Proxy, ev: Event)
    requires Run(states, events, true) && Step(states[|states| - 1], w, ev, true)
    ensures Run(states + [w], events + [ev], true)
  {
    var ss, es := states + [w], events + [ev];
    forall k: nat | k < |es| ensures StepAt(ss, es, k, true) {
      if k < |events| {
        assert StepAt(states, events, k, true);
      }
    }
  }

  /** What a reset of the only connection leaves. */
  lemma StrandedOnly(syn: Segment, rst: Segment, o: Oracle)
    requires KeyOf(syn) == KeyOf(rst) && HasFlag(syn.flags, FLAG_SYN) && o.dialOk && o.sendOk
    requires HasFlag(rst.flags, FLAG_RST) && !HasFlag(rst.flags, FLAG_SYN)
    ensures var w1 := HandleSegment(Fresh, syn, true, o);
            && Wf(w1) && w1.lock.Free?
            && var w2 := HandleSegment(w1, rst, true, o);
               w2.lock == Held(Some(0)) && KeyOf(syn) in w2.table && w2.table[KeyOf(syn)] == 0
               && |w2.conns| == 1 && w2.conns[0].closed
  {
  }

  /** Any client can stop the interface: it opens a connection, with everything succeeding, and resets
      it.  The connection is then closed and still in the table, and the mutex is held. */
  lemma ResetStopsInterface(syn: Segment, rst: Segment, o: Oracle) returns (w1: Proxy, w2: Proxy)
    requires |syn.srcIP| == |syn.dstIP| == 4 && |rst.srcIP| == |rst.dstIP| == 4 && KeyOf(syn) == KeyOf(rst)
    requires HasFlag(syn.flags, FLAG_SYN) && HasFlag(rst.flags, FLAG_RST) && !HasFlag(rst.flags, FLAG_SYN)
    requires o.dialOk && o.sendOk
    ensures Run([Fresh, w1, w2], [Packet(PacketBytes(syn), o), Packet(PacketBytes(rst), o)], true)
    ensures w2.lock == Held(Some(0)) && KeyOf(syn) in w2.table && w2.table[KeyOf(syn)] == 0
    ensures |w2.conns| == 1 && w2.conns[0].closed
  {
    hide PacketBytes, HandleSegment;
    StrandedOnly(syn, rst, o);
    w1 := HandleSegment(Fresh, syn, true, o);
    w2 := HandleSegment(w1, rst, true, o);
    PacketStep(Fresh, syn, o);
    PacketStep(w1, rst, o);
    RunMore([Fresh], [], w1, Packet(PacketBytes(syn), o));
    RunMore([Fresh, w1], [Packet(PacketBytes(syn), o)], w2, Packet(PacketBytes(rst), o));
  }

  /** The connection is in a state of a passive open or close, and until the client's FIN its
      expected sequence number and its counters tell exactly that `t` has been forwarded. */
  predicate TellsExactly(c: ConnState, t: seq<byte>) {
    && (c.state == SynReceived || c.state == Established || c.state == CloseWait || c.state == Closed)
    && c.bytesFromClient == c.bytesToServer == |t|
    && (c.state == SynReceived ==> t == [])
    && (c.state == SynReceived || c.state == Established ==> c.clientSeq == Wrap32(c.clientISN + 1 + |t|))
  }

  lemma OkTellsExactly(c: ConnState, t: seq<byte>)
    requires ConnOk(c) && c.bytesToServer == |t|
    ensures TellsExactly(c, t)
  {
  }

  lemma ConnectionInvariant(states: seq<Proxy>, events: seq<Event>, hasSender: bool, n: nat, i: nat)
    requires Run(states, events, hasSender) && n < |states| && i < |states[n].conns|
    ensures TellsExactly(states[n].conns[i], Transcript(states, events, n, i))
  {
    AlwaysGood(states, events, hasSender, n);
    OutboundIsTranscript(states, events, hasSender, n, i);
    OkTellsExactly(states[n].conns[i], Transcript(states, events, n, i));
  }

  // Where payloads land

  /** The place in the client's stream that `seqNum` names: of all places that have this 32-bit number,
      the one nearest to what has been forwarded. */
  function Offset(c: ConnState, seqNum: uint32): int {
    var d := Wrap32(seqNum - c.clientSeq);
    |c.written| + (if d < 0x8000_0000 then d else d - TWO_TO_THE_32)
  }

  lemma OffsetIsNamed(c: ConnState, seqNum: uint32)
    requires c.clientSeq == Wrap32(c.clientISN + 1 + |c.written|)
    ensures seqNum == Wrap32(c.clientISN + 1 + Offset(c, seqNum))
    ensures Offset(c, seqNum) == |c.written| <==> seqNum == c.clientSeq
  {
    var d: int, next: int := Wrap32(seqNum - c.clientSeq), c.clientSeq;
    WrapTwice(seqNum - next, next);
    WrapTwice(c.clientISN + 1 + |c.written|, d);
    WrapPeriod(c.clientISN + 1 + |c.written| + d, -1);
  }

  /** `handleData` does not look at the sequence number: an accepted payload lands behind what has been
      forwarded, and so at the place that its number names exactly when that is the expected number. */
  lemma PayloadLands(w: Proxy, s: Segment, hasSender: bool, o: Oracle)
    requires Good(w) && w.lock.Free? && IsData(w, s) && o.writeOk
    requires KeyOf(s) in w.table && w.conns[w.table[KeyOf(s)]].state == Established
    ensures var i, w' := w.table[KeyOf(s)], HandleSegment(w, s, hasSender, o);
            && i < |w'.conns|
            && var c, c' := w.conns[i], w'.conns[i];
               && c'.written == c.written + s.payload
               && s.seqNum == Wrap32(c.clientISN + 1 + Offset(c, s.seqNum))
               && (|c.written| == Offset(c, s.seqNum) <==> s.seqNum == c.clientSeq)
  {
    var c := w.conns[w.table[KeyOf(s)]];
    assert ConnOk(c) && EntryOk(w, w.table[KeyOf(s)]);
    OffsetIsNamed(c, s.seqNum);
  }

  /** A payload accepted for connection `i` is what the client's stream has where its number says. */
  predicate FromStream(w: Proxy, ev: Event, i: nat, stream: seq<byte>) {
    Accepted(w, ev, i) != [] ==>
      var at := Offset(w.conns[i], Parse(ev.bytes).segment.seqNum);
      0 <= at && at + |Accepted(w, ev, i)| <= |stream| && Accepted(w, ev, i) == stream[at..at + |Accepted(w, ev, i)|]
  }

  /** ... and its number is the expected one. */
  predicate Expected(w: Proxy, ev: Event, i: nat) {
    Accepted(w, ev, i) != [] ==> Parse(ev.bytes).segment.seqNum == w.conns[i].clientSeq
  }

  /** Both hold of the first `n` steps. */
  predicate InOrder(states: seq<Proxy>, events: seq<Event>, n: nat, i: nat, stream: seq<byte>)
    requires n <= |events| <= |states|
  {
    n == 0 || (InOrder(states, events, n - 1, i, stream)
               && FromStream(states[n - 1], events[n - 1], i, stream) && Expected(states[n - 1], events[n - 1], i))
  }

  /** If every payload accepted carries the bytes that its number names, and comes when that number is
      expected, then the outbound side is given a prefix of the client's stream. */
  lemma {:induction false} StreamInOrder(states: seq<Proxy>, events: seq<Event>, hasSender: bool, n: nat, i: nat,
                                         stream: seq<byte>)
    requires Run(states, events, hasSender) && n < |states| && InOrder(states, events, n, i, stream)
    ensures Transcript(states, events, n, i) <= stream
    decreases n
  {
    if n > 0 {
      hide Accepted, StepAt, FromStream, Expected, Offset;
      StreamInOrder(states, events, hasSender, n - 1, i, stream);
      if Accepted(states[n - 1], events[n - 1], i) != [] {
        AcceptedByConn(states, events, hasSender, n - 1, i);
      }
      StepInOrder(states[n - 1], events[n - 1], i, Transcript(states, events, n - 1, i), stream);
    }
  }

  lemma StepInOrder(w: Proxy, ev: Event, i: nat, t: seq<byte>, stream: seq<byte>)
    requires FromStream(w, ev, i, stream) && Expected(w, ev, i) && t <= stream
    requires Accepted(w, ev, i) != [] ==> i < |w.conns| && Offset(w.conns[i], w.conns[i].clientSeq) == |t|
    ensures t + Accepted(w, ev, i) <= stream
  {
    hide Accepted, Offset;
    if Accepted(w, ev, i) != [] {
      LandsInStream(t, Accepted(w, ev, i), stream);
    } else {
      AppendNothing(t);
    }
  }

  lemma LandsInStream(t: seq<byte>, a: seq<byte>, stream: seq<byte>)
    requires t <= stream && |t| + |a| <= |stream| && a == stream[|t|..|t| + |a|]
    ensures t + a <= stream
  {
    assert stream[..|t|] == t;
    assert stream[..|t| + |a|] == t + a;
  }

  /** A payload is only accepted for an established connection, which has been given the transcript. */
  lemma AcceptedByConn(states: seq<Proxy>, events: seq<Event>, hasSender: bool, j: nat, i: nat)
    requires Run(states, events, hasSender) && j < |events| && Accepted(states[j], events[j], i) != []
    ensures i < |states[j].conns| && states[j].conns[i].written == Transcript(states, events, j, i)
    ensures Offset(states[j].conns[i], states[j].conns[i].clientSeq) == |Transcript(states, events, j, i)|
  {
    hide Parse, HandleSegment, Transcript, KeyOf, HasFlag, Registered;
    AlwaysGood(states, events, hasSender, j);
    OutboundIsTranscript(states, events, hasSender, j, i);
    assert StepAt(states, events, j, hasSender);
  }

  /** A segment that the client sends twice is therefore forwarded twice. */
  lemma RetransmissionForwardedTwice(w: Proxy, s: Segment, hasSender: bool, o: Oracle)
    requires Good(w) && w.lock.Free? && IsData(w, s) && o.writeOk
    requires KeyOf(s) in w.table && w.conns[w.table[KeyOf(s)]].state == Established
    ensures var i, w1 := w.table[KeyOf(s)], HandleSegment(w, s, hasSender, o);
            && Wf(w1) && i < |HandleSegment(w1, s, hasSender, o).conns|
            && HandleSegment(w1, s, hasSender, o).conns[i].written == w.conns[i].written + s.payload + s.payload
  {
    assert EntryOk(w, w.table[KeyOf(s)]);
  }

  // Server to client

  /** The payloads of the packets for connection `i`, one after the other. */
  function PayloadTo(out: seq<(nat, Segment)>, i: nat): seq<byte> {
    if out == [] then []
    else
      var last := out[|out| - 1];
      PayloadTo(out[..|out| - 1], i) + (if last.0 == i then last.1.payload else [])
  }

  /** What the forwarder of connection `i` has read from its outbound side. */
  function ReadFromServer(events: seq<Event>, n: nat, i: nat): seq<byte>
    requires n <= |events|
  {
    if n == 0 then []
    else
      var ev := events[n - 1];
      ReadFromServer(events, n - 1, i) + (if ev.Forwarded? && ev.i == i then ev.data else [])
  }

  /** At most one packet without payload has been handed over. */
  predicate OneBareMore(out: seq<(nat, Segment)>, out': seq<(nat, Segment)>) {
    out' == out || (|out'| == |out| + 1 && out <= out' && out'[|out|].1.payload == [])
  }

  lemma BareAddsNothing(out: seq<(nat, Segment)>, out': seq<(nat, Segment)>, i: nat)
    requires OneBareMore(out, out')
    ensures PayloadTo(out', i) == PayloadTo(out, i)
  {
    if out' != out {
      assert out'[..|out|] == out;
    }
  }

  predicate SameReceived(w: Proxy, w': Proxy) {
    && OneBareMore(w.out, w'.out) && |w.conns| <= |w'.conns|
    && (forall i :: 0 <= i < |w.conns| ==> w'.conns[i].bytesFromServer == w.conns[i].bytesFromServer)
  }

  lemma SegmentSendsBare(w: Proxy, s: Segment, hasSender: bool, o: Oracle)
    requires Good(w)
    ensures SameReceived(w, HandleSegment(w, s, hasSender, o))
  {
    var key := KeyOf(s);
    if HasFlag(s.flags, FLAG_SYN) {
      SynSendsBare(w, s, hasSender, o);
    } else if key in w.table && HasFlag(s.flags, FLAG_RST) {
      StrandSendsBare(w, w.table[key]);
    } else if key in w.table && HasFlag(s.flags, FLAG_FIN) {
      FinSendsBare(w, w.table[key], s.seqNum, hasSender, o);
    } else if s.payload != [] {
      DataSendsBare(w, key, s.payload, o);
    } else if key in w.table && HasFlag(s.flags, FLAG_ACK) {
      AckSendsBare(w, w.table[key], s.ackNum, s.seqNum);
    }
  }

  lemma StrandSendsBare(w: Proxy, i: nat)
    requires i < |w.conns|
    ensures SameReceived(w, Strand(w, i))
  {
  }

  lemma DataSendsBare(w: Proxy, key: Key, payload: seq<byte>, o: Oracle)
    requires Wf(w)
    ensures SameReceived(w, HandleData(w, key, payload, o))
  {
  }

  lemma AckSendsBare(w: Proxy, i: nat, ackNum: uint32, seqNum: uint32)
    requires i < |w.conns|
    ensures SameReceived(w, HandleAck(w, i, ackNum, seqNum))
  {
  }

  lemma SynSendsBare(w: Proxy, s: Segment, hasSender: bool, o: Oracle)
    ensures SameReceived(w, HandleSyn(w, s, hasSender, o))
  {
  }

  lemma FinSendsBare(w: Proxy, i: nat, seqNum: uint32, hasSender: bool, o: Oracle)
    requires i < |w.conns|
    ensures SameReceived(w, HandleFin(w, i, seqNum, hasSender, o))
  {
  }

  lemma ReadReceives(w: Proxy, k: nat, data: seq<byte>, i: nat)
    requires k < |w.conns|
    ensures var w', d := Forward(w, k, data, true), if k == i then data else [];
            && PayloadTo(w'.out, i) == PayloadTo(w.out, i) + d && |w.conns| == |w'.conns|
            && (i < |w.conns| ==> w'.conns[i].bytesFromServer == w.conns[i].bytesFromServer + |d|)
            && (|w.conns| <= i ==> d == [])
  {
    var w' := Forward(w, k, data, true);
    assert w'.out[..|w.out|] == w.out;
  }

  lemma TimerSendsBare(w: Proxy, i: nat, o: Oracle)
    requires i < |w.conns|
    ensures SameReceived(w, FinTimer(w, i, true, o))
  {
  }

  lemma EndSendsBare(w: Proxy, i: nat)
    requires i < |w.conns|
    ensures SameReceived(w, ForwardEnds(w, i)) && SameReceived(w, CloseAll(w))
  {
  }

  lemma OtherStepReceives(w: Proxy, w': Proxy, ev: Event)
    requires Good(w) && Step(w, w', ev, true) && !ev.Forwarded?
    ensures SameReceived(w, w')
  {
    match ev
    case Packet(bytes, o) =>
      if Parse(bytes).Tcp? {
        SegmentSendsBare(w, Parse(bytes).segment, true, o);
      }
    case TimerFires(k, o) => TimerSendsBare(w, k, o);
    case ForwarderEnds(k, _) => EndSendsBare(w, k);
    case Shutdown =>
  }

  lemma StepReceives(w: Proxy, w': Proxy, ev: Event, i: nat)
    requires Good(w) && Step(w, w', ev, true)
    ensures var d := if ev.Forwarded? && ev.i == i then ev.data else [];
            && PayloadTo(w'.out, i) == PayloadTo(w.out, i) + d && |w.conns| <= |w'.conns|
            && (i < |w.conns| ==> w'.conns[i].bytesFromServer == w.conns[i].bytesFromServer + |d|)
            && (|w.conns| <= i ==> d == [])
  {
    if ev.Forwarded? {
      ReadReceives(w, ev.i, ev.data, i);
    } else {
      OtherStepReceives(w, w', ev);
      BareAddsNothing(w.out, w'.out, i);
      AppendNothing(PayloadTo(w.out, i));
    }
  }

  /** So far `r` has been read for connection `i`, forwarded, and counted. */
  predicate Relayed(w: Proxy, i: nat, r: seq<byte>) {
    && PayloadTo(w.out, i) == r
    && (if i < |w.conns| then w.conns[i].bytesFromServer == |r| else r == [])
  }

  lemma StepRelays(w: Proxy, w': Proxy, ev: Event, i: nat, r: seq<byte>)
    requires Good(w) && Step(w, w', ev, true) && Relayed(w, i, r)
    ensures Relayed(w', i, r + (if ev.Forwarded? && ev.i == i then ev.data else []))
  {
    StepReceives(w, w', ev, i);
    if |w.conns| <= i < |w'.conns| {
      NewIsEmpty(w, w', ev, true, i);
    }
  }

  /** What the server's connection has given the forwarder of connection `i`, bytes that came with the
      error that ended it included. */
  function GivenByServer(events: seq<Event>, n: nat, i: nat): seq<byte>
    requires n <= |events|
  {
    if n == 0 then []
    else
      var ev := events[n - 1];
      GivenByServer(events, n - 1, i)
      + (if ev.Forwarded? && ev.i == i then ev.data else if ev.ForwarderEnds? && ev.i == i then ev.last else [])
  }

  /** The forwarder of connection `i` has ended with bytes that it did not look at. */
  predicate LastPieceDropped(events: seq<Event>, n: nat, i: nat)
    requires n <= |events|
  {
    n > 0 && (LastPieceDropped(events, n - 1, i)
              || (events[n - 1].ForwarderEnds? && events[n - 1].i == i && events[n - 1].last != []))
  }

  lemma {:induction false} DropsOnlyLast(events: seq<Event>, n: nat, i: nat)
    requires n <= |events|
    ensures |ReadFromServer(events, n, i)| <= |GivenByServer(events, n, i)|
    ensures LastPieceDropped(events, n, i) <==> |ReadFromServer(events, n, i)| < |GivenByServer(events, n, i)|
    ensures !LastPieceDropped(events, n, i) ==> ReadFromServer(events, n, i) == GivenByServer(events, n, i)
    decreases n
  {
    if n > 0 {
      DropsOnlyLast(events, n - 1, i);
    }
  }

  /** With a sender in place, everything that a forwarder reads without an error is put into packets for
      its client, in order and once, and counted.  That is all the server's connection gave exactly
      if no bytes came with the error that ended the forwarder. */
  lemma EverythingReadIsForwarded(states: seq<Proxy>, events: seq<Event>, n: nat, i: nat)
    requires Run(states, events, true) && n < |states|
    ensures Relayed(states[n], i, ReadFromServer(events, n, i))
    ensures PayloadTo(states[n].out, i) == GivenByServer(events, n, i) <==> !LastPieceDropped(events, n, i)
  {
    ReadIsForwarded(states, events, n, i);
    DropsOnlyLast(events, n, i);
  }

  lemma NothingRelayed(i: nat)
    ensures Relayed(Fresh, i, [])
  {
  }

  lemma {:induction false} ReadIsForwarded(states: seq<Proxy>, events: seq<Event>, n: nat, i: nat)
    requires Run(states, events, true) && n < |states|
    ensures Relayed(states[n], i, ReadFromServer(events, n, i))
    decreases n
  {
    hide Relayed, Good, Step;
    if n == 0 {
      NothingRelayed(i);
    } else {
      ReadIsForwarded(states, events, n - 1, i);
      AlwaysGood(states, events, true, n - 1);
      assert StepAt(states, events, n - 1, true);
      StepRelays(states[n - 1], states[n], events[n - 1], i, ReadFromServer(events, n - 1, i));
    }
  }

  /** One read fills one packet.  The client's side can accept it exactly when the read was not
      longer than what the 16-bit length field leaves room for; the buffer would allow 65536. */
  lemma ForwardedPacketAccepted(w: Proxy, i: nat, data: seq<byte>)
    requires i < |w.conns| && 0 < |data| <= 65536
    ensures var out := Forward(w, i, data, true).out;
            |out| == |w.out| + 1 && (TcpPacket.Accepted(PacketBytes(out[|w.out|].1)) <==> |data| <= 65495)
  {
    var c := w.conns[i];
    BuiltIsAccepted(ToClient(c, data, c.serverSeq, c.clientAck, FLAG_ACK + FLAG_PSH));
  }

  // After the client's FIN

  /** The proxy's own FIN goes out 100 ms later, whatever has become of the connection: its forwarder
      may have ended and closed it in the meantime, and the timer looks at the state alone. */
  lemma FinForClosedConnection(w: Proxy, i: nat, seqNum: uint32, o: Oracle)
    requires Good(w) && w.lock.Free? && i < |w.conns| && Registered(w, i) && w.conns[i].state == Established && o.sendOk
    ensures var closed := ForwardEnds(HandleFin(w, i, seqNum, true, o), i);
            && closed.conns[i].closed && !Registered(closed, i) && closed.conns[i].finTimer
            && var out := FinTimer(closed, i, true, o).out;
               |out| == |closed.out| + 1 && out[|closed.out|].0 == i && HasFlag(out[|closed.out|].1.flags, FLAG_FIN)
  {
    assert EntryOk(w, i);
  }
}
