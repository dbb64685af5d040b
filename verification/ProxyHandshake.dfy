/** When a connection of the proxy becomes established. */
module ProxyHandshake {
  import opened Bytes
  import opened TcpPacket
  import opened ProxyProtocol
  import opened ProxyRun

  /** The segment acknowledges, and does nothing else, everything that connection `i` has sent. */
  predicate Completes(w: Proxy, s: Segment, i: nat)
    requires i < |w.conns|
  {
    && KeyOf(s) in w.table && w.table[KeyOf(s)] == i && HasFlag(s.flags, FLAG_ACK) && s.payload == []
    && !HasFlag(s.flags, FLAG_SYN) && !HasFlag(s.flags, FLAG_RST) && !HasFlag(s.flags, FLAG_FIN)
    && s.ackNum == w.conns[i].serverSeq
  }

  predicate Establishes(w: Proxy, ev: Event, i: nat) {
    i < |w.conns| && ev.Packet? && Parse(ev.bytes).Tcp? && Completes(w, Parse(ev.bytes).segment, i)
  }

  predicate Open(w: Proxy, i: nat) {
    i < |w.conns| && w.conns[i].state == Established
  }

  predicate HalfOpen(w: Proxy, i: nat) {
    i < |w.conns| && w.conns[i].state == SynReceived
  }

  /** No connection goes, and none becomes established. */
  ghost predicate StateKept(w: Proxy, w': Proxy) {
    |w.conns| <= |w'.conns| && forall j: nat :: Open(w', j) ==> Open(w, j)
  }

  lemma SynKeepsState(w: Proxy, s: Segment, hasSender: bool, o: Oracle)
    ensures StateKept(w, HandleSyn(w, s, hasSender, o))
  {
    hide Wrap32, KeyOf;
  }

  lemma FinKeepsState(w: Proxy, i: nat, seqNum: uint32, hasSender: bool, o: Oracle)
    requires i < |w.conns|
    ensures StateKept(w, HandleFin(w, i, seqNum, hasSender, o)) && StateKept(w, Strand(w, i))
  {
    hide Wrap32;
  }

  lemma DataKeepsState(w: Proxy, key: Key, payload: seq<byte>, o: Oracle)
    requires Wf(w)
    ensures StateKept(w, HandleData(w, key, payload, o))
  {
    hide Wrap32;
  }

  lemma OtherStepsKeepState(w: Proxy, w': Proxy, ev: Event, hasSender: bool)
    requires Step(w, w', ev, hasSender) && !(ev.Packet? && Parse(ev.bytes).Tcp?)
    ensures StateKept(w, w')
  {
    hide Wrap32, Parse;
  }

  lemma SegmentEstablishes(w: Proxy, s: Segment, hasSender: bool, o: Oracle, i: nat)
    requires Wf(w)
    ensures var w' := HandleSegment(w, s, hasSender, o);
            Open(w', i) && !Open(w, i) <==> HalfOpen(w, i) && Completes(w, s, i)
  {
    hide Wrap32, HasFlag, KeyOf, HandleSyn, HandleFin, HandleData;
    var key := KeyOf(s);
    if HasFlag(s.flags, FLAG_SYN) {
      SynKeepsState(w, s, hasSender, o);
    } else if key in w.table && (HasFlag(s.flags, FLAG_RST) || HasFlag(s.flags, FLAG_FIN)) {
      FinKeepsState(w, w.table[key], s.seqNum, hasSender, o);
    } else if s.payload != [] {
      DataKeepsState(w, key, s.payload, o);
    }
  }

  /** A step establishes a connection exactly when it was half open and the step is a segment that
      acknowledges all that has been sent to the client, and nothing else. */
  lemma StepEstablishes(w: Proxy, w': Proxy, ev: Event, hasSender: bool, i: nat)
    requires Step(w, w', ev, hasSender)
    ensures Open(w', i) && !Open(w, i) <==> HalfOpen(w, i) && Establishes(w, ev, i)
  {
    hide Parse, HandleSegment, Completes;
    if ev.Packet? && Parse(ev.bytes).Tcp? {
      SegmentEstablishes(w, Parse(ev.bytes).segment, hasSender, ev.o, i);
    } else {
      OtherStepsKeepState(w, w', ev, hasSender);
    }
  }

  /** So in every run an established connection has completed its handshake before. */
  lemma {:induction false} EstablishedWasCompleted(states: seq<Proxy>, events: seq<Event>, hasSender: bool, n: nat, i: nat)
    returns (j: nat)
    requires Run(states, events, hasSender) && n < |states| && Open(states[n], i)
    ensures j < n && HalfOpen(states[j], i) && Establishes(states[j], events[j], i)
    decreases n
  {
    hide Step, Establishes;
    if n > 0 {
      assert StepAt(states, events, n - 1, hasSender);
      StepEstablishes(states[n - 1], states[n], events[n - 1], hasSender, i);
      if Open(states[n - 1], i) {
        j := EstablishedWasCompleted(states, events, hasSender, n - 1, i);
      } else {
        j := n - 1;
      }
    }
  }

  /** The forwarder starts with the SYN-ACK and moves the number that is to be acknowledged.  When the server has
      sent `sent` bytes before the handshake is over, an acknowledgement of `acked` of them, of the SYN-ACK alone
      say, establishes the connection only if it is one of all of them. */
  lemma EarlyDataDelaysHandshake(w: Proxy, i: nat, acked: nat, sent: nat, seqNum: uint32)
    requires HalfOpen(w, i) && acked <= sent < acked + TWO_TO_THE_32
    requires w.conns[i].serverSeq == Wrap32(w.conns[i].serverISN + 1 + sent)
    ensures var isn := w.conns[i].serverISN;
            Open(HandleAck(w, i, Wrap32(isn + 1 + acked), seqNum), i) <==> acked == sent
  {
    DifferentWords(w.conns[i].serverISN + 1 + acked, sent - acked);
  }

  lemma DifferentWords(a: nat, k: nat)
    requires k < TWO_TO_THE_32
    ensures Wrap32(a) == Wrap32(a + k) <==> k == 0
  {
  }
}
