/** All runs of the proxy interface: packets from the TUN device, dials, sends and writes that
    succeed or fail, forwarders, timers and a shutdown, in any order.  Every step takes the mutex, so a
    call that never returns is the last step of its run. */
module ProxyRun {
  import opened Bytes
  import opened TcpPacket
  import opened ProxyProtocol

  /** `last` is what the server's connection returned together with the error that ends a forwarder. */
  datatype Event =
    | Packet(bytes: seq<byte>, o: Oracle)
    | Forwarded(i: nat, data: seq<byte>)
    | ForwarderEnds(i: nat, last: seq<byte>)
    | TimerFires(i: nat, o: Oracle)
    | Shutdown

  /** A packet that does not parse as TCP changes no connection. */
  predicate Step(w: Proxy, w': Proxy, ev: Event, hasSender: bool) {
    Wf(w) && w.lock.Free? &&
    match ev
    case Packet(bytes, o) =>
      w' == (match Parse(bytes) case Tcp(s) => HandleSegment(w, s, hasSender, o) case _ => w)
    case Forwarded(i, data) =>
      i < |w.conns| && w.conns[i].forwarding && 0 < |data| <= 65536 && w' == Forward(w, i, data, hasSender)
    case ForwarderEnds(i, _) =>
      i < |w.conns| && w.conns[i].forwarding && w' == ForwardEnds(w, i)
    case TimerFires(i, o) =>
      i < |w.conns| && w.conns[i].finTimer && w' == FinTimer(w, i, hasSender, o)
    case Shutdown => w' == CloseAll(w)
  }

  const Fresh := Proxy([], map[], [], Free)

  /** Step `k` of a run. */
  predicate StepAt(states: seq<Proxy>, events: seq<Event>, k: nat, hasSender: bool)
    requires k < |events| && |states| == |events| + 1
  {
    Step(states[k], states[k + 1], events[k], hasSender)
  }

  predicate Run(states: seq<Proxy>, events: seq<Event>, hasSender: bool) {
    && |states| == |events| + 1 && states[0] == Fresh
    && forall k :: 0 <= k < |events| ==> StepAt(states, events, k, hasSender)
  }

  // The invariant

  /** One connection by itself. */
  predicate ConnOk(c: ConnState) {
    && (c.state == SynReceived || c.state == Established || c.state == CloseWait || c.state == Closed)
    && c.bytesFromClient == c.bytesToServer
    && c.bytesToServer <= |c.written|
    && (c.state == SynReceived ==> c.bytesToServer == 0)
    && (c.state == SynReceived || c.state == Established ==> c.clientSeq == Wrap32(c.clientISN + 1 + c.bytesToServer))
    && c.serverAck == Wrap32(c.clientISN + 1)
    && (c.finTimer ==> c.state == CloseWait || c.state == Closed)
  }

  /** A connection and the table: it is registered under its own key exactly while its outbound
      side is open; a forwarder that still runs for one that is not closed runs for a registered one.
      The exception is the connection that a call stranded when it stopped for ever. */
  predicate EntryOk(w: Proxy, i: nat)
    requires i < |w.conns|
  {
    var c := w.conns[i];
    && (w.lock.Free? ==> |c.written| == c.bytesToServer && c.state != Closed)
    && if w.lock == Held(Some(i)) then Registered(w, i) && c.closed && !c.outboundOpen
       else
         && (c.outboundOpen <==> Registered(w, i))
         && (Registered(w, i) ==> !c.closed && c.forwarding)
         && (c.forwarding && !c.closed ==> Registered(w, i))
  }

  predicate KeysOk(w: Proxy) {
    forall k :: k in w.table ==> w.table[k] < |w.conns| && w.conns[w.table[k]].key == k
  }

  predicate Good(w: Proxy) {
    && KeysOk(w)
    && (forall i :: 0 <= i < |w.conns| ==> ConnOk(w.conns[i]) && EntryOk(w, i))
  }

  /** Connection `i` changes, the table does not. */
  lemma SetKeepsGood(w: Proxy, i: nat, c: ConnState)
    requires Good(w) && i < |w.conns| && ConnOk(c) && c.key == w.conns[i].key
    requires c.outboundOpen == w.conns[i].outboundOpen && c.closed == w.conns[i].closed
    requires c.forwarding == w.conns[i].forwarding || c.closed
    requires w.lock.Free? && |c.written| == c.bytesToServer && c.state != Closed
    ensures Good(SetConn(w, i, c))
  {
    forall j | 0 <= j < |w.conns| ensures ConnOk(SetConn(w, i, c).conns[j]) && EntryOk(SetConn(w, i, c), j) {
      assert EntryOk(w, j) && ConnOk(w.conns[j]);
    }
  }

  lemma EmitKeepsGood(w: Proxy, i: nat, s: Segment)
    requires Good(w)
    ensures Good(Emit(w, i, s))
  {
    forall j | 0 <= j < |w.conns| ensures ConnOk(Emit(w, i, s).conns[j]) && EntryOk(Emit(w, i, s), j) {
      assert EntryOk(w, j) && ConnOk(w.conns[j]);
    }
  }

  /** Dropping a registered connection takes out its entry and no other. */
  lemma DropKeepsGood(w: Proxy, i: nat, c: ConnState, state: TcpState)
    requires Good(w) && i < |w.conns| && Registered(w, i) && c.key == w.conns[i].key
    requires ConnOk(c.(state := state, closed := true)) && w.lock.Free?
    requires |c.written| == c.bytesToServer && state != Closed
    ensures var w' := Drop(SetConn(w, i, c), i, state);
            Good(w') && forall k :: k in w.table && w.table[k] != i ==> k in w'.table && w'.table[k] == w.table[k]
  {
    hide Wrap32;
    var w' := Drop(SetConn(w, i, c), i, state);
    forall j | 0 <= j < |w.conns| ensures ConnOk(w'.conns[j]) && EntryOk(w', j) {
      assert EntryOk(w, j) && ConnOk(w.conns[j]);
    }
  }

  /** A call that closes connection `i` and then stops for ever strands it. */
  lemma StrandKeepsGood(w: Proxy, i: nat)
    requires Good(w) && w.lock.Free? && i < |w.conns| && Registered(w, i)
    ensures Good(Strand(w, i))
  {
    var w' := Strand(w, i);
    forall j | 0 <= j < |w.conns| ensures ConnOk(w'.conns[j]) && EntryOk(w', j) {
      assert EntryOk(w, j) && ConnOk(w.conns[j]);
    }
  }

  // Every step keeps it

  /** One more connection, registered or not, and a lock that is free or will never be. */
  lemma AppendKeepsGood(w: Proxy, w': Proxy, c: ConnState)
    requires Good(w) && w.lock.Free? && ConnOk(c) && c.written == [] && c.bytesToServer == 0
    requires c.state != Closed && !c.closed
    requires w'.conns == w.conns + [c] && c.key !in w.table
    requires if w'.lock.Free? then w'.table == w.table[c.key := |w.conns|] && c.forwarding && c.outboundOpen
             else w'.lock == Held(None) && w'.table == w.table && !c.forwarding && !c.outboundOpen
    ensures Good(w')
  {
    hide ConnOk;
    forall j | 0 <= j < |w'.conns| ensures ConnOk(w'.conns[j]) && EntryOk(w', j) {
      if j < |w.conns| {
        assert EntryOk(w, j) && ConnOk(w.conns[j]);
      }
    }
  }

  /** A call may stop in front of a table that is in order. */
  lemma HoldKeepsGood(w: Proxy)
    requires Good(w) && w.lock.Free?
    ensures Good(w.(lock := Held(None)))
  {
    var w' := w.(lock := Held(None));
    forall j | 0 <= j < |w.conns| ensures ConnOk(w'.conns[j]) && EntryOk(w', j) {
      assert EntryOk(w, j) && ConnOk(w.conns[j]);
    }
  }

  lemma SynKeepsGood(w: Proxy, s: Segment, hasSender: bool, o: Oracle)
    requires Good(w) && w.lock.Free?
    ensures Good(HandleSyn(w, s, hasSender, o))
  {
    hide Good, KeyOf;
    if KeyOf(s) !in w.table {
      if o.dialOk {
        var w' := HandleSyn(w, s, hasSender, o);
        AppendKeepsGood(w, w', w'.conns[|w.conns|]);
      } else {
        HoldKeepsGood(w);
      }
    }
  }

  lemma SendBareKeepsGood(w: Proxy, i: nat, seqNum: uint32, ackNum: uint32, flags: byte, hasSender: bool, o: Oracle)
    requires Good(w) && w.lock.Free? && i < |w.conns|
    ensures var w' := SendBare(w, i, seqNum, ackNum, flags, hasSender, o);
            && Good(w') && w'.table == w.table && w'.lock == w.lock && |w'.conns| == |w.conns|
            && w'.conns[i] == w.conns[i].(bytesToClient := w'.conns[i].bytesToClient)
  {
    if hasSender {
      var c := w.conns[i];
      assert ConnOk(c) && EntryOk(w, i);
      EmitKeepsGood(w, i, ToClient(c, [], seqNum, ackNum, flags));
      SetKeepsGood(Emit(w, i, ToClient(c, [], seqNum, ackNum, flags)), i, c.(bytesToClient := c.bytesToClient + BARE));
    }
  }

  lemma AckKeepsGood(w: Proxy, i: nat, ackNum: uint32, seqNum: uint32)
    requires Good(w) && w.lock.Free? && i < |w.conns|
    ensures Good(HandleAck(w, i, ackNum, seqNum))
  {
    var c := w.conns[i];
    assert ConnOk(c) && EntryOk(w, i);
    if c.state == SynReceived {
      SetKeepsGood(w, i, c.(state := Established, bytesFromClient := 0, bytesToClient := 0));
    } else if c.state == Established {
      SetKeepsGood(w, i, c.(serverSeq := if ackNum > c.serverSeq then ackNum else c.serverSeq,
                            clientAck := if seqNum > 0 then Wrap32(seqNum + 1) else c.clientAck));
    }
  }

  lemma FinKeepsGood(w: Proxy, i: nat, seqNum: uint32, hasSender: bool, o: Oracle)
    requires Good(w) && w.lock.Free? && i < |w.conns| && Registered(w, i)
    ensures Good(HandleFin(w, i, seqNum, hasSender, o))
  {
    hide Wrap32;
    var c, ok := w.conns[i], hasSender && o.sendOk;
    assert ConnOk(c) && EntryOk(w, i);
    if c.state == Established {
      var next := Wrap32(seqNum + 1);
      var c' := c.(state := CloseWait, clientSeq := next);
      SetKeepsGood(w, i, c');
      SendBareKeepsGood(SetConn(w, i, c'), i, next, c.serverSeq, FLAG_ACK, hasSender, o);
      if ok {
        var sent := SendBare(SetConn(w, i, c'), i, next, c.serverSeq, FLAG_ACK, hasSender, o);
        SetKeepsGood(sent, i, sent.conns[i].(finTimer := true));
      }
    } else {
      SendBareKeepsGood(w, i, Wrap32(seqNum + 1), c.serverSeq, FLAG_ACK, hasSender, o);
      if ok {
        StrandKeepsGood(SendBare(w, i, Wrap32(seqNum + 1), c.serverSeq, FLAG_ACK, hasSender, o), i);
      }
    }
  }

  lemma DataKeepsGood(w: Proxy, key: Key, payload: seq<byte>, o: Oracle)
    requires Good(w) && w.lock.Free?
    ensures Good(HandleData(w, key, payload, o))
  {
    hide Wrap32;
    if key in w.table && w.conns[w.table[key]].state == Established {
      var i := w.table[key];
      var c := w.conns[i];
      assert ConnOk(c) && EntryOk(w, i);
      if o.writeOk {
        WrapTwice(c.clientISN + 1 + c.bytesToServer, |payload|);
        SetKeepsGood(w, i, c.(written := c.written + payload, clientSeq := Wrap32(c.clientSeq + |payload|),
                              bytesFromClient := c.bytesFromClient + |payload|,
                              bytesToServer := c.bytesToServer + |payload|));
      } else {
        PartKeepsGood(w, i, c.written + payload[..Min(o.partial, |payload|)]);
      }
    }
  }

  /** A call that has given the outbound side of connection `i` a part and stops for ever. */
  lemma PartKeepsGood(w: Proxy, i: nat, written: seq<byte>)
    requires Good(w) && w.lock.Free? && i < |w.conns| && |w.conns[i].written| <= |written|
    ensures Good(SetConn(w, i, w.conns[i].(written := written)).(lock := Held(None)))
  {
    var w' := SetConn(w, i, w.conns[i].(written := written)).(lock := Held(None));
    forall j | 0 <= j < |w.conns| ensures ConnOk(w'.conns[j]) && EntryOk(w', j) {
      assert EntryOk(w, j) && ConnOk(w.conns[j]);
    }
  }

  lemma SegmentKeepsGood(w: Proxy, s: Segment, hasSender: bool, o: Oracle)
    requires Good(w) && w.lock.Free?
    ensures Good(HandleSegment(w, s, hasSender, o))
  {
    var key := KeyOf(s);
    if HasFlag(s.flags, FLAG_SYN) {
      SynKeepsGood(w, s, hasSender, o);
    } else if HasFlag(s.flags, FLAG_RST) && key in w.table {
      StrandKeepsGood(w, w.table[key]);
    } else if HasFlag(s.flags, FLAG_FIN) && key in w.table {
      FinKeepsGood(w, w.table[key], s.seqNum, hasSender, o);
    } else if s.payload != [] {
      DataKeepsGood(w, key, s.payload, o);
    } else if HasFlag(s.flags, FLAG_ACK) && key in w.table {
      AckKeepsGood(w, w.table[key], s.ackNum, s.seqNum);
    }
  }

  lemma ForwardKeepsGood(w: Proxy, i: nat, data: seq<byte>, hasSender: bool)
    requires Good(w) && w.lock.Free? && i < |w.conns|
    ensures Good(Forward(w, i, data, hasSender))
  {
    hide SetConn;
    if hasSender {
      var c := w.conns[i];
      assert ConnOk(c) && EntryOk(w, i);
      var s := ToClient(c, data, c.serverSeq, c.clientAck, FLAG_ACK + FLAG_PSH);
      EmitKeepsGood(w, i, s);
      SetKeepsGood(Emit(w, i, s), i,
                   c.(serverSeq := Wrap32(c.serverSeq + |data|), bytesToClient := c.bytesToClient + |data|,
                      bytesFromServer := c.bytesFromServer + |data|));
    }
  }

  /** A forwarder that ends takes out the entry of its own connection and no other, although a
      newer connection may be registered under the same key. */
  lemma ForwarderEndsSafely(w: Proxy, i: nat)
    requires Good(w) && w.lock.Free? && i < |w.conns| && w.conns[i].forwarding
    ensures var w' := ForwardEnds(w, i);
            && Good(w') && i !in w'.table.Values
            && (forall k :: k in w.table && w.table[k] != i ==> k in w'.table && w'.table[k] == w.table[k])
  {
    var c := w.conns[i];
    assert ConnOk(c) && EntryOk(w, i);
    if c.closed {
      SetKeepsGood(w, i, c.(forwarding := false));
    } else {
      DropKeepsGood(w, i, c.(forwarding := false), c.state);
    }
  }

  lemma SendFinKeepsGood(w: Proxy, i: nat, hasSender: bool, o: Oracle)
    requires Good(w) && w.lock.Free? && i < |w.conns|
    ensures Good(SendFin(w, i, hasSender, o))
  {
    var c := w.conns[i];
    assert ConnOk(c) && EntryOk(w, i);
    SendBareKeepsGood(w, i, c.serverSeq, c.clientAck, FLAG_FIN + FLAG_ACK, hasSender, o);
    var sent := SendBare(w, i, c.serverSeq, c.clientAck, FLAG_FIN + FLAG_ACK, hasSender, o);
    SetKeepsGood(sent, i, sent.conns[i].(serverSeq := Wrap32(c.serverSeq + 1)));
  }

  lemma TimerKeepsGood(w: Proxy, i: nat, hasSender: bool, o: Oracle)
    requires Good(w) && w.lock.Free? && i < |w.conns|
    ensures Good(FinTimer(w, i, hasSender, o))
  {
    var c := w.conns[i].(finTimer := false);
    assert ConnOk(w.conns[i]) && EntryOk(w, i);
    SetKeepsGood(w, i, c);
    if c.state == CloseWait {
      SendFinKeepsGood(SetConn(w, i, c), i, hasSender, o);
    }
  }

  lemma CloseAllKeepsGood(w: Proxy)
    requires Good(w) && w.lock.Free?
    ensures Good(CloseAll(w)) && forall c :: c in CloseAll(w).conns ==> !c.outboundOpen
  {
    forall j | 0 <= j < |w.conns| ensures ConnOk(CloseAll(w).conns[j]) && EntryOk(CloseAll(w), j) {
      assert EntryOk(w, j) && ConnOk(w.conns[j]);
    }
  }

  lemma StepKeepsGood(w: Proxy, w': Proxy, ev: Event, hasSender: bool)
    requires Good(w) && Step(w, w', ev, hasSender)
    ensures Good(w')
  {
    match ev
    case Packet(bytes, o) =>
      if Parse(bytes).Tcp? {
        SegmentKeepsGood(w, Parse(bytes).segment, hasSender, o);
      }
    case Forwarded(i, data) => ForwardKeepsGood(w, i, data, hasSender);
    case ForwarderEnds(i, _) => ForwarderEndsSafely(w, i);
    case TimerFires(i, o) => TimerKeepsGood(w, i, hasSender, o);
    case Shutdown => CloseAllKeepsGood(w);
  }

  lemma {:induction false} AlwaysGood(states: seq<Proxy>, events: seq<Event>, hasSender: bool, n: nat)
    requires Run(states, events, hasSender) && n < |states|
    ensures Good(states[n])
    decreases n
  {
    if n > 0 {
      AlwaysGood(states, events, hasSender, n - 1);
      assert StepAt(states, events, n - 1, hasSender);
      StepKeepsGood(states[n - 1], states[n], events[n - 1], hasSender);
    }
  }
}
