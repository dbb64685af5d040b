/** The `ProxyConnection` and `ProxyInterface` objects of internal/tunproxy/proxy_interface.go.
    Every handler is one step under the interface's mutex, and is proved against ProxyProtocol.  A call
    that would wait for the mutex for ever is one whose outcome is `Blocked`. */
module ProxyInterface {
  import opened Bytes
  import opened TcpPacket
  import Connections
  import opened ProxyProtocol

  class ProxyConnection {
    const key: Key
    const srcIP: seq<byte>
    const dstIP: seq<byte>
    ghost const index: nat
    var state: TcpState
    var closed: bool
    var clientISN: uint32
    var serverISN: uint32
    var clientSeq: uint32
    var clientAck: uint32
    var serverSeq: uint32
    var serverAck: uint32
    var bytesFromClient: nat
    var bytesToClient: nat
    var bytesFromServer: nat
    var bytesToServer: nat
    // the outbound connection: what it has been given, and whether it is open
    var written: seq<byte>
    var outboundOpen: bool
    // the goroutines that hold on to the connection
    var forwarding: bool
    var finTimer: bool

    constructor (s: Segment, ghost index: nat)
      ensures State() == NewConn(s) && this.index == index && key == KeyOf(s)
    {
      key, srcIP, dstIP := KeyOf(s), s.srcIP, s.dstIP;
      this.index := index;
      state, closed := SynReceived, false;
      clientISN, serverISN, clientSeq, clientAck := s.seqNum, 0, Wrap32(s.seqNum + 1), 0;
      serverSeq, serverAck := 0, Wrap32(s.seqNum + 1);
      bytesFromClient, bytesToClient, bytesFromServer, bytesToServer := 0, 0, 0, 0;
      written, outboundOpen, forwarding, finTimer := [], true, false, false;
    }

    ghost function State(): ConnState
      reads this
    {
      ConnState(key, srcIP, dstIP, state, closed, clientISN, serverISN, clientSeq, clientAck, serverSeq, serverAck,
                bytesFromClient, bytesToClient, bytesFromServer, bytesToServer, written, outboundOpen, forwarding, finTimer)
    }

    function ToClient(payload: seq<byte>, seqNum: uint32, ackNum: uint32, flags: byte): Segment
    {
      Segment(dstIP, key.dstPort, srcIP, key.srcPort, seqNum, ackNum, flags, payload)
    }

    /** `OutboundConn.Write`: all of it, or a part and an error. */
    method WriteOutbound(data: seq<byte>, ok: bool, partial: nat)
      modifies this`written
      ensures written == old(written) + (if ok then data else data[..Min(partial, |data|)])
    {
      written := written + (if ok then data else data[..Min(partial, |data|)]);
    }
  }

  ghost function States(cs: seq<ProxyConnection>): seq<ConnState>
    reads cs
  {
    seq(|cs|, i requires 0 <= i < |cs| reads cs => cs[i].State())
  }

  lemma FewerKeys<K, V>(m: map<K, V>, k: K)
    requires k in m
    ensures |m - {k}| < |m|
  {
    assert m.Keys == (m - {k}).Keys + {k};
  }

  datatype Outcome = Done | Failed | Panicked | Blocked

  class ProxyInterface {
    const hasSender: bool
    var connections: map<Key, ProxyConnection>
    var tunPackets: seq<seq<byte>>  // handed to the packet sender
    var locked: bool  // whether the mutex is held by a call that has not returned
    ghost var lock: Lock
    ghost var made: seq<ProxyConnection>
    ghost var out: seq<(nat, Segment)>  // what the packets were built from

    constructor (hasSender: bool)
      ensures Valid() && View() == Proxy([], map[], [], Free) && this.hasSender == hasSender
    {
      this.hasSender := hasSender;
      connections, tunPackets := map[], [];
      made, out := [], [];
      locked, lock := false, Free;
    }

    ghost predicate Valid()
      reads this
    {
      && (forall i :: 0 <= i < |made| ==> made[i].index == i)
      && (forall k :: k in connections ==>
            connections[k].index < |made| && made[connections[k].index] == connections[k] && connections[k].key == k)
      && (locked <==> lock.Held?)
      && |tunPackets| == |out| && (forall j :: 0 <= j < |out| ==> tunPackets[j] == PacketBytes(out[j].1))
    }

    ghost predicate Has(conn: ProxyConnection)
      reads this`made
    {
      conn.index < |made| && made[conn.index] == conn
    }

    ghost function Conns(): seq<ConnState>
      reads this`made, made
    {
      States(made)
    }

    ghost function Table(): map<Key, nat>
      reads this`connections
    {
      map k | k in connections :: connections[k].index
    }

    ghost function View(): (w: Proxy)
      requires Valid()
      reads this, made
      ensures Wf(w) && |w.conns| == |made|
    {
      Proxy(Conns(), Table(), out, lock)
    }

    /** When one connection has changed and nothing else. */
    twostate lemma OnlyConn(conn: ProxyConnection)
      requires old(Valid()) && Valid() && Has(conn)
      requires made == old(made) && connections == old(connections) && out == old(out) && lock == old(lock)
      requires forall c :: c in made && c != conn ==> c.State() == old(c.State())
      ensures old(View()).conns[conn.index] == old(conn.State())
      ensures View() == SetConn(old(View()), conn.index, conn.State())
    {
      assert Conns() == old(Conns())[conn.index := conn.State()];
    }

    /** Hands a packet to the TUN device. */
    method SendPacketToTun(s: Segment, ghost index: nat)
      requires Valid()
      modifies this`tunPackets, this`out
      ensures Valid() && View() == Emit(old(View()), index, s)
    {
      var packet := ConstructTCPPacket(s);
      tunPackets := tunPackets + [packet];
      out := out + [(index, s)];
    }

    /** `sendACK` and `sendFIN` up to the sequence number. */
    method SendBarePacket(conn: ProxyConnection, seqNum: uint32, ackNum: uint32, flags: byte, o: Oracle)
      returns (ok: bool)
      requires Valid() && Has(conn)
      modifies this`tunPackets, this`out, conn`bytesToClient
      ensures Valid() && View() == SendBare(old(View()), conn.index, seqNum, ackNum, flags, hasSender, o)
      ensures ok <==> hasSender && o.sendOk
    {
      if !hasSender {
        return false;
      }
      SendPacketToTun(conn.ToClient([], seqNum, ackNum, flags), conn.index);
      ok := o.sendOk;
      if ok {
        label sent:
        conn.bytesToClient := conn.bytesToClient + BARE;
        OnlyConn@sent(conn);
      }
    }

    /** A handler locks the mutex that `SendPacket` holds, and waits for ever.  `stranded` is a
        connection that it has closed and not unregistered. */
    method LockAgain(ghost stranded: Option<nat>)
      requires Valid()
      modifies this`locked, this`lock
      ensures Valid() && locked && View() == old(View()).(lock := Held(stranded))
    {
      locked, lock := true, Held(stranded);
    }

    /** The end of a connection inside `SendPacket`: closed, and then the mutex. */
    method StrandConn(conn: ProxyConnection)
      requires Valid() && Has(conn)
      modifies this`locked, this`lock, conn`state, conn`closed, conn`outboundOpen
      ensures Valid() && View() == Strand(old(View()), conn.index)
    {
      hide View, SetConn, Valid;
      conn.state, conn.closed, conn.outboundOpen := Closed, true, false;
      OnlyConn(conn);
      LockAgain(Some(conn.index));
    }

    /** Closes the connection and deletes its key. */
    method DropConn(conn: ProxyConnection, state: TcpState)
      requires Valid() && Has(conn)
      modifies this`connections, conn`state, conn`closed, conn`outboundOpen
      ensures Valid() && View() == Drop(old(View()), conn.index, state)
    {
      hide Valid, SetConn;
      conn.state, conn.closed, conn.outboundOpen := state, true, false;
      OnlyConn(conn);
      DeleteKey(conn.key);
    }

    method DeleteKey(key: Key)
      requires Valid()
      modifies this`connections
      ensures Valid() && View() == old(View()).(table := old(View()).table - {key})
      ensures connections == old(connections) - {key}
    {
      connections := connections - {key};
      assert Table() == old(Table()) - {key};
    }

    /** `handleSYN`. */
    method HandleSYN(s: Segment, o: Oracle) returns (outcome: Outcome)
      requires Valid() && !locked
      modifies this
      ensures Valid() && View() == HandleSyn(old(View()), s, hasSender, o)
      ensures outcome == if locked then Blocked else Done
    {
      if KeyOf(s) in connections {
        return Done;
      }
      if !o.dialOk {
        LockAgain(None);
        return Blocked;
      }
      var conn, ok := MakeConnection(s, o);
      if !ok {
        LockAgain(None);
        return Blocked;
      }
      StartForwarding(conn);
      outcome := Done;
    }

    method StartForwarding(conn: ProxyConnection)
      requires Valid() && Has(conn)
      modifies this`connections, conn`forwarding
      ensures Valid()
      ensures View() == SetConn(old(View()), conn.index, old(conn.State()).(forwarding := true))
                        .(table := old(View()).table[conn.key := conn.index])
    {
      conn.forwarding := true;
      OnlyConn(conn);
      connections := connections[conn.key := conn];
      assert Table() == old(Table())[conn.key := conn.index];
    }

    /** The part of `handleSYN` after the dial: the record and its SYN-ACK. */
    method MakeConnection(s: Segment, o: Oracle) returns (conn: ProxyConnection, ok: bool)
      requires Valid()
      modifies this`made, this`tunPackets, this`out
      ensures Valid() && fresh(conn) && Has(conn) && conn.key == KeyOf(s) && conn.index == |old(made)|
      ensures View() == Make(old(View()), s, hasSender, o) && (ok <==> hasSender && o.sendOk)
    {
      conn := AddRecord(s);
      if hasSender {
        ok := SendSYNAck(conn, o);
      } else {
        ok := false;
        label made:
        conn.outboundOpen := false;
        OnlyConn@made(conn);
      }
    }

    /** `sendSYNAck`, with the outbound connection closed when it fails. */
    method SendSYNAck(conn: ProxyConnection, o: Oracle) returns (ok: bool)
      requires Valid() && Has(conn) && hasSender
      modifies this`tunPackets, this`out, conn
      ensures Valid() && (ok <==> o.sendOk)
      ensures View() == SetConn(Emit(old(View()), conn.index,
                                     conn.ToClient([], o.isn, old(conn.clientSeq), FLAG_SYN + FLAG_ACK)),
                                conn.index, Answered(old(conn.State()), o))
    {
      SendPacketToTun(conn.ToClient([], o.isn, conn.clientSeq, FLAG_SYN + FLAG_ACK), conn.index);
      NoteAnswer(conn, o);
      ok := o.sendOk;
    }

    method NoteAnswer(conn: ProxyConnection, o: Oracle)
      requires Valid() && Has(conn)
      modifies conn
      ensures Valid() && View() == SetConn(old(View()), conn.index, Answered(old(conn.State()), o))
    {
      hide Valid;
      conn.serverISN, conn.serverSeq := o.isn, Wrap32(o.isn + 1);
      if o.sendOk {
        conn.bytesToClient := BARE;
      } else {
        conn.outboundOpen := false;
      }
      assert conn.State() == Answered(old(conn.State()), o);
      OnlyConn(conn);
    }

    method AddRecord(s: Segment) returns (conn: ProxyConnection)
      requires Valid()
      modifies this`made
      ensures Valid() && fresh(conn) && Has(conn) && conn.key == KeyOf(s) && conn.index == |old(made)|
      ensures conn.State() == NewConn(s) && View() == old(View()).(conns := old(Conns()) + [NewConn(s)])
    {
      conn := new ProxyConnection(s, |made|);
      made := made + [conn];
      assert Conns() == old(Conns()) + [NewConn(s)];
    }

    /** `handleACK`. */
    method HandleACK(conn: ProxyConnection, ackNum: uint32, seqNum: uint32) returns (outcome: Outcome)
      requires Valid() && Has(conn) && !locked
      modifies this`locked, this`lock, conn
      ensures Valid() && View() == HandleAck(old(View()), conn.index, ackNum, seqNum)
      ensures outcome == if locked then Blocked else Done
    {
      if conn.state == Established {
        Acknowledge(conn, ackNum, seqNum);
        OnlyConn(conn);
      } else if ackNum == conn.serverSeq {
        if conn.state == LastAck {
          StrandConn(conn);
        } else {
          Advance(conn);
          OnlyConn(conn);
        }
      }
      outcome := if locked then Blocked else Done;
    }

    method Acknowledge(conn: ProxyConnection, ackNum: uint32, seqNum: uint32)
      modifies conn`serverSeq, conn`clientAck
      ensures conn.State() == old(conn.State()).(
                serverSeq := if ackNum > old(conn.serverSeq) then ackNum else old(conn.serverSeq),
                clientAck := if seqNum > 0 then Wrap32(seqNum + 1) else old(conn.clientAck))
    {
      if ackNum > conn.serverSeq {
        conn.serverSeq := ackNum;
      }
      if seqNum > 0 {
        conn.clientAck := Wrap32(seqNum + 1);
      }
    }

    /** The transitions on an acknowledgement of everything sent. */
    method Advance(conn: ProxyConnection)
      modifies conn`state, conn`bytesFromClient, conn`bytesToClient
      ensures conn.State() ==
              match old(conn.state)
              case SynReceived => old(conn.State()).(state := Established, bytesFromClient := 0, bytesToClient := 0)
              case FinWait1 => old(conn.State()).(state := FinWait2)
              case Closing => old(conn.State()).(state := TimeWait)
              case _ => old(conn.State())
    {
      match conn.state
      case SynReceived => conn.state, conn.bytesFromClient, conn.bytesToClient := Established, 0, 0;
      case FinWait1 => conn.state := FinWait2;
      case Closing => conn.state := TimeWait;
      case _ =>
    }

    /** `handleFIN`. */
    method HandleFIN(conn: ProxyConnection, seqNum: uint32, o: Oracle) returns (outcome: Outcome)
      requires Valid() && Has(conn) && !locked
      modifies this`locked, this`lock, this`tunPackets, this`out, conn
      ensures Valid() && View() == HandleFin(old(View()), conn.index, seqNum, hasSender, o)
      ensures outcome == if locked then Blocked else if hasSender && o.sendOk then Done else Failed
    {
      var ok;
      if conn.state == Established {
        ok := FirstFIN(conn, seqNum, o);
      } else if conn.state == FinWait2 {
        conn.state := TimeWait;
        OnlyConn(conn);
        ok := SendBarePacket(conn, conn.clientSeq, conn.serverSeq, FLAG_ACK, o);
      } else {
        ok := SendBarePacket(conn, Wrap32(seqNum + 1), conn.serverSeq, FLAG_ACK, o);
        if ok {
          StrandConn(conn);
        }
      }
      outcome := if locked then Blocked else if ok then Done else Failed;
    }

    method FirstFIN(conn: ProxyConnection, seqNum: uint32, o: Oracle) returns (ok: bool)
      requires Valid() && Has(conn)
      modifies this`tunPackets, this`out, conn
      ensures Valid() && View() == FirstFin(old(View()), conn.index, seqNum, hasSender, o)
      ensures ok <==> hasSender && o.sendOk
    {
      EnterCloseWait(conn, Wrap32(seqNum + 1));
      ok := SendBarePacket(conn, conn.clientSeq, conn.serverSeq, FLAG_ACK, o);
      if ok {
        SetTimer(conn, true);
      }
    }

    method EnterCloseWait(conn: ProxyConnection, next: uint32)
      requires Valid() && Has(conn)
      modifies conn`state, conn`clientSeq
      ensures Valid() && conn.clientSeq == next
      ensures View() == SetConn(old(View()), conn.index,
                                old(View()).conns[conn.index].(state := CloseWait, clientSeq := next))
    {
      conn.state, conn.clientSeq := CloseWait, next;
      OnlyConn(conn);
    }

    method SetTimer(conn: ProxyConnection, running: bool)
      requires Valid() && Has(conn)
      modifies conn`finTimer
      ensures Valid()
      ensures View() == SetConn(old(View()), conn.index, old(View()).conns[conn.index].(finTimer := running))
    {
      conn.finTimer := running;
      OnlyConn(conn);
    }

    /** `handleData`.  After a failed write it never gets to `handleClose`. */
    method HandleDataPacket(key: Key, data: seq<byte>, o: Oracle) returns (outcome: Outcome)
      requires Valid() && !locked
      modifies this`locked, this`lock, made
      ensures Valid() && View() == HandleData(old(View()), key, data, o)
      ensures outcome == if locked then Blocked
                         else if key in connections && !old(connections[key].closed) then Done else Failed
    {
      hide WriteThrough;
      if key !in connections || connections[key].closed {
        return Failed;
      }
      var conn := connections[key];
      if conn.state != Established {
        return Done;
      }
      outcome := ForwardData(conn, data, o);
    }

    method ForwardData(conn: ProxyConnection, data: seq<byte>, o: Oracle) returns (outcome: Outcome)
      requires Valid() && !locked && Has(conn)
      modifies this`locked, this`lock, conn`written, conn`clientSeq, conn`bytesFromClient, conn`bytesToServer
      ensures Valid() && View() == WriteThrough(old(View()), conn.index, data, o)
      ensures outcome == if locked then Blocked else Done
    {
      hide Wrap32, Min, View;
      WriteData(conn, data, o);
      if o.writeOk {
        CountData(conn, |data|);
        outcome := Done;
      } else {
        LockAgain(None);
        outcome := Blocked;
      }
    }

    method WriteData(conn: ProxyConnection, data: seq<byte>, o: Oracle)
      requires Valid() && Has(conn)
      modifies conn`written
      ensures Valid()
      ensures View() == SetConn(old(View()), conn.index, old(View()).conns[conn.index].(written :=
                          old(View()).conns[conn.index].written
                          + (if o.writeOk then data else data[..Min(o.partial, |data|)])))
    {
      conn.WriteOutbound(data, o.writeOk, o.partial);
      OnlyConn(conn);
    }

    method CountData(conn: ProxyConnection, n: nat)
      requires Valid() && Has(conn)
      modifies conn`clientSeq, conn`bytesFromClient, conn`bytesToServer
      ensures Valid()
      ensures var c := old(View()).conns[conn.index];
              View() == SetConn(old(View()), conn.index, c.(clientSeq := Wrap32(c.clientSeq + n),
                          bytesFromClient := c.bytesFromClient + n, bytesToServer := c.bytesToServer + n))
    {
      hide View, Valid;
      conn.clientSeq := Wrap32(conn.clientSeq + n);
      conn.bytesFromClient := conn.bytesFromClient + n;
      conn.bytesToServer := conn.bytesToServer + n;
      OnlyConn(conn);
    }

    /** `SendPacket`, with what the outside decides in `o`.  It blocks when an earlier call has left
        the mutex held, and when its own handler locks it again. */
    method SendPacket(packet: seq<byte>, o: Oracle) returns (outcome: Outcome)
      requires Valid()
      modifies this, made
      ensures Valid()
      ensures old(locked) ==> outcome == Blocked && View() == old(View())
      ensures !old(locked) ==>
                && View() == (match Parse(packet)
                              case Tcp(s) => HandleSegment(old(View()), s, hasSender, o)
                              case _ => old(View()))
                && outcome == (match Parse(packet)
                               case Tcp(s) =>
                                 if Blocks(old(View()), s, hasSender, o) then Blocked
                                 else if Succeeds(old(View()), s, hasSender, o) then Done else Failed
                               case NotTcp => Done
                               case OutOfBounds => Panicked
                               case _ => Failed)
    {
      if locked {
        return Blocked;
      }
      match Parse(packet)
      case Tcp(s) => outcome := Dispatch(s, o);
      case NotTcp => outcome := Done;
      case OutOfBounds => outcome := Panicked;
      case _ => outcome := Failed;
    }

    method Dispatch(s: Segment, o: Oracle) returns (outcome: Outcome)
      requires Valid() && !locked
      modifies this, made
      ensures Valid() && View() == HandleSegment(old(View()), s, hasSender, o)
      ensures outcome == if Blocks(old(View()), s, hasSender, o) then Blocked
                         else if Succeeds(old(View()), s, hasSender, o) then Done else Failed
    {
      var key := KeyOf(s);
      ghost var w := View();
      outcome := Done;
      if HasFlag(s.flags, FLAG_SYN) {
        outcome := HandleSYN(s, o);
      } else if HasFlag(s.flags, FLAG_RST) && key in connections {
        StrandConn(connections[key]);
        outcome := Blocked;
      } else if HasFlag(s.flags, FLAG_FIN) && key in connections {
        outcome := HandleFIN(connections[key], s.seqNum, o);
      } else if s.payload != [] {
        outcome := HandleDataPacket(key, s.payload, o);
      } else if HasFlag(s.flags, FLAG_ACK) && key in connections {
        outcome := HandleACK(connections[key], s.ackNum, s.seqNum);
      }
      ReturnsUnlessBlocked(w, s, hasSender, o);
    }

    /** One round of the loop of `forwardConnection`, in which the outbound connection's `Read` gives
        `r`.  Bytes that come with an error are not forwarded. */
    method ForwardRound(conn: ProxyConnection, r: Connections.ReadResult) returns (more: bool, returned: bool)
      requires Valid() && Has(conn)
      modifies this`tunPackets, this`out, this`connections, conn
      ensures Valid() && more == r.Read? && (r == Connections.Read([]) || returned == !locked)
      ensures View() == (if !returned || r == Connections.Read([]) then old(View())
                         else match r
                              case Read(data) => Forward(old(View()), conn.index, data, hasSender)
                              case _ => ForwardEnds(old(View()), conn.index))
    {
      match r
      case Read(data) =>
        more, returned := true, true;
        if data != [] {
          returned := ForwardRead(conn, data);
        }
      case _ =>
        more := false;
        returned := EndForwarding(conn);
    }

    /** One read of `forwardConnection`. */
    method ForwardRead(conn: ProxyConnection, data: seq<byte>) returns (returned: bool)
      requires Valid() && Has(conn)
      modifies this`tunPackets, this`out, conn
      ensures Valid() && returned == !locked
      ensures View() == if returned then Forward(old(View()), conn.index, data, hasSender) else old(View())
    {
      if locked {
        return false;
      }
      returned := true;
      if hasSender {
        SendPacketToTun(conn.ToClient(data, conn.serverSeq, conn.clientAck, FLAG_ACK + FLAG_PSH), conn.index);
        CountForwarded(conn, |data|);
      }
    }

    method CountForwarded(conn: ProxyConnection, n: nat)
      requires Valid() && Has(conn)
      modifies conn`serverSeq, conn`bytesToClient, conn`bytesFromServer
      ensures Valid()
      ensures var c := old(View()).conns[conn.index];
              View() == SetConn(old(View()), conn.index, c.(serverSeq := Wrap32(c.serverSeq + n),
                          bytesToClient := c.bytesToClient + n, bytesFromServer := c.bytesFromServer + n))
    {
      hide View, Valid;
      conn.serverSeq := Wrap32(conn.serverSeq + n);
      conn.bytesToClient := conn.bytesToClient + n;
      conn.bytesFromServer := conn.bytesFromServer + n;
      OnlyConn(conn);
    }

    /** The deferred end of `forwardConnection`. */
    method EndForwarding(conn: ProxyConnection) returns (returned: bool)
      requires Valid() && Has(conn)
      modifies this`connections, conn
      ensures Valid() && returned == !locked
      ensures View() == if returned then ForwardEnds(old(View()), conn.index) else old(View())
    {
      if locked {
        return false;
      }
      returned := true;
      conn.forwarding := false;
      OnlyConn(conn);
      if !conn.closed {
        DropConn(conn, conn.state);
      }
    }

    /** The timer that the first FIN starts. */
    method FireTimer(conn: ProxyConnection, o: Oracle) returns (returned: bool)
      requires Valid() && Has(conn)
      modifies this`tunPackets, this`out, conn
      ensures Valid() && returned == !locked
      ensures View() == if returned then FinTimer(old(View()), conn.index, hasSender, o) else old(View())
    {
      if locked {
        return false;
      }
      returned := true;
      SetTimer(conn, false);
      if conn.state == CloseWait {
        SendFIN(conn, o);
      }
    }

    /** `sendFIN`. */
    method SendFIN(conn: ProxyConnection, o: Oracle)
      requires Valid() && Has(conn)
      modifies this`tunPackets, this`out, conn
      ensures Valid() && View() == SendFin(old(View()), conn.index, hasSender, o)
    {
      var ok := SendBarePacket(conn, conn.serverSeq, conn.clientAck, FLAG_FIN + FLAG_ACK, o);
      if ok {
        CountFin(conn);
      }
    }

    method CountFin(conn: ProxyConnection)
      requires Valid() && Has(conn)
      modifies conn`serverSeq
      ensures Valid()
      ensures View() == SetConn(old(View()), conn.index,
                          old(View()).conns[conn.index].(serverSeq := Wrap32(old(conn.serverSeq) + 1)))
    {
      conn.serverSeq := Wrap32(conn.serverSeq + 1);
      OnlyConn(conn);
    }

    /** `Close`. */
    method Close() returns (returned: bool)
      requires Valid()
      modifies this`connections, made
      ensures Valid() && returned == !locked
      ensures View() == if returned then CloseAll(old(View())) else old(View())
    {
      if locked {
        return false;
      }
      returned := true;
      ghost var start := View();
      ghost var done: set<Key> := {};
      CloseNone(start);
      while |connections| > 0
        invariant Valid() && Closing(start, done)
        decreases |connections|
      {
        done := CloseAny(start, done);
      }
      assert connections == map[];
    }

    /** Of the entries in `start`, those under `done` have been closed. */
    ghost predicate Closing(start: Proxy, done: set<Key>)
      requires Valid()
      reads this, made
    {
      && View() == CloseKeys(start, done)
      && done !! connections.Keys && done + connections.Keys == start.table.Keys
    }

    method CloseAny(ghost start: Proxy, ghost done: set<Key>) returns (ghost done': set<Key>)
      requires Valid() && |connections| > 0 && Closing(start, done)
      modifies this`connections, made
      ensures Valid() && Closing(start, done') && |connections| < |old(connections)|
    {
      hide CloseKeys, Valid, View;
      var key :| key in connections.Keys;
      CloseEntry(key);
      CloseOneMore(start, done, key);
      FewerKeys(old(connections), key);
      done' := done + {key};
    }

    method CloseEntry(key: Key)
      requires Valid() && key in connections
      modifies this`connections, made
      ensures Valid() && View() == CloseKeys(old(View()), {key}) && connections == old(connections) - {key}
    {
      ghost var w := View();
      var conn := connections[key];
      CloseConn(conn);
      DeleteKey(key);
      CloseOne(w, key);
    }

    method CloseConn(conn: ProxyConnection)
      requires Valid() && Has(conn)
      modifies conn`closed, conn`outboundOpen
      ensures Valid() && View() == SetConn(old(View()), conn.index, Shut(old(View()).conns[conn.index]))
    {
      if !conn.closed {
        conn.closed, conn.outboundOpen := true, false;
      }
      OnlyConn(conn);
    }
  }
}
