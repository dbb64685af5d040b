/** The connections of internal/tunproxy/proxy_interface.go as values: what each handler does to
    the table and to one connection.  ProxyInterface proves its classes against these functions;
    ProxyRun takes them as the steps of a machine. */
module ProxyProtocol {
  import opened Bytes
  import opened TcpPacket

  datatype TcpState = Closed | Listen | SynSent | SynReceived | Established | FinWait1 | FinWait2
                    | CloseWait | Closing | LastAck | TimeWait

  /** A connection id.  Go prints both addresses; an IPv4-mapped address prints like the IPv4
      address it maps. */
  datatype Key = Key(srcIP: seq<byte>, srcPort: uint16, dstIP: seq<byte>, dstPort: uint16)

  /** One connection, with the bytes its outbound side has been given, whether that side is open,
      and whether its forwarder and its FIN timer are still running. */
  datatype ConnState = ConnState(key: Key, srcIP: seq<byte>, dstIP: seq<byte>, state: TcpState, closed: bool,
                                 clientISN: uint32, serverISN: uint32, clientSeq: uint32, clientAck: uint32,
                                 serverSeq: uint32, serverAck: uint32,
                                 bytesFromClient: nat, bytesToClient: nat, bytesFromServer: nat, bytesToServer: nat,
                                 written: seq<byte>, outboundOpen: bool, forwarding: bool, finTimer: bool)

  /** The mutex of the interface, seen between two calls.  `SendPacket` holds it while it handles a
      segment, and some of its handlers lock it again: such a call never returns, and the mutex stays
      held.  `stranded` is the connection that the call had closed and was about to unregister. */
  datatype Lock = Free | Held(stranded: Option<nat>)

  /** Every connection ever made, the table of those registered, by position, the packets
      handed to the TUN device, each with the connection it was for, and the mutex. */
  datatype Proxy = Proxy(conns: seq<ConnState>, table: map<Key, nat>, out: seq<(nat, Segment)>, lock: Lock)

  /** What the outside decides in one call: whether the dial and the sends to the TUN device
      succeed, the clock value used as initial sequence number, whether the outbound write
      succeeds, and how much of the payload a failed one has written. */
  datatype Oracle = Oracle(dialOk: bool, sendOk: bool, isn: uint32, writeOk: bool, partial: nat)

  const FLAG_FIN: byte := 0x01
  const FLAG_SYN: byte := 0x02
  const FLAG_RST: byte := 0x04
  const FLAG_PSH: byte := 0x08
  const FLAG_ACK: byte := 0x10

  predicate HasFlag(flags: byte, flag: byte)
    requires flag != 0
  {
    (flags / flag) % 2 == 1
  }

  function Printed(ip: seq<byte>): seq<byte> {
    if To4(ip) != [] then To4(ip) else ip
  }

  function KeyOf(s: Segment): Key {
    Key(Printed(s.srcIP), s.srcPort, Printed(s.dstIP), s.dstPort)
  }

  /** A packet to the client of `c`: addresses and ports turned round. */
  function ToClient(c: ConnState, payload: seq<byte>, seqNum: uint32, ackNum: uint32, flags: byte): Segment {
    Segment(c.dstIP, c.key.dstPort, c.srcIP, c.key.srcPort, seqNum, ackNum, flags, payload)
  }

  predicate Wf(w: Proxy) {
    forall k :: k in w.table ==> w.table[k] < |w.conns|
  }

  function SetConn(w: Proxy, i: nat, c: ConnState): Proxy
    requires i < |w.conns|
  {
    w.(conns := w.conns[i := c])
  }

  function Emit(w: Proxy, i: nat, s: Segment): Proxy {
    w.(out := w.out + [(i, s)])
  }

  // Connections

  function NewConn(s: Segment): ConnState {
    ConnState(KeyOf(s), s.srcIP, s.dstIP, SynReceived, false, s.seqNum, 0, Wrap32(s.seqNum + 1), 0, 0,
              Wrap32(s.seqNum + 1), 0, 0, 0, 0, [], true, false, false)
  }

  /** The size of a packet without payload. */
  const BARE: nat := 40

  /** The record that `handleSYN` makes, once the SYN-ACK has been sent or has failed. */
  function Answered(c: ConnState, o: Oracle): ConnState {
    var numbered := c.(serverISN := o.isn, serverSeq := Wrap32(o.isn + 1));
    if o.sendOk then numbered.(bytesToClient := BARE) else numbered.(outboundOpen := false)
  }

  function Make(w: Proxy, s: Segment, hasSender: bool, o: Oracle): Proxy {
    var i, c := |w.conns|, NewConn(s);
    var made := w.(conns := w.conns + [c]);
    if !hasSender then SetConn(made, i, c.(outboundOpen := false))
    else SetConn(Emit(made, i, ToClient(c, [], o.isn, c.clientSeq, FLAG_SYN + FLAG_ACK)), i, Answered(c, o))
  }

  /** `handleSYN`.  A failed SYN-ACK closes the outbound connection and forgets the entry; that or a
      failed dial is then to be recorded as an error, under the mutex. */
  function HandleSyn(w: Proxy, s: Segment, hasSender: bool, o: Oracle): Proxy {
    if KeyOf(s) in w.table then w
    else if !o.dialOk then w.(lock := Held(None))
    else
      var i, made := |w.conns|, Make(w, s, hasSender, o);
      if hasSender && o.sendOk then
        SetConn(made, i, made.conns[i].(forwarding := true)).(table := w.table[KeyOf(s) := i])
      else made.(lock := Held(None))
  }

  /** Closes connection `i` and takes its key out of the table. */
  function Drop(w: Proxy, i: nat, state: TcpState): Proxy
    requires i < |w.conns|
  {
    var c := w.conns[i];
    SetConn(w, i, c.(state := state, closed := true, outboundOpen := false)).(table := w.table - {c.key})
  }

  /** Closes connection `i` and waits for the mutex to take its key out of the table. */
  function Strand(w: Proxy, i: nat): Proxy
    requires i < |w.conns|
  {
    SetConn(w, i, w.conns[i].(state := Closed, closed := true, outboundOpen := false)).(lock := Held(Some(i)))
  }

  /** `handleACK`. */
  function HandleAck(w: Proxy, i: nat, ackNum: uint32, seqNum: uint32): Proxy
    requires i < |w.conns|
  {
    var c := w.conns[i];
    match c.state
    case SynReceived =>
      if ackNum == c.serverSeq then SetConn(w, i, c.(state := Established, bytesFromClient := 0, bytesToClient := 0)) else w
    case Established =>
      SetConn(w, i, c.(serverSeq := if ackNum > c.serverSeq then ackNum else c.serverSeq,
                   clientAck := if seqNum > 0 then Wrap32(seqNum + 1) else c.clientAck))
    case FinWait1 =>
      if ackNum == c.serverSeq then SetConn(w, i, c.(state := FinWait2)) else w
    case Closing =>
      if ackNum == c.serverSeq then SetConn(w, i, c.(state := TimeWait)) else w
    case LastAck =>
      if ackNum == c.serverSeq then Strand(w, i) else w
    case _ => w
  }

  /** `sendACK` and `sendFIN`: a packet without payload, counted when it was sent. */
  function SendBare(w: Proxy, i: nat, seqNum: uint32, ackNum: uint32, flags: byte, hasSender: bool, o: Oracle): Proxy
    requires i < |w.conns|
  {
    if !hasSender then w
    else
      var c := w.conns[i];
      var sent := Emit(w, i, ToClient(c, [], seqNum, ackNum, flags));
      if o.sendOk then SetConn(sent, i, c.(bytesToClient := c.bytesToClient + BARE)) else sent
  }

  /** `handleFIN` on an established connection: acknowledges, and starts the timer of its own FIN. */
  function FirstFin(w: Proxy, i: nat, seqNum: uint32, hasSender: bool, o: Oracle): Proxy
    requires i < |w.conns|
  {
    var c, next := w.conns[i], Wrap32(seqNum + 1);
    var sent := SendBare(SetConn(w, i, c.(state := CloseWait, clientSeq := next)), i, next, c.serverSeq,
                         FLAG_ACK, hasSender, o);
    if hasSender && o.sendOk then SetConn(sent, i, sent.conns[i].(finTimer := true)) else sent
  }

  /** `handleFIN`: any later FIN ends the connection, unless the acknowledgement cannot be sent. */
  function HandleFin(w: Proxy, i: nat, seqNum: uint32, hasSender: bool, o: Oracle): Proxy
    requires i < |w.conns|
  {
    var c := w.conns[i];
    if c.state == Established then FirstFin(w, i, seqNum, hasSender, o)
    else if c.state == FinWait2 then
      SendBare(SetConn(w, i, c.(state := TimeWait)), i, c.clientSeq, c.serverSeq, FLAG_ACK, hasSender, o)
    else
      var sent := SendBare(w, i, Wrap32(seqNum + 1), c.serverSeq, FLAG_ACK, hasSender, o);
      if hasSender && o.sendOk then Strand(sent, i) else sent
  }

  /** `handleData`: forwards the payload of an established connection; a failed write is to be
      recorded, under the mutex, before the connection is closed. */
  function HandleData(w: Proxy, key: Key, payload: seq<byte>, o: Oracle): Proxy
    requires Wf(w)
  {
    if key !in w.table then w
    else
      var i := w.table[key];
      var c := w.conns[i];
      if c.closed || c.state != Established then w else WriteThrough(w, i, payload, o)
  }

  /** The outbound write of a payload, and its counts if it succeeds. */
  function WriteThrough(w: Proxy, i: nat, payload: seq<byte>, o: Oracle): Proxy
    requires i < |w.conns|
  {
    var c := w.conns[i];
    if !o.writeOk then
      SetConn(w, i, c.(written := c.written + payload[..Min(o.partial, |payload|)])).(lock := Held(None))
    else
      SetConn(w, i, c.(written := c.written + payload, clientSeq := Wrap32(c.clientSeq + |payload|),
                   bytesFromClient := c.bytesFromClient + |payload|, bytesToServer := c.bytesToServer + |payload|))
  }

  /** `SendPacket` after parsing. */
  function HandleSegment(w: Proxy, s: Segment, hasSender: bool, o: Oracle): Proxy
    requires Wf(w)
  {
    var key := KeyOf(s);
    if HasFlag(s.flags, FLAG_SYN) then HandleSyn(w, s, hasSender, o)
    else if HasFlag(s.flags, FLAG_RST) && key in w.table then Strand(w, w.table[key])
    else if HasFlag(s.flags, FLAG_FIN) && key in w.table then HandleFin(w, w.table[key], s.seqNum, hasSender, o)
    else if s.payload != [] then HandleData(w, key, s.payload, o)
    else if HasFlag(s.flags, FLAG_ACK) && key in w.table then HandleAck(w, w.table[key], s.ackNum, s.seqNum)
    else w
  }

  /** The segments that `SendPacket` never returns from: a reset of a known connection, a FIN that is
      not its first and whose acknowledgement goes out, an acknowledgement in state LAST_ACK, and
      whatever needs a dial, a SYN-ACK or an outbound write that fails. */
  predicate Blocks(w: Proxy, s: Segment, hasSender: bool, o: Oracle)
    requires Wf(w)
  {
    var key, ok := KeyOf(s), hasSender && o.sendOk;
    if HasFlag(s.flags, FLAG_SYN) then key !in w.table && !(o.dialOk && ok)
    else if key !in w.table then false
    else
      var c := w.conns[w.table[key]];
      if HasFlag(s.flags, FLAG_RST) then true
      else if HasFlag(s.flags, FLAG_FIN) then c.state != Established && c.state != FinWait2 && ok
      else if s.payload != [] then !c.closed && c.state == Established && !o.writeOk
      else HasFlag(s.flags, FLAG_ACK) && c.state == LastAck && s.ackNum == c.serverSeq
  }

  /** `SendPacket` returns from a segment exactly when it is none of these. */
  lemma ReturnsUnlessBlocked(w: Proxy, s: Segment, hasSender: bool, o: Oracle)
    requires Wf(w) && w.lock.Free?
    ensures HandleSegment(w, s, hasSender, o).lock.Free? <==> !Blocks(w, s, hasSender, o)
  {
  }

  /** Whether `SendPacket`, when it returns, returns without an error: everything it tried has worked, and data was for
      an open connection that is known. */
  predicate Succeeds(w: Proxy, s: Segment, hasSender: bool, o: Oracle)
    requires Wf(w)
  {
    var key := KeyOf(s);
    if HasFlag(s.flags, FLAG_SYN) || (HasFlag(s.flags, FLAG_RST) && key in w.table) then true
    else if HasFlag(s.flags, FLAG_FIN) && key in w.table then hasSender && o.sendOk
    else s.payload != [] ==> key in w.table && !w.conns[w.table[key]].closed
  }

  /** One read of `forwardConnection`. */
  function Forward(w: Proxy, i: nat, data: seq<byte>, hasSender: bool): Proxy
    requires i < |w.conns|
  {
    if !hasSender then w
    else
      var c := w.conns[i];
      SetConn(Emit(w, i, ToClient(c, data, c.serverSeq, c.clientAck, FLAG_ACK + FLAG_PSH)), i,
          c.(serverSeq := Wrap32(c.serverSeq + |data|), bytesToClient := c.bytesToClient + |data|,
             bytesFromServer := c.bytesFromServer + |data|))
  }

  /** The end of `forwardConnection`. */
  function ForwardEnds(w: Proxy, i: nat): Proxy
    requires i < |w.conns|
  {
    var stopped := SetConn(w, i, w.conns[i].(forwarding := false));
    if w.conns[i].closed then stopped else Drop(stopped, i, w.conns[i].state)
  }

  /** `sendFIN`. */
  function SendFin(w: Proxy, i: nat, hasSender: bool, o: Oracle): Proxy
    requires i < |w.conns|
  {
    var c := w.conns[i];
    var sent := SendBare(w, i, c.serverSeq, c.clientAck, FLAG_FIN + FLAG_ACK, hasSender, o);
    if hasSender && o.sendOk then SetConn(sent, i, sent.conns[i].(serverSeq := Wrap32(c.serverSeq + 1))) else sent
  }

  /** The timer that `handleFIN` starts. */
  function FinTimer(w: Proxy, i: nat, hasSender: bool, o: Oracle): Proxy
    requires i < |w.conns|
  {
    var fired := SetConn(w, i, w.conns[i].(finTimer := false));
    if w.conns[i].state == CloseWait then SendFin(fired, i, hasSender, o) else fired
  }

  function Shut(c: ConnState): ConnState {
    if c.closed then c else c.(closed := true, outboundOpen := false)
  }

  /** Closing the entries under `keys`. */
  function CloseKeys(w: Proxy, keys: set<Key>): Proxy {
    w.(conns := seq(|w.conns|, i requires 0 <= i < |w.conns| =>
                      if Registered(w, i) && w.conns[i].key in keys then Shut(w.conns[i]) else w.conns[i]),
       table := w.table - keys)
  }

  lemma CloseOne(w: Proxy, key: Key)
    requires key in w.table && w.table[key] < |w.conns| && w.conns[w.table[key]].key == key
    ensures var i := w.table[key];
            SetConn(w, i, Shut(w.conns[i])).(table := w.table - {key}) == CloseKeys(w, {key})
  {
    var i := w.table[key];
    assert SetConn(w, i, Shut(w.conns[i])).conns == CloseKeys(w, {key}).conns;
  }

  /** `Close`: every registered connection is closed and the table emptied. */
  function CloseAll(w: Proxy): Proxy {
    CloseKeys(w, w.table.Keys)
  }

  lemma CloseNone(w: Proxy)
    ensures CloseKeys(w, {}) == w
  {
    assert CloseKeys(w, {}).conns == w.conns;
  }

  lemma CloseOneMore(w: Proxy, keys: set<Key>, key: Key)
    requires key !in keys
    ensures CloseKeys(CloseKeys(w, keys), {key}) == CloseKeys(w, keys + {key})
  {
    var once, both := CloseKeys(w, keys), CloseKeys(w, keys + {key});
    var twice := CloseKeys(once, {key});
    assert twice.table == both.table;
    assert twice.conns == both.conns;
  }

  predicate Registered(w: Proxy, i: nat)
    requires i < |w.conns|
  {
    w.conns[i].key in w.table && w.table[w.conns[i].key] == i
  }
}
