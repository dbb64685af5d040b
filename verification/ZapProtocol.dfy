/** The Zap handshake of internal/protocol/zap/handshake.go as a protocol of two parties and four
    messages, over an untampered channel in which writes and reads may fail at any point. */
module ZapProtocol {
  import opened Bytes
  import opened Hkdf
  import opened ZapFrame

  /** Elliptic-curve Diffie-Hellman and a keyed hash, left abstract: public key of a private key, and
      shared secret of a private key and a peer's public key, which may be refused. */
  datatype Suite = Suite(publicKey: seq<byte> -> seq<byte>,
                         ecdh: (seq<byte>, seq<byte>) -> Option<seq<byte>>, hash: Hash)

  /** What the agreement rests on: both sides compute the same shared secret. */
  ghost predicate Commutes(suite: Suite) {
    forall a: seq<byte>, b: seq<byte> :: suite.ecdh(a, suite.publicKey(b)) == suite.ecdh(b, suite.publicKey(a))
  }

  datatype Config = Config(authMethod: byte, hasManager: bool, privateKey: Option<seq<byte>>, ttl: uint32)

  datatype HandshakeState = Idle | ClientHelloSent | ServerChallengeSent | ClientResponseSent | Authenticated

  datatype Session = Session(id: seq<byte>, key: seq<byte>, peerPublicKey: Option<seq<byte>>)

  /** The fields of a `Handshake`, with the authentication data it has sent or checked. */
  datatype Party = Party(state: HandshakeState, clientRandom: seq<byte>, serverRandom: seq<byte>, salt: seq<byte>,
                         chosenMethod: byte, peerPublicKey: Option<seq<byte>>, authData: seq<byte>,
                         sessionID: seq<byte>, sessionKey: seq<byte>, session: Option<Session>)

  const FreshParty := Party(Idle, [], [], [], 0, None, [], [], [], None)

  function OwnPublicKey(cfg: Config, suite: Suite): seq<byte> {
    match cfg.privateKey case None => [] case Some(k) => suite.publicKey(k)
  }

  const KEY_INFO: seq<byte> := [0x7A, 0x70, 0x74, 0x2D, 0x73, 0x65, 0x73, 0x73, 0x69, 0x6F, 0x6E, 0x2D, 0x6B, 0x65, 0x79]
  const KEY_SIZE: nat := 32

  /** `DeriveSessionKey`. */
  ghost function DeriveKey(h: Hash, clientRandom: seq<byte>, serverRandom: seq<byte>, secret: seq<byte>): Option<seq<byte>>
    requires Sized(h)
  {
    if |clientRandom| != 32 || |serverRandom| != 32 || |secret| == 0 then None
    else
      var prk := Extract(h, clientRandom + serverRandom, secret);
      OutputDefined(h, prk, KEY_INFO, KEY_SIZE);
      Some(Output(h, prk, KEY_INFO, KEY_SIZE))
  }

  /** With a hash of 32 bytes the key is one block of HKDF-Expand, keyed by what HKDF-Extract makes of the
      shared secret, with both randoms as its salt. */
  lemma OneBlockKey(h: Hash, clientRandom: seq<byte>, serverRandom: seq<byte>, secret: seq<byte>)
    requires Sized(h) && h.size == 32 && |clientRandom| == |serverRandom| == 32 && secret != []
    ensures DeriveKey(h, clientRandom, serverRandom, secret)
            == Some(h.mac(h.mac(clientRandom + serverRandom, secret),
                          [0x7A, 0x70, 0x74, 0x2D, 0x73, 0x65, 0x73, 0x73, 0x69, 0x6F, 0x6E, 0x2D, 0x6B, 0x65, 0x79, 1]))
  {
    var prk := Extract(h, clientRandom + serverRandom, secret);
    OutputDefined(h, prk, KEY_INFO, KEY_SIZE);
    assert Rounds(KEY_SIZE, 32) == 1;
    var last := KEY_INFO + [1];
    assert last == [0x7A, 0x70, 0x74, 0x2D, 0x73, 0x65, 0x73, 0x73, 0x69, 0x6F, 0x6E, 0x2D, 0x6B, 0x65, 0x79, 1];
    assert T(h, prk, KEY_INFO, 0) + KEY_INFO + [1] == last;
    var block := T(h, prk, KEY_INFO, 1);
    assert Blocks(h, prk, KEY_INFO, 0) + block == block && block[..32] == block;
  }

  /** The key a party derives from what it knows: `DeriveSharedSecret`, then `DeriveSessionKey`. */
  ghost function PartyKey(p: Party, cfg: Config, suite: Suite): Option<seq<byte>>
    requires Sized(suite.hash)
  {
    if cfg.privateKey.None? || p.peerPublicKey.None? then None
    else
      match suite.ecdh(cfg.privateKey.value, p.peerPublicKey.value)
      case None => None
      case Some(secret) => DeriveKey(suite.hash, p.clientRandom, p.serverRandom, secret)
  }

  // The messages

  function HelloFrame(cfg: Config, suite: Suite, random: seq<byte>): Frame {
    NewFrame(TYPE_CLIENT_HELLO, HelloBytes(cfg.authMethod, random, OwnPublicKey(cfg, suite)))
  }

  function ChallengeFrame(cfg: Config, suite: Suite, random: seq<byte>, salt: seq<byte>): Frame {
    NewFrame(TYPE_SERVER_CHALLENGE, ChallengeBytes(random, OwnPublicKey(cfg, suite), salt, seq(64, _ => 0 as byte)))
  }

  function ResponseFrame(authData: seq<byte>): Frame {
    NewFrame(TYPE_CLIENT_RESPONSE, ResponseBytes(authData, seq(32, _ => 0 as byte)))
  }

  function SuccessFrame(sessionID: seq<byte>, ttl: uint32): Frame
    requires |sessionID| == 16
  {
    NewFrame(TYPE_SERVER_SUCCESS, SuccessBytes(sessionID, ttl))
  }

  lemma OnTheWire(kind: byte, payload: seq<byte>)
    requires |payload| < TWO_TO_THE_32
    ensures FrameBytes(NewFrame(kind, payload))
            == [0x20, 0x50, 0x41, 0x5A, 1, kind, 0, 0] + Le32(|payload|) + payload
  {
    assert Le32(MAGIC) == [0x20, 0x50, 0x41, 0x5A];
  }

  /** The four messages of a handshake, byte by byte. */
  lemma MessagesOnTheWire(cfg: Config, suite: Suite, random: seq<byte>, salt: seq<byte>, data: seq<byte>, id: seq<byte>)
    requires |random| == 32 && |salt| == 16 && |data| <= 65535 && |id| == 16 && |OwnPublicKey(cfg, suite)| <= 65535
    ensures var key, front := OwnPublicKey(cfg, suite), [0x20, 0x50, 0x41, 0x5A, 1];
            && FrameBytes(HelloFrame(cfg, suite, random))
               == front + [1, 0, 0] + Le32(35 + |key|) + ([cfg.authMethod] + random + Le16(|key|) + key)
            && FrameBytes(ChallengeFrame(cfg, suite, random, salt))
               == front + [2, 0, 0] + Le32(116 + |key|)
                  + (random + Le16(|key|) + key + salt + [64, 0] + seq(64, _ => 0 as byte))
            && FrameBytes(ResponseFrame(data))
               == front + [3, 0, 0] + Le32(34 + |data|) + (Le16(|data|) + data + seq(32, _ => 0 as byte))
            && FrameBytes(SuccessFrame(id, cfg.ttl)) == front + [4, 0, 0] + Le32(20) + (id + Le32(cfg.ttl))
  {
    hide FrameBytes, HelloBytes, ChallengeBytes, ResponseBytes, SuccessBytes, Le32, NewFrame, OwnPublicKey;
    var key := OwnPublicKey(cfg, suite);
    HelloPayload(cfg.authMethod, random, key);
    ChallengePayload(random, key, salt);
    ResponsePayload(data, id, cfg.ttl);
    OnTheWire(TYPE_CLIENT_HELLO, HelloBytes(cfg.authMethod, random, key));
    OnTheWire(TYPE_SERVER_CHALLENGE, ChallengeBytes(random, key, salt, seq(64, _ => 0 as byte)));
    OnTheWire(TYPE_CLIENT_RESPONSE, ResponseBytes(data, seq(32, _ => 0 as byte)));
    OnTheWire(TYPE_SERVER_SUCCESS, SuccessBytes(id, cfg.ttl));
    FrontIs(1);
    FrontIs(2);
    FrontIs(3);
    FrontIs(4);
  }

  lemma FrontIs(kind: byte)
    ensures [0x20, 0x50, 0x41, 0x5A, 1] + [kind, 0, 0] == [0x20, 0x50, 0x41, 0x5A, 1, kind, 0, 0]
  {
  }

  lemma HelloPayload(authMethod: byte, random: seq<byte>, key: seq<byte>)
    requires |random| == 32 && |key| <= 65535
    ensures var p := HelloBytes(authMethod, random, key);
            p == [authMethod] + random + Le16(|key|) + key && |p| == 35 + |key|
  {
  }

  lemma ChallengePayload(random: seq<byte>, key: seq<byte>, salt: seq<byte>)
    requires |random| == 32 && |salt| == 16 && |key| <= 65535
    ensures var signature := seq(64, _ => 0 as byte);
            var p := ChallengeBytes(random, key, salt, signature);
            p == random + Le16(|key|) + key + salt + [64, 0] + signature && |p| == 116 + |key|
  {
    assert Le16(64) == [64, 0];
  }

  lemma ResponsePayload(data: seq<byte>, id: seq<byte>, ttl: uint32)
    requires |data| <= 65535 && |id| == 16
    ensures var zeros := seq(32, _ => 0 as byte);
            var p := ResponseBytes(data, zeros);
            p == Le16(|data|) + data + zeros && |p| == 34 + |data|
    ensures SuccessBytes(id, ttl) == id + Le32(ttl) && |SuccessBytes(id, ttl)| == 20
  {
    var zeros := seq(32, _ => 0 as byte);
    assert zeros[..32] == zeros && id[..16] == id;
  }

  // What each receiver takes from a frame; `None` is an error, or a panic of the decoder

  function ReceiveHello(p: Party, f: Frame, supported: bool, cfg: Config): Option<Party> {
    if f.kind != TYPE_CLIENT_HELLO then None
    else
      match DecodeClientHello(f.payload)
      case Err(_) => None
      case Ok(hello) =>
        if cfg.hasManager && !supported then None
        else Some(p.(state := ClientHelloSent, clientRandom := hello.random, peerPublicKey := Some(hello.publicKey),
                     chosenMethod := hello.authMethod))
  }

  function ReceiveChallenge(p: Party, f: Frame): Option<Party> {
    if f.kind != TYPE_SERVER_CHALLENGE then None
    else
      match DecodeServerChallenge(f.payload)
      case Err(_) => None
      case Ok(ch) => Some(p.(state := ServerChallengeSent, serverRandom := ch.random,
                             peerPublicKey := Some(ch.publicKey), salt := ch.salt))
  }

  /** `valid` is the verdict of the authentication manager, which is asked only if there is one. */
  function ReceiveResponse(p: Party, f: Frame, valid: bool, cfg: Config): Option<Party> {
    if f.kind != TYPE_CLIENT_RESPONSE then None
    else
      match DecodeClientResponse(f.payload)
      case Err(_) => None
      case Ok((authData, _)) =>
        if cfg.hasManager && !valid then None else Some(p.(state := ClientResponseSent, authData := authData))
  }

  function WithSession(p: Party, id: seq<byte>, key: seq<byte>): Party {
    p.(sessionID := id, sessionKey := key)
  }

  ghost function ReceiveSuccess(p: Party, f: Frame, cfg: Config, suite: Suite): Option<Party>
    requires Sized(suite.hash)
  {
    if f.kind != TYPE_SERVER_SUCCESS then None
    else
      match (DecodeServerSuccess(f.payload), PartyKey(p, cfg, suite))
      case (Ok((id, _)), Some(key)) => Some(Finished(WithSession(p, id, key)))
      case _ => None
  }

  function Finished(p: Party): Party {
    p.(state := Authenticated, session := Some(Session(p.sessionID, p.sessionKey, p.peerPublicKey)))
  }

  // The two parties and their channel

  /** A party with the frames it has tried to send, the bytes it got out, how many frames and bytes it
      has taken from the other's, and whether its handshake is still going on or has succeeded. */
  datatype Side = Side(p: Party, msgs: seq<Frame>, sent: seq<byte>, got: nat, read: nat, live: bool)

  /** `accepted`: the server has accepted a client's response. */
  datatype Net = Net(c: Side, s: Side, accepted: bool)

  const FreshSide := Side(FreshParty, [], [], 0, 0, true)

  /** Random values, verdicts, and write failures are up to the environment: a failed write may have
      sent any prefix. */
  datatype Event =
    | ClientHello(random: seq<byte>, ok: bool, cut: nat)
    | ServerReadsHello(supported: bool)
    | ServerChallenge(random: seq<byte>, salt: seq<byte>, ok: bool, cut: nat)
    | ClientReadsChallenge
    | ClientResponse(authData: seq<byte>, ok: bool, cut: nat)
    | ServerReadsResponse(valid: bool)
    | ServerSuccess(id: seq<byte>, ok: bool, cut: nat)
    | ClientReadsSuccess
    | ClientGivesUp
    | ServerGivesUp

  /** `side` writes frame `f`; `p` is the party it has become if the write succeeds. */
  function Send(side: Side, before: Party, after: Party, f: Frame, ok: bool, cut: nat): Side {
    var bytes := FrameBytes(f);
    if ok then Side(after, side.msgs + [f], side.sent + bytes, side.got, side.read, true)
    else Side(before, side.msgs + [f], side.sent + bytes[..Min(cut, |bytes|)], side.got, side.read, false)
  }

  /** `side` has read a frame of `n` bytes; a party that is `None` has failed. */
  function Took(side: Side, p: Option<Party>, n: nat): Side {
    match p
    case None => side.(live := false)
    case Some(q) => side.(p := q, got := side.got + 1, read := side.read + n)
  }

  /** The next frame of what `other` has sent, as far as `side` has not taken it. */
  function Next(side: Side, other: Side): Option<(Frame, nat)> {
    if side.read > |other.sent| then None
    else match ReadFrom(other.sent[side.read..]) case Err(_) => None case Ok(r) => Some(r)
  }

  ghost predicate Step(n: Net, n': Net, ev: Event, ccfg: Config, scfg: Config, suite: Suite)
    requires Sized(suite.hash)
  {
    var c, s := n.c, n.s;
    match ev
    case ClientHello(random, ok, cut) =>
      var p := c.p.(clientRandom := random);
      c.live && c.p.state == Idle && |random| == 32
      && n' == n.(c := Send(c, p, p.(state := ClientHelloSent), HelloFrame(ccfg, suite, random), ok, cut))
    case ServerReadsHello(supported) =>
      s.live && s.p.state == Idle && Next(s, c).Some?
      && var (f, k) := Next(s, c).value; n' == n.(s := Took(s, ReceiveHello(s.p, f, supported, scfg), k))
    case ServerChallenge(random, salt, ok, cut) =>
      var p := s.p.(serverRandom := random, salt := salt);
      s.live && s.p.state == ClientHelloSent && |random| == 32 && |salt| == 16
      && n' == n.(s := Send(s, p, p.(state := ServerChallengeSent), ChallengeFrame(scfg, suite, random, salt), ok, cut))
    case ClientReadsChallenge =>
      c.live && c.p.state == ClientHelloSent && Next(c, s).Some?
      && var (f, k) := Next(c, s).value; n' == n.(c := Took(c, ReceiveChallenge(c.p, f), k))
    case ClientResponse(authData, ok, cut) =>
      var p := c.p.(authData := authData);
      c.live && c.p.state == ServerChallengeSent
      && n' == n.(c := Send(c, p, p.(state := ClientResponseSent), ResponseFrame(authData), ok, cut))
    case ServerReadsResponse(valid) =>
      s.live && s.p.state == ServerChallengeSent && Next(s, c).Some?
      && var (f, k) := Next(s, c).value;
         var p := ReceiveResponse(s.p, f, valid, scfg); n' == n.(s := Took(s, p, k), accepted := p.Some?)
    case ServerSuccess(id, ok, cut) =>
      s.live && s.p.state == ClientResponseSent && |id| == 16
      && (match PartyKey(s.p, scfg, suite)
          case None => n' == n.(s := s.(live := false))
          case Some(key) =>
            var p := WithSession(s.p, id, key);
            n' == n.(s := Send(s, p, Finished(p), SuccessFrame(id, scfg.ttl), ok, cut)))
    case ClientReadsSuccess =>
      c.live && c.p.state == ClientResponseSent && Next(c, s).Some?
      && var (f, k) := Next(c, s).value; n' == n.(c := Took(c, ReceiveSuccess(c.p, f, ccfg, suite), k))
    case ClientGivesUp => n' == n.(c := c.(live := false))
    case ServerGivesUp => n' == n.(s := s.(live := false))
  }

  ghost predicate Run(states: seq<Net>, events: seq<Event>, ccfg: Config, scfg: Config, suite: Suite)
    requires Sized(suite.hash)
  {
    && |states| == |events| + 1 && states[0] == Net(FreshSide, FreshSide, false)
    && forall k :: 0 <= k < |events| ==> Step(states[k], states[k + 1], events[k], ccfg, scfg, suite)
  }

  // Frames through the channel

  function EncodeAll(fs: seq<Frame>): seq<byte> {
    if fs == [] then [] else EncodeAll(fs[..|fs| - 1]) + FrameBytes(fs[|fs| - 1])
  }

  predicate WellFormed(f: Frame) {
    f.magic == MAGIC && f.version == VERSION && f.length == |f.payload|
  }

  lemma EncodeSnoc(fs: seq<Frame>, f: Frame)
    ensures EncodeAll(fs + [f]) == EncodeAll(fs) + FrameBytes(f)
  {
    assert (fs + [f])[..|fs|] == fs;
  }

  lemma {:induction false} EncodeSplit(fs: seq<Frame>, k: nat)
    requires k < |fs|
    ensures exists rest :: EncodeAll(fs) == EncodeAll(fs[..k]) + FrameBytes(fs[k]) + rest
    decreases |fs|
  {
    var init, last := fs[..|fs| - 1], fs[|fs| - 1];
    if k == |fs| - 1 {
      assert EncodeAll(fs) == EncodeAll(fs[..k]) + FrameBytes(fs[k]) + [];
    } else {
      EncodeSplit(init, k);
      var rest :| EncodeAll(init) == EncodeAll(init[..k]) + FrameBytes(init[k]) + rest;
      assert init[..k] == fs[..k];
      Assoc(EncodeAll(fs[..k]) + FrameBytes(fs[k]), rest, FrameBytes(last));
      assert EncodeAll(fs) == EncodeAll(fs[..k]) + FrameBytes(fs[k]) + (rest + FrameBytes(last));
    }
  }

  /** Once a whole frame is there, more bytes change nothing. */
  lemma ReadFromLonger(data: seq<byte>, more: seq<byte>)
    requires ReadFrom(data).Ok?
    ensures ReadFrom(data + more) == ReadFrom(data)
  {
    assert (data + more)[..HEADER_SIZE] == data[..HEADER_SIZE];
    var f := Header(data[..HEADER_SIZE]).value;
    assert (data + more)[HEADER_SIZE..HEADER_SIZE + f.length] == data[HEADER_SIZE..HEADER_SIZE + f.length];
  }

  /** What has got out, and what the other side has taken of it. */
  predicate Channel(from: Side, to: Side) {
    && (forall f :: f in from.msgs ==> WellFormed(f))
    && from.sent <= EncodeAll(from.msgs) && (from.live ==> from.sent == EncodeAll(from.msgs))
    && to.got <= |from.msgs| && to.read == |EncodeAll(from.msgs[..to.got])| <= |from.sent|
  }

  /** In a cut-off stream, a frame that can be read at the start of frame `f` is `f`. */
  lemma CutStream(before: seq<byte>, f: Frame, rest: seq<byte>, sent: seq<byte>)
    requires WellFormed(f) && sent <= before + (FrameBytes(f) + rest) && |before| <= |sent|
    requires ReadFrom(sent[|before|..]).Ok?
    ensures ReadFrom(sent[|before|..]).value == (f, |FrameBytes(f)|) && |before| + |FrameBytes(f)| <= |sent|
  {
    var tail, more := sent[|before|..], (FrameBytes(f) + rest)[|sent| - |before|..];
    assert tail + more == FrameBytes(f) + rest;
    ReadFromLonger(tail, more);
    ReadBack(f, rest);
    ReadFromFits(tail);
  }

  lemma NothingToRead(from: Side, to: Side)
    requires Channel(from, to)
    ensures to.got == |from.msgs| ==> Next(to, from).None?
  {
    assert from.msgs[..|from.msgs|] == from.msgs;
  }

  /** The reader gets exactly the next frame that was sent. */
  lemma NextIsNext(from: Side, to: Side)
    requires Channel(from, to) && Next(to, from).Some?
    ensures to.got < |from.msgs| && Next(to, from).value == (from.msgs[to.got], |FrameBytes(from.msgs[to.got])|)
    ensures to.read + |FrameBytes(from.msgs[to.got])| == |EncodeAll(from.msgs[..to.got + 1])| <= |from.sent|
  {
    hide FrameBytes, EncodeAll, ReadFrom;
    NothingToRead(from, to);
    var k := to.got;
    EncodeSplit(from.msgs, k);
    var before, f := EncodeAll(from.msgs[..k]), from.msgs[k];
    var rest :| EncodeAll(from.msgs) == before + FrameBytes(f) + rest;
    Assoc(before, FrameBytes(f), rest);
    CutStream(before, f, rest, from.sent);
    EncodeSnoc(from.msgs[..k], f);
    assert from.msgs[..k] + [f] == from.msgs[..k + 1];
  }

  lemma ReadFromFits(data: seq<byte>)
    requires ReadFrom(data).Ok?
    ensures ReadFrom(data).value.1 <= |data|
  {
  }

  lemma SendKeepsChannel(from: Side, to: Side, before: Party, after: Party, f: Frame, ok: bool, cut: nat)
    requires Channel(from, to) && from.live && WellFormed(f)
    ensures Channel(Send(from, before, after, f, ok, cut), to)
  {
    EncodeSnoc(from.msgs, f);
    assert (from.msgs + [f])[..to.got] == from.msgs[..to.got];
  }

  lemma TookKeepsChannel(from: Side, to: Side, p: Option<Party>)
    requires Channel(from, to) && Next(to, from).Some?
    ensures Channel(from, Took(to, p, Next(to, from).value.1))
  {
    NextIsNext(from, to);
  }
}
