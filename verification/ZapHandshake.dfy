/** The `Handshake` object of internal/protocol/zap/handshake.go.  Its steps are proved against
    ZapProtocol. */
module ZapHandshake {
  import opened Bytes
  import opened Hkdf
  import opened Readers
  import opened ZapFrame
  import opened ZapProtocol

  /** One end of a connection. */
  class Wire {
    const reader: ByteReader
    var outgoing: seq<byte>

    constructor (reader: ByteReader)
      ensures this.reader == reader && outgoing == []
    {
      this.reader := reader;
      outgoing := [];
    }

    /** All of it; or, with an error, what goes out before the `cut`. */
    method Write(b: seq<byte>, cut: Option<nat>) returns (ok: bool)
      modifies this`outgoing
      ensures ok == cut.None? && outgoing == old(outgoing) + Through(b, cut)
    {
      ok := cut.None?;
      var n := if cut.Some? && cut.value < |b| then cut.value else |b|;
      assert b[..|b|] == b;
      outgoing := outgoing + b[..n];
    }

    /** More bytes of the peer arrive. */
    method Await(arrived: seq<byte>)
      modifies reader
      ensures reader.data == old(reader.data) + arrived
    {
      reader.data := reader.data + arrived;
    }
  }

  /** What a write of `b` that is cut off, or not, puts on the wire. */
  function Through(b: seq<byte>, cut: Option<nat>): seq<byte> {
    if cut.Some? && cut.value < |b| then b[..cut.value] else b
  }

  lemma WentThrough(b: seq<byte>)
    ensures Through(b, None) == b
  {
  }

  /** `DeriveSessionKey`. */
  method DeriveSessionKey(h: Hash, clientRandom: seq<byte>, serverRandom: seq<byte>, secret: seq<byte>)
    returns (key: Option<seq<byte>>)
    requires Sized(h)
    ensures key == DeriveKey(h, clientRandom, serverRandom, secret)
    ensures key.Some? <==> |clientRandom| == 32 && |serverRandom| == 32 && secret != []
    ensures key.Some? && h.size == 32 ==>
              key.value == h.mac(h.mac(clientRandom + serverRandom, secret),
                                 [0x7A, 0x70, 0x74, 0x2D, 0x73, 0x65, 0x73, 0x73,
                                  0x69, 0x6F, 0x6E, 0x2D, 0x6B, 0x65, 0x79, 1])
  {
    if |clientRandom| != 32 || |serverRandom| != 32 || |secret| == 0 {
      return None;
    }
    var r := SimpleHkdf(h, secret, clientRandom + serverRandom, KEY_INFO, KEY_SIZE);
    key := Some(r.value);
    if h.size == 32 {
      OneBlockKey(h, clientRandom, serverRandom, secret);
    }
  }

  class Handshake {
    const cfg: Config
    const suite: Suite
    var state: HandshakeState
    var clientRandom: seq<byte>
    var serverRandom: seq<byte>
    var salt: seq<byte>
    var chosenAuthMethod: byte
    var peerPublicKey: Option<seq<byte>>
    var sessionID: seq<byte>
    var sessionKey: seq<byte>
    ghost var authData: seq<byte>
    ghost var session: Option<Session>

    constructor (cfg: Config, suite: Suite)
      ensures this.cfg == cfg && this.suite == suite && View() == FreshParty
    {
      this.cfg, this.suite := cfg, suite;
      state, clientRandom, serverRandom, salt := Idle, [], [], [];
      chosenAuthMethod, peerPublicKey, sessionID, sessionKey := 0, None, [], [];
      authData, session := [], None;
    }

    ghost function View(): Party
      reads this
    {
      Party(state, clientRandom, serverRandom, salt, chosenAuthMethod, peerPublicKey, authData, sessionID,
            sessionKey, session)
    }

    /** Reads one frame when `arrived` has arrived. */
    method AwaitFrame(conn: Wire, arrived: seq<byte>) returns (frame: Option<Frame>)
      modifies conn.reader
      ensures frame == HeadOf(old(conn.reader.data) + arrived)
      ensures frame.Some? ==> conn.reader.data == RestOf(old(conn.reader.data) + arrived)
    {
      conn.Await(arrived);
      var r := ReadFrame(conn.reader);
      frame := if r.Ok? then Some(r.value) else None;
    }

    /** `random` is what the generator gives. */
    method SendClientHello(conn: Wire, random: Option<seq<byte>>, cut: Option<nat>) returns (ok: bool)
      modifies this`clientRandom, conn`outgoing
      ensures ok <==> random.Some? && cut.None?
      ensures random.Some? ==>
                && clientRandom == random.value
                && conn.outgoing == old(conn.outgoing) + Through(FrameBytes(HelloFrame(cfg, suite, clientRandom)), cut)
      ensures random.None? ==> clientRandom == old(clientRandom) && conn.outgoing == old(conn.outgoing)
    {
      if random.None? {
        return false;
      }
      clientRandom := random.value;
      var payload := EncodeClientHello(cfg.authMethod, clientRandom, OwnPublicKey(cfg, suite));
      var data := Encode(NewFrame(TYPE_CLIENT_HELLO, payload[..]));
      ok := conn.Write(data, cut);
    }

    method ReceiveClientHello(conn: Wire, arrived: seq<byte>, supported: bool) returns (ok: bool)
      modifies this`clientRandom, this`peerPublicKey, this`chosenAuthMethod, conn.reader
      ensures var f := HeadOf(old(conn.reader.data) + arrived);
              && (ok <==> f.Some? && ReceiveHello(old(View()), f.value, supported, cfg).Some?)
              && (ok ==> peerPublicKey.Some?)
              && (ok ==> Some(View().(state := ClientHelloSent)) == ReceiveHello(old(View()), f.value, supported, cfg))
      ensures ok ==> conn.reader.data == RestOf(old(conn.reader.data) + arrived)
    {
      var frame := AwaitFrame(conn, arrived);
      if frame.None? || frame.value.kind != TYPE_CLIENT_HELLO {
        return false;
      }
      var hello := DecodeClientHello(frame.value.payload);
      if hello.Err? {
        return false;
      }
      clientRandom, peerPublicKey := hello.value.random, Some(hello.value.publicKey);
      chosenAuthMethod := hello.value.authMethod;
      ok := !cfg.hasManager || supported;
    }

    /** `random` and `newSalt` are what the generator gives. */
    method SendServerChallenge(conn: Wire, random: Option<seq<byte>>, newSalt: Option<seq<byte>>, cut: Option<nat>)
      returns (ok: bool)
      modifies this`serverRandom, this`salt, conn`outgoing
      ensures ok <==> random.Some? && newSalt.Some? && cut.None?
      ensures random.Some? && newSalt.Some? ==>
                && serverRandom == random.value && salt == newSalt.value
                && conn.outgoing == old(conn.outgoing)
                                    + Through(FrameBytes(ChallengeFrame(cfg, suite, serverRandom, salt)), cut)
      ensures random.None? || newSalt.None? ==> conn.outgoing == old(conn.outgoing)
    {
      if random.None? {
        return false;
      }
      serverRandom := random.value;
      if newSalt.None? {
        return false;
      }
      salt := newSalt.value;
      var payload := EncodeServerChallenge(serverRandom, OwnPublicKey(cfg, suite), salt, seq(64, _ => 0 as byte));
      var data := Encode(NewFrame(TYPE_SERVER_CHALLENGE, payload[..]));
      ok := conn.Write(data, cut);
    }

    method ReceiveServerChallenge(conn: Wire, arrived: seq<byte>) returns (ok: bool)
      modifies this`serverRandom, this`peerPublicKey, this`salt, conn.reader
      ensures var f := HeadOf(old(conn.reader.data) + arrived);
              && (ok <==> f.Some? && ReceiveChallenge(old(View()), f.value).Some?)
              && (ok ==> peerPublicKey.Some?)
              && (ok ==> Some(View().(state := ServerChallengeSent)) == ReceiveChallenge(old(View()), f.value))
      ensures ok ==> conn.reader.data == RestOf(old(conn.reader.data) + arrived)
    {
      var frame := AwaitFrame(conn, arrived);
      if frame.None? || frame.value.kind != TYPE_SERVER_CHALLENGE {
        return false;
      }
      var challenge := DecodeServerChallenge(frame.value.payload);
      if challenge.Err? {
        return false;
      }
      serverRandom, peerPublicKey, salt := challenge.value.random, Some(challenge.value.publicKey), challenge.value.salt;
      ok := true;
    }

    /** `data` is what the authentication provider answers to the salt; 32 zero bytes without a
        manager. */
    method SendClientResponse(conn: Wire, data: Option<seq<byte>>, cut: Option<nat>) returns (ok: bool)
      modifies this`authData, conn`outgoing
      ensures ok <==> (cfg.hasManager ==> data.Some?) && cut.None?
      ensures if cfg.hasManager && data.None? then conn.outgoing == old(conn.outgoing)
              else
                && authData == Answered(cfg, data)
                && conn.outgoing == old(conn.outgoing) + Through(FrameBytes(ResponseFrame(authData)), cut)
    {
      var auth := if cfg.hasManager then data else Some(seq(32, _ => 0 as byte));
      if auth.None? {
        return false;
      }
      authData := auth.value;
      var payload := EncodeClientResponse(auth.value, seq(32, _ => 0 as byte));
      var bytes := Encode(NewFrame(TYPE_CLIENT_RESPONSE, payload[..]));
      ok := conn.Write(bytes, cut);
    }

    method ReceiveClientResponse(conn: Wire, arrived: seq<byte>, valid: bool) returns (ok: bool)
      modifies this`authData, conn.reader
      ensures var f := HeadOf(old(conn.reader.data) + arrived);
              && (ok <==> f.Some? && ReceiveResponse(old(View()), f.value, valid, cfg).Some?)
              && (ok ==> Some(View().(state := ClientResponseSent)) == ReceiveResponse(old(View()), f.value, valid, cfg))
      ensures ok ==> conn.reader.data == RestOf(old(conn.reader.data) + arrived)
    {
      var frame := AwaitFrame(conn, arrived);
      if frame.None? || frame.value.kind != TYPE_CLIENT_RESPONSE {
        return false;
      }
      var response := DecodeClientResponse(frame.value.payload);
      if response.Err? {
        return false;
      }
      authData := response.value.0;
      ok := !cfg.hasManager || valid;
    }

    /** Shared secret and session key; without a peer key, the `random` one that the generator gives. */
    method EstablishKey(random: Option<seq<byte>>) returns (ok: bool)
      requires Sized(suite.hash)
      modifies this`sessionKey
      ensures var key := if peerPublicKey.Some? then PartyKey(View(), cfg, suite) else random;
              && ok == key.Some? && sessionKey == (if ok then key.value else old(sessionKey))
    {
      if peerPublicKey.None? {
        ok := random.Some?;
        if ok {
          sessionKey := random.value;
        }
        return;
      }
      if cfg.privateKey.None? {
        return false;
      }
      var secret := suite.ecdh(cfg.privateKey.value, peerPublicKey.value);
      if secret.None? {
        return false;
      }
      var key := DeriveSessionKey(suite.hash, clientRandom, serverRandom, secret.value);
      if key.None? {
        return false;
      }
      sessionKey := key.value;
      ok := true;
    }

    /** `id` is what the generator gives. */
    method SendServerSuccess(conn: Wire, id: Option<seq<byte>>, cut: Option<nat>) returns (result: Option<Session>)
      requires Sized(suite.hash) && peerPublicKey.Some? && (id.Some? ==> |id.value| == 16)
      modifies this`sessionID, this`sessionKey, conn`outgoing
      ensures result.Some? <==> id.Some? && PartyKey(old(View()), cfg, suite).Some? && cut.None?
      ensures result.Some? ==>
                && View() == WithSession(old(View()), id.value, PartyKey(old(View()), cfg, suite).value)
                && result == Some(Session(sessionID, sessionKey, peerPublicKey))
      ensures conn.outgoing == old(conn.outgoing)
                               + (if id.Some? && PartyKey(old(View()), cfg, suite).Some?
                                  then Through(FrameBytes(SuccessFrame(id.value, cfg.ttl)), cut) else [])
    {
      AppendNothing(conn.outgoing);
      if id.None? {
        return None;
      }
      sessionID := id.value;
      var derived := EstablishKey(None);
      if !derived {
        return None;
      }
      var payload := EncodeServerSuccess(sessionID, cfg.ttl);
      var data := Encode(NewFrame(TYPE_SERVER_SUCCESS, payload[..]));
      var ok := conn.Write(data, cut);
      result := if ok then Some(Session(sessionID, sessionKey, peerPublicKey)) else None;
    }

    method ReceiveServerSuccess(conn: Wire, arrived: seq<byte>) returns (result: Option<Session>)
      requires Sized(suite.hash) && peerPublicKey.Some?
      modifies this`sessionID, this`sessionKey, conn.reader
      ensures var f := HeadOf(old(conn.reader.data) + arrived);
              && (result.Some? <==> f.Some? && ReceiveSuccess(old(View()), f.value, cfg, suite).Some?)
              && (result.Some? ==>
                    && result == Some(Session(sessionID, sessionKey, peerPublicKey))
                    && ReceiveSuccess(old(View()), f.value, cfg, suite) == Some(Finished(View())))
      ensures result.Some? ==> conn.reader.data == RestOf(old(conn.reader.data) + arrived)
    {
      var frame := AwaitFrame(conn, arrived);
      if frame.None? || frame.value.kind != TYPE_SERVER_SUCCESS {
        return None;
      }
      var success := DecodeServerSuccess(frame.value.payload);
      if success.Err? {
        return None;
      }
      sessionID := success.value.0;
      var derived := EstablishKey(None);
      result := if derived then Some(Session(sessionID, sessionKey, peerPublicKey)) else None;
    }

    /** `DoClientHandshake` in surroundings `w`. */
    method DoClientHandshake(conn: Wire, w: ClientWorld) returns (result: Option<Session>)
      requires Sized(suite.hash) && w.Sized()
      modifies this, conn`outgoing, conn.reader
      ensures result.Some? <==> ClientEnd(old(View()), old(conn.reader.data), w, cfg, suite).Some?
      ensures result.Some? ==>
                && ClientEnd(old(View()), old(conn.reader.data), w, cfg, suite) == Some(View()) && result == session
                && conn.reader.data == RestOf(RestOf(old(conn.reader.data) + w.first) + w.second)
      ensures conn.outgoing == old(conn.outgoing) + ClientSends(old(View()), old(conn.reader.data), w, cfg, suite)
    {
      hide FrameBytes, ReceiveChallenge, ReceiveSuccess, HeadOf, RestOf, Through, HelloFrame, ResponseFrame;
      ghost var start, outgoing, already := View(), conn.outgoing, conn.reader.data;
      AppendNothing(outgoing);
      var ok := SendClientHello(conn, w.random, w.hello);
      if !ok {
        return None;
      }
      state := ClientHelloSent;
      assert View() == Greeted(start, w.random.value);
      ok := ReceiveServerChallenge(conn, w.first);
      if !ok {
        return None;
      }
      state := ServerChallengeSent;
      result := FinishClient(conn, w, start, already);
      ClientSent(outgoing, start, already, w, cfg, suite);
    }

    /** Its last two steps. */
    method FinishClient(conn: Wire, w: ClientWorld, ghost start: Party, ghost already: seq<byte>)
      returns (result: Option<Session>)
      requires Sized(suite.hash) && peerPublicKey.Some? && w.random.Some? && w.hello.None?
      requires Challenged(start, already, w) == Some(View()) && conn.reader.data == RestOf(already + w.first)
      modifies this, conn`outgoing, conn.reader
      ensures result.Some? <==> ClientEnd(start, already, w, cfg, suite).Some?
      ensures result.Some? ==>
                && ClientEnd(start, already, w, cfg, suite) == Some(View()) && result == session
                && conn.reader.data == RestOf(RestOf(already + w.first) + w.second)
      ensures conn.outgoing == old(conn.outgoing) + ResponseSent(w, cfg)
    {
      hide FrameBytes, ReceiveSuccess, HeadOf, RestOf, Challenged, Through;
      ghost var challenged := View();
      AppendNothing(conn.outgoing);
      var ok := SendClientResponse(conn, w.data, w.response);
      if !ok {
        return None;
      }
      state := ClientResponseSent;
      assert View() == Responded(challenged, Answered(cfg, w.data));
      result := ReceiveServerSuccess(conn, w.second);
      if result.Some? {
        session, state := result, Authenticated;
      }
    }

    /** `DoServerHandshake` in surroundings `w`. */
    method DoServerHandshake(conn: Wire, w: ServerWorld) returns (result: Option<Session>)
      requires Sized(suite.hash) && w.Sized()
      modifies this, conn`outgoing, conn.reader
      ensures result.Some? <==> ServerEnd(old(View()), old(conn.reader.data), w, cfg, suite).Some?
      ensures result.Some? ==>
                && ServerEnd(old(View()), old(conn.reader.data), w, cfg, suite) == Some(View()) && result == session
                && conn.reader.data == RestOf(RestOf(old(conn.reader.data) + w.first) + w.second)
      ensures conn.outgoing == old(conn.outgoing) + ServerSends(old(View()), old(conn.reader.data), w, cfg, suite)
    {
      hide FrameBytes, ReceiveHello, ReceiveResponse, HeadOf, RestOf, Through, PartyKey, ServerEnd, ServerSends, SuccessSent;
      ghost var start, outgoing, already := View(), conn.outgoing, conn.reader.data;
      AppendNothing(outgoing);
      NotHailed(start, already, w, cfg, suite);
      var ok := ReceiveClientHello(conn, w.first, w.supported);
      if !ok {
        return None;
      }
      state := ClientHelloSent;
      ok := SendServerChallenge(conn, w.random, w.salt, w.challenge);
      if !ok {
        return None;
      }
      state := ServerChallengeSent;
      assert Some(View()) == Hailed(start, already, w, cfg);
      WentThrough(FrameBytes(ChallengeFrame(cfg, suite, serverRandom, salt)));
      result := FinishServer(conn, w, start, already);
      ServerSent(outgoing, start, already, w, cfg, suite);
    }

    /** Its last two steps. */
    method FinishServer(conn: Wire, w: ServerWorld, ghost start: Party, ghost already: seq<byte>)
      returns (result: Option<Session>)
      requires Sized(suite.hash) && w.Sized() && peerPublicKey.Some? && w.random.Some? && w.salt.Some? && w.challenge.None?
      requires Hailed(start, already, w, cfg) == Some(View()) && conn.reader.data == RestOf(already + w.first)
      modifies this, conn`outgoing, conn.reader
      ensures result.Some? <==> ServerEnd(start, already, w, cfg, suite).Some?
      ensures result.Some? ==>
                && ServerEnd(start, already, w, cfg, suite) == Some(View()) && result == session
                && conn.reader.data == RestOf(RestOf(already + w.first) + w.second)
      ensures conn.outgoing == old(conn.outgoing) + SuccessSent(start, already, w, cfg, suite)
    {
      hide FrameBytes, ReceiveResponse, HeadOf, RestOf, Hailed, Through, PartyKey;
      AppendNothing(conn.outgoing);
      var ok := ReceiveClientResponse(conn, w.second, w.valid);
      if !ok {
        return None;
      }
      state := ClientResponseSent;
      assert Some(View()) == Accepted(start, already, w, cfg);
      result := SendServerSuccess(conn, w.id, w.success);
      if result.Some? {
        session, state := result, Authenticated;
      }
    }
  }

  // What a handshake comes to

  /** The surroundings of a client: what the generator draws, where each write is cut off, if it is, what has
      arrived since the last read when each frame is read, and what the authentication provider answers. */
  datatype ClientWorld = ClientWorld(random: Option<seq<byte>>, hello: Option<nat>, first: seq<byte>,
                                     data: Option<seq<byte>>, response: Option<nat>, second: seq<byte>) {
    /** The generator gives as much as it is asked for. */
    predicate Sized() {
      random.Some? ==> |random.value| == 32
    }
  }

  /** The surroundings of a server; `supported` and `valid` are the verdicts of the authentication manager. */
  datatype ServerWorld = ServerWorld(first: seq<byte>, supported: bool, random: Option<seq<byte>>, salt: Option<seq<byte>>,
                                     challenge: Option<nat>, second: seq<byte>, valid: bool,
                                     id: Option<seq<byte>>, success: Option<nat>) {
    predicate Sized() {
      && (random.Some? ==> |random.value| == 32) && (salt.Some? ==> |salt.value| == 16)
      && (id.Some? ==> |id.value| == 16)
    }
  }

  /** The first frame of what has arrived, and what follows it. */
  function HeadOf(avail: seq<byte>): Option<Frame> {
    if ReadFrom(avail).Ok? then Some(ReadFrom(avail).value.0) else None
  }

  function RestOf(avail: seq<byte>): seq<byte> {
    if ReadFrom(avail).Ok? && ReadFrom(avail).value.1 <= |avail| then avail[ReadFrom(avail).value.1..] else []
  }

  function Greeted(p: Party, random: seq<byte>): Party {
    p.(clientRandom := random, state := ClientHelloSent)
  }

  function Responded(p: Party, authData: seq<byte>): Party {
    p.(authData := authData, state := ClientResponseSent)
  }

  function Challenging(p: Party, random: seq<byte>, salt: seq<byte>): Party {
    p.(serverRandom := random, salt := salt, state := ServerChallengeSent)
  }

  /** The authentication data of a client. */
  function Answered(cfg: Config, data: Option<seq<byte>>): seq<byte> {
    if cfg.hasManager && data.Some? then data.value else seq(32, _ => 0 as byte)
  }

  /** A client that has greeted, after the challenge. */
  function Challenged(p: Party, already: seq<byte>, w: ClientWorld): Option<Party> {
    var f := HeadOf(already + w.first);
    if w.random.None? || w.hello.Some? || f.None? then None else ReceiveChallenge(Greeted(p, w.random.value), f.value)
  }

  /** What a client handshake makes of party `p`, if it succeeds: it greets, takes the challenge off the
      stream, responds, and takes the success frame off it. */
  ghost function ClientEnd(p: Party, already: seq<byte>, w: ClientWorld, cfg: Config, suite: Suite): Option<Party>
    requires Sized(suite.hash)
  {
    var challenged := Challenged(p, already, w);
    var f := HeadOf(RestOf(already + w.first) + w.second);
    if challenged.None? || (cfg.hasManager && w.data.None?) || w.response.Some? || f.None? then None
    else ReceiveSuccess(Responded(challenged.value, Answered(cfg, w.data)), f.value, cfg, suite)
  }

  /** What it puts on the wire, however it ends. */
  function ClientSends(p: Party, already: seq<byte>, w: ClientWorld, cfg: Config, suite: Suite): seq<byte> {
    (if w.random.None? then [] else Through(FrameBytes(HelloFrame(cfg, suite, w.random.value)), w.hello))
    + (if Challenged(p, already, w).None? then [] else ResponseSent(w, cfg))
  }

  function ResponseSent(w: ClientWorld, cfg: Config): seq<byte> {
    if cfg.hasManager && w.data.None? then [] else Through(FrameBytes(ResponseFrame(Answered(cfg, w.data))), w.response)
  }

  /** A server that has taken the hello off the stream and challenged. */
  function Hailed(p: Party, already: seq<byte>, w: ServerWorld, cfg: Config): Option<Party> {
    var greeted := Met(p, already, w, cfg);
    if greeted.None? || w.random.None? || w.salt.None? || w.challenge.Some? then None
    else Some(Challenging(greeted.value, w.random.value, w.salt.value))
  }

  function Met(p: Party, already: seq<byte>, w: ServerWorld, cfg: Config): Option<Party> {
    var f := HeadOf(already + w.first);
    if f.None? then None else ReceiveHello(p, f.value, w.supported, cfg)
  }

  /** After the response. */
  function Accepted(p: Party, already: seq<byte>, w: ServerWorld, cfg: Config): Option<Party> {
    var hailed := Hailed(p, already, w, cfg);
    var f := HeadOf(RestOf(already + w.first) + w.second);
    if hailed.None? || f.None? then None else ReceiveResponse(hailed.value, f.value, w.valid, cfg)
  }

  /** What a server handshake makes of party `p`, if it succeeds: then it derives the key and answers. */
  ghost function ServerEnd(p: Party, already: seq<byte>, w: ServerWorld, cfg: Config, suite: Suite): Option<Party>
    requires Sized(suite.hash)
  {
    var q := Accepted(p, already, w, cfg);
    if q.None? || w.id.None? || PartyKey(q.value, cfg, suite).None? || w.success.Some? then None
    else Some(Finished(WithSession(q.value, w.id.value, PartyKey(q.value, cfg, suite).value)))
  }

  ghost function ServerSends(p: Party, already: seq<byte>, w: ServerWorld, cfg: Config, suite: Suite): seq<byte>
    requires Sized(suite.hash) && w.Sized()
  {
    (if Met(p, already, w, cfg).None? || w.random.None? || w.salt.None? then []
     else Through(FrameBytes(ChallengeFrame(cfg, suite, w.random.value, w.salt.value)), w.challenge))
    + (if Hailed(p, already, w, cfg).None? then [] else SuccessSent(p, already, w, cfg, suite))
  }

  ghost function SuccessSent(p: Party, already: seq<byte>, w: ServerWorld, cfg: Config, suite: Suite): seq<byte>
    requires Sized(suite.hash) && w.Sized()
  {
    var q := Accepted(p, already, w, cfg);
    if q.None? || w.id.None? || PartyKey(q.value, cfg, suite).None? then []
    else Through(FrameBytes(SuccessFrame(w.id.value, cfg.ttl)), w.success)
  }

  lemma ClientSent(outgoing: seq<byte>, p: Party, already: seq<byte>, w: ClientWorld, cfg: Config, suite: Suite)
    requires w.random.Some? && Challenged(p, already, w).Some?
    ensures var hello := FrameBytes(HelloFrame(cfg, suite, w.random.value));
            outgoing + hello + ResponseSent(w, cfg) == outgoing + ClientSends(p, already, w, cfg, suite)
  {
    hide ReceiveChallenge, HeadOf, FrameBytes, HelloFrame, ResponseSent;
    Assoc(outgoing, FrameBytes(HelloFrame(cfg, suite, w.random.value)), ResponseSent(w, cfg));
  }

  lemma NotHailed(p: Party, already: seq<byte>, w: ServerWorld, cfg: Config, suite: Suite)
    requires Sized(suite.hash) && w.Sized()
    ensures Hailed(p, already, w, cfg).None? ==>
              && ServerEnd(p, already, w, cfg, suite).None?
              && ServerSends(p, already, w, cfg, suite)
                 == if Met(p, already, w, cfg).None? || w.random.None? || w.salt.None? then []
                    else Through(FrameBytes(ChallengeFrame(cfg, suite, w.random.value, w.salt.value)), w.challenge)
  {
    hide ReceiveHello, HeadOf, FrameBytes, ChallengeFrame, Through;
  }

  lemma ServerSent(outgoing: seq<byte>, p: Party, already: seq<byte>, w: ServerWorld, cfg: Config, suite: Suite)
    requires Sized(suite.hash) && w.Sized() && Hailed(p, already, w, cfg).Some?
    ensures var challenge := FrameBytes(ChallengeFrame(cfg, suite, w.random.value, w.salt.value));
            outgoing + challenge + SuccessSent(p, already, w, cfg, suite)
            == outgoing + ServerSends(p, already, w, cfg, suite)
  {
    hide ReceiveHello, HeadOf, FrameBytes, ChallengeFrame, SuccessSent;
    Assoc(outgoing, FrameBytes(ChallengeFrame(cfg, suite, w.random.value, w.salt.value)),
          SuccessSent(p, already, w, cfg, suite));
  }
}
