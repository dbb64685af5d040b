/** Agreement of the Zap handshake: what holds in every state of every run over an untampered
    channel. */
module ZapResults {
  import opened Bytes
  import opened Hkdf
  import opened ZapFrame
  import opened ZapProtocol

  // How far a side has come

  function ClientSends(st: HandshakeState): nat {
    match st case Idle => 0 case ClientHelloSent => 1 case ServerChallengeSent => 1 case _ => 2
  }

  function ClientTakes(st: HandshakeState): nat {
    match st case Idle => 0 case ClientHelloSent => 0 case Authenticated => 2 case _ => 1
  }

  function ServerSends(st: HandshakeState): nat {
    match st case Idle => 0 case ClientHelloSent => 0 case Authenticated => 2 case _ => 1
  }

  function ServerTakes(st: HandshakeState): nat {
    match st case Idle => 0 case ClientHelloSent => 1 case ServerChallengeSent => 1 case _ => 2
  }

  /** A session is there exactly at the end, with the derived key. */
  ghost predicate SessionOk(p: Party, cfg: Config, suite: Suite)
    requires Sized(suite.hash)
  {
    && (p.session.Some? <==> p.state == Authenticated)
    && (p.session.Some? ==>
          p.session.value == Session(p.sessionID, p.sessionKey, p.peerPublicKey)
          && PartyKey(p, cfg, suite) == Some(p.sessionKey))
  }

  ghost predicate ClientOk(c: Side, cfg: Config, suite: Suite)
    requires Sized(suite.hash)
  {
    && c.got == ClientTakes(c.p.state) && |c.msgs| <= 2
    && (if c.live then |c.msgs| == ClientSends(c.p.state) else |c.msgs| >= ClientSends(c.p.state))
    && (|c.msgs| >= 1 ==> |c.p.clientRandom| == 32 && c.msgs[0] == HelloFrame(cfg, suite, c.p.clientRandom))
    && (|c.msgs| == 2 ==> c.msgs[1] == ResponseFrame(c.p.authData))
    && SessionOk(c.p, cfg, suite)
  }

  ghost predicate ServerOk(s: Side, cfg: Config, suite: Suite)
    requires Sized(suite.hash)
  {
    && s.got == ServerTakes(s.p.state) && |s.msgs| <= 2 && |s.msgs| <= s.got
    && (if s.live then |s.msgs| == ServerSends(s.p.state) else |s.msgs| >= ServerSends(s.p.state))
    && (|s.msgs| >= 1 ==> |s.p.serverRandom| == 32 && |s.p.salt| == 16
                          && s.msgs[0] == ChallengeFrame(cfg, suite, s.p.serverRandom, s.p.salt))
    && (|s.msgs| == 2 ==> |s.p.sessionID| == 16 && s.msgs[1] == SuccessFrame(s.p.sessionID, cfg.ttl)
                          && PartyKey(s.p, cfg, suite) == Some(s.p.sessionKey))
    && SessionOk(s.p, cfg, suite)
  }

  /** What each side knows of the other. */
  predicate Linked(n: Net, ccfg: Config, scfg: Config, suite: Suite) {
    var c, s := n.c, n.s;
    && (s.got >= 1 ==> s.p.clientRandom == c.p.clientRandom && s.p.peerPublicKey == Some(OwnPublicKey(ccfg, suite)))
    && (s.got == 2 ==> n.accepted && s.p.authData == c.p.authData)
    && (c.got >= 1 ==> c.p.serverRandom == s.p.serverRandom && c.p.salt == s.p.salt
                       && c.p.peerPublicKey == Some(OwnPublicKey(scfg, suite)))
    && (c.got == 2 ==> c.p.sessionID == s.p.sessionID)
  }

  ghost predicate Inv(n: Net, ccfg: Config, scfg: Config, suite: Suite)
    requires Sized(suite.hash)
  {
    && Channel(n.c, n.s) && Channel(n.s, n.c)
    && ClientOk(n.c, ccfg, suite) && ServerOk(n.s, scfg, suite) && Linked(n, ccfg, scfg, suite)
  }

  lemma MessagesWellFormed(cfg: Config, suite: Suite, random: seq<byte>, salt: seq<byte>, authData: seq<byte>, id: seq<byte>)
    requires |id| == 16
    ensures WellFormed(HelloFrame(cfg, suite, random)) && WellFormed(ChallengeFrame(cfg, suite, random, salt))
    ensures WellFormed(ResponseFrame(authData)) && WellFormed(SuccessFrame(id, cfg.ttl))
  {
    assert |HelloBytes(cfg.authMethod, random, OwnPublicKey(cfg, suite))| <= 65570;
    assert |ChallengeBytes(random, OwnPublicKey(cfg, suite), salt, seq(64, _ => 0 as byte))| <= 131122;
    assert |ResponseBytes(authData, seq(32, _ => 0 as byte))| <= 65569;
    assert |SuccessBytes(id, cfg.ttl)| == 20;
  }

  // What the receivers make of the honest messages

  lemma HelloReceived(p: Party, ccfg: Config, suite: Suite, random: seq<byte>, supported: bool, scfg: Config)
    requires |random| == 32
    ensures var r := ReceiveHello(p, HelloFrame(ccfg, suite, random), supported, scfg);
            && (r.Some? ==> r.value == p.(state := ClientHelloSent, clientRandom := random, chosenMethod := ccfg.authMethod,
                                          peerPublicKey := Some(OwnPublicKey(ccfg, suite))))
            && (r.Some? <==> |OwnPublicKey(ccfg, suite)| <= 65500 && (scfg.hasManager ==> supported))
  {
    HelloRoundTrip(ccfg.authMethod, random, OwnPublicKey(ccfg, suite));
  }

  lemma ChallengeReceived(p: Party, scfg: Config, suite: Suite, random: seq<byte>, salt: seq<byte>)
    requires |random| == 32 && |salt| == 16
    ensures var r := ReceiveChallenge(p, ChallengeFrame(scfg, suite, random, salt));
            && (r.Some? ==> r.value == p.(state := ServerChallengeSent, serverRandom := random, salt := salt,
                                          peerPublicKey := Some(OwnPublicKey(scfg, suite))))
            && (r.Some? <==> |OwnPublicKey(scfg, suite)| <= 65501)
  {
    ChallengeRoundTrip(random, OwnPublicKey(scfg, suite), salt, seq(64, _ => 0 as byte));
  }

  lemma ResponseReceived(p: Party, authData: seq<byte>, valid: bool, scfg: Config)
    ensures var r := ReceiveResponse(p, ResponseFrame(authData), valid, scfg);
            && (r.Some? ==> r.value == p.(state := ClientResponseSent, authData := authData))
            && (r.Some? <==> |authData| <= 65501 && (scfg.hasManager ==> valid))
  {
    ResponseRoundTrip(authData, seq(32, _ => 0 as byte));
  }

  lemma SuccessReceived(p: Party, id: seq<byte>, ttl: uint32, cfg: Config, suite: Suite)
    requires Sized(suite.hash) && |id| == 16
    ensures ReceiveSuccess(p, SuccessFrame(id, ttl), cfg, suite)
            == match PartyKey(p, cfg, suite) case None => None case Some(key) => Some(Finished(WithSession(p, id, key)))
  {
    SuccessRoundTrip(id, ttl, []);
    assert SuccessBytes(id, ttl) + [] == SuccessBytes(id, ttl);
  }

  // Steps of the client

  lemma ClientHelloKeeps(n: Net, n': Net, ev: Event, ccfg: Config, scfg: Config, suite: Suite)
    requires Sized(suite.hash) && Inv(n, ccfg, scfg, suite) && Step(n, n', ev, ccfg, scfg, suite) && ev.ClientHello?
    ensures Inv(n', ccfg, scfg, suite)
  {
    var p := n.c.p.(clientRandom := ev.random);
    MessagesWellFormed(ccfg, suite, ev.random, [], [], seq(16, _ => 0 as byte));
    SendKeepsChannel(n.c, n.s, p, p.(state := ClientHelloSent), HelloFrame(ccfg, suite, ev.random), ev.ok, ev.cut);
  }

  lemma ClientReadsChallengeKeeps(n: Net, n': Net, ev: Event, ccfg: Config, scfg: Config, suite: Suite)
    requires Sized(suite.hash) && Inv(n, ccfg, scfg, suite) && Step(n, n', ev, ccfg, scfg, suite) && ev.ClientReadsChallenge?
    ensures Inv(n', ccfg, scfg, suite)
  {
    hide HelloFrame, ChallengeFrame, ResponseFrame, SuccessFrame, ReceiveChallenge, ReadFrom, PartyKey;
    NextIsNext(n.s, n.c);
    TookKeepsChannel(n.s, n.c, ReceiveChallenge(n.c.p, Next(n.c, n.s).value.0));
    ChallengeReceived(n.c.p, scfg, suite, n.s.p.serverRandom, n.s.p.salt);
  }

  lemma ClientResponseKeeps(n: Net, n': Net, ev: Event, ccfg: Config, scfg: Config, suite: Suite)
    requires Sized(suite.hash) && Inv(n, ccfg, scfg, suite) && Step(n, n', ev, ccfg, scfg, suite) && ev.ClientResponse?
    ensures Inv(n', ccfg, scfg, suite)
  {
    hide HelloFrame, ChallengeFrame, ResponseFrame, SuccessFrame, ReadFrom, FrameBytes;
    var p := n.c.p.(authData := ev.authData);
    MessagesWellFormed(ccfg, suite, [], [], ev.authData, seq(16, _ => 0 as byte));
    SendKeepsChannel(n.c, n.s, p, p.(state := ClientResponseSent), ResponseFrame(ev.authData), ev.ok, ev.cut);
  }

  lemma ClientReadsSuccessKeeps(n: Net, n': Net, ev: Event, ccfg: Config, scfg: Config, suite: Suite)
    requires Sized(suite.hash) && Inv(n, ccfg, scfg, suite) && Step(n, n', ev, ccfg, scfg, suite) && ev.ClientReadsSuccess?
    ensures Inv(n', ccfg, scfg, suite)
  {
    NextIsNext(n.s, n.c);
    SuccessReceived(n.c.p, n.s.p.sessionID, scfg.ttl, ccfg, suite);
    ClientFinishes(n, n', PartyKey(n.c.p, ccfg, suite), ccfg, scfg, suite);
  }

  lemma ClientFinishes(n: Net, n': Net, key: Option<seq<byte>>, ccfg: Config, scfg: Config, suite: Suite)
    requires Sized(suite.hash) && Inv(n, ccfg, scfg, suite)
    requires n.c.live && n.c.p.state == ClientResponseSent && Next(n.c, n.s).Some? && key == PartyKey(n.c.p, ccfg, suite)
    requires var p := if key.None? then None else Some(Finished(WithSession(n.c.p, n.s.p.sessionID, key.value)));
             n' == n.(c := Took(n.c, p, Next(n.c, n.s).value.1))
    ensures Inv(n', ccfg, scfg, suite)
  {
    NextIsNext(n.s, n.c);
    TookKeepsChannel(n.s, n.c,
                     if key.None? then None else Some(Finished(WithSession(n.c.p, n.s.p.sessionID, key.value))));
  }

  // Steps of the server

  lemma ServerReadsHelloKeeps(n: Net, n': Net, ev: Event, ccfg: Config, scfg: Config, suite: Suite)
    requires Sized(suite.hash) && Inv(n, ccfg, scfg, suite) && Step(n, n', ev, ccfg, scfg, suite) && ev.ServerReadsHello?
    ensures Inv(n', ccfg, scfg, suite)
  {
    hide HelloFrame, ChallengeFrame, ResponseFrame, SuccessFrame, ReceiveHello, ReadFrom, PartyKey;
    NextIsNext(n.c, n.s);
    TookKeepsChannel(n.c, n.s, ReceiveHello(n.s.p, Next(n.s, n.c).value.0, ev.supported, scfg));
    HelloReceived(n.s.p, ccfg, suite, n.c.p.clientRandom, ev.supported, scfg);
  }

  lemma ChallengeSent(s: Side, random: seq<byte>, salt: seq<byte>, ok: bool, cut: nat, cfg: Config, suite: Suite)
    requires Sized(suite.hash) && ServerOk(s, cfg, suite) && s.live && s.p.state == ClientHelloSent
    requires |random| == 32 && |salt| == 16
    ensures var p := s.p.(serverRandom := random, salt := salt);
            ServerOk(Send(s, p, p.(state := ServerChallengeSent), ChallengeFrame(cfg, suite, random, salt), ok, cut),
                     cfg, suite)
  {
  }

  lemma ServerChallengeKeeps(n: Net, n': Net, ev: Event, ccfg: Config, scfg: Config, suite: Suite)
    requires Sized(suite.hash) && Inv(n, ccfg, scfg, suite) && Step(n, n', ev, ccfg, scfg, suite) && ev.ServerChallenge?
    ensures Inv(n', ccfg, scfg, suite)
  {
    var p := n.s.p.(serverRandom := ev.random, salt := ev.salt);
    MessagesWellFormed(scfg, suite, ev.random, ev.salt, [], seq(16, _ => 0 as byte));
    ChallengeSent(n.s, ev.random, ev.salt, ev.ok, ev.cut, scfg, suite);
    SendKeepsChannel(n.s, n.c, p, p.(state := ServerChallengeSent),
                     ChallengeFrame(scfg, suite, ev.random, ev.salt), ev.ok, ev.cut);
    assert n.c.got == 0;
  }

  lemma ServerReadsResponseKeeps(n: Net, n': Net, ev: Event, ccfg: Config, scfg: Config, suite: Suite)
    requires Sized(suite.hash) && Inv(n, ccfg, scfg, suite) && Step(n, n', ev, ccfg, scfg, suite) && ev.ServerReadsResponse?
    ensures Inv(n', ccfg, scfg, suite)
  {
    NextIsNext(n.c, n.s);
    ResponseReceived(n.s.p, n.c.p.authData, ev.valid, scfg);
    ServerAccepts(n, n', ReceiveResponse(n.s.p, n.c.msgs[1], ev.valid, scfg), ccfg, scfg, suite);
  }

  lemma ServerAccepts(n: Net, n': Net, p: Option<Party>, ccfg: Config, scfg: Config, suite: Suite)
    requires Sized(suite.hash) && Inv(n, ccfg, scfg, suite)
    requires n.s.live && n.s.p.state == ServerChallengeSent && Next(n.s, n.c).Some?
    requires p.Some? ==> p.value == n.s.p.(state := ClientResponseSent, authData := n.c.p.authData)
    requires n' == n.(s := Took(n.s, p, Next(n.s, n.c).value.1), accepted := p.Some?)
    ensures Inv(n', ccfg, scfg, suite)
  {
    hide HelloFrame, ChallengeFrame, ResponseFrame, SuccessFrame, ReadFrom, PartyKey;
    NextIsNext(n.c, n.s);
    TookKeepsChannel(n.c, n.s, p);
  }

  lemma ServerSuccessKeeps(n: Net, n': Net, ev: Event, ccfg: Config, scfg: Config, suite: Suite)
    requires Sized(suite.hash) && Inv(n, ccfg, scfg, suite) && Step(n, n', ev, ccfg, scfg, suite) && ev.ServerSuccess?
    ensures Inv(n', ccfg, scfg, suite)
  {
    hide HelloFrame, ChallengeFrame, ResponseFrame, SuccessFrame, ReadFrom, FrameBytes;
    match PartyKey(n.s.p, scfg, suite)
    case None =>
    case Some(key) =>
      var p := WithSession(n.s.p, ev.id, key);
      MessagesWellFormed(scfg, suite, [], [], [], ev.id);
      SendKeepsChannel(n.s, n.c, p, Finished(p), SuccessFrame(ev.id, scfg.ttl), ev.ok, ev.cut);
  }

  lemma ClientStepKeeps(n: Net, n': Net, ev: Event, ccfg: Config, scfg: Config, suite: Suite)
    requires Sized(suite.hash) && Inv(n, ccfg, scfg, suite) && Step(n, n', ev, ccfg, scfg, suite)
    requires ev.ClientHello? || ev.ClientReadsChallenge? || ev.ClientResponse? || ev.ClientReadsSuccess?
    ensures Inv(n', ccfg, scfg, suite)
  {
    if ev.ClientHello? {
      ClientHelloKeeps(n, n', ev, ccfg, scfg, suite);
    } else if ev.ClientReadsChallenge? {
      ClientReadsChallengeKeeps(n, n', ev, ccfg, scfg, suite);
    } else if ev.ClientResponse? {
      ClientResponseKeeps(n, n', ev, ccfg, scfg, suite);
    } else {
      ClientReadsSuccessKeeps(n, n', ev, ccfg, scfg, suite);
    }
  }

  lemma ServerStepKeeps(n: Net, n': Net, ev: Event, ccfg: Config, scfg: Config, suite: Suite)
    requires Sized(suite.hash) && Inv(n, ccfg, scfg, suite) && Step(n, n', ev, ccfg, scfg, suite)
    requires ev.ServerReadsHello? || ev.ServerChallenge? || ev.ServerReadsResponse? || ev.ServerSuccess?
    ensures Inv(n', ccfg, scfg, suite)
  {
    if ev.ServerReadsHello? {
      ServerReadsHelloKeeps(n, n', ev, ccfg, scfg, suite);
    } else if ev.ServerChallenge? {
      ServerChallengeKeeps(n, n', ev, ccfg, scfg, suite);
    } else if ev.ServerReadsResponse? {
      ServerReadsResponseKeeps(n, n', ev, ccfg, scfg, suite);
    } else {
      ServerSuccessKeeps(n, n', ev, ccfg, scfg, suite);
    }
  }

  lemma GivingUpKeeps(n: Net, ccfg: Config, scfg: Config, suite: Suite)
    requires Sized(suite.hash) && Inv(n, ccfg, scfg, suite)
    ensures Inv(n.(c := n.c.(live := false)), ccfg, scfg, suite) && Inv(n.(s := n.s.(live := false)), ccfg, scfg, suite)
  {
  }

  lemma StepKeepsInv(n: Net, n': Net, ev: Event, ccfg: Config, scfg: Config, suite: Suite)
    requires Sized(suite.hash) && Inv(n, ccfg, scfg, suite) && Step(n, n', ev, ccfg, scfg, suite)
    ensures Inv(n', ccfg, scfg, suite)
  {
    if ev.ClientGivesUp? || ev.ServerGivesUp? {
      GivingUpKeeps(n, ccfg, scfg, suite);
    } else if ev.ClientHello? || ev.ClientReadsChallenge? || ev.ClientResponse? || ev.ClientReadsSuccess? {
      ClientStepKeeps(n, n', ev, ccfg, scfg, suite);
    } else {
      ServerStepKeeps(n, n', ev, ccfg, scfg, suite);
    }
  }

  lemma {:induction false} AlwaysInv(states: seq<Net>, events: seq<Event>, ccfg: Config, scfg: Config, suite: Suite, i: nat)
    requires Sized(suite.hash) && Run(states, events, ccfg, scfg, suite) && i < |states|
    ensures Inv(states[i], ccfg, scfg, suite)
    decreases i
  {
    if i > 0 {
      AlwaysInv(states, events, ccfg, scfg, suite, i - 1);
      assert Step(states[i - 1], states[i - 1 + 1], events[i - 1], ccfg, scfg, suite);
      StepKeepsInv(states[i - 1], states[i], events[i - 1], ccfg, scfg, suite);
    }
  }

  /** Both sides derive one key when each knows the other's public key and both randoms. */
  lemma SameKey(c: Party, s: Party, ccfg: Config, scfg: Config, suite: Suite)
    requires Sized(suite.hash) && Commutes(suite)
    requires c.clientRandom == s.clientRandom && c.serverRandom == s.serverRandom
    requires c.peerPublicKey == Some(OwnPublicKey(scfg, suite)) && s.peerPublicKey == Some(OwnPublicKey(ccfg, suite))
    requires PartyKey(c, ccfg, suite).Some? && PartyKey(s, scfg, suite).Some?
    ensures PartyKey(c, ccfg, suite) == PartyKey(s, scfg, suite)
  {
    var a, b := ccfg.privateKey.value, scfg.privateKey.value;
    assert suite.ecdh(a, suite.publicKey(b)) == suite.ecdh(b, suite.publicKey(a));
  }

  /** A client that has succeeded agrees with its server on the session: the server had accepted its
      authentication data, which arrived as it was made, before it sent the session ID, and both hold
      the same ID and key.  So whenever both sides report success, their sessions agree. */
  lemma Agreement(states: seq<Net>, events: seq<Event>, ccfg: Config, scfg: Config, suite: Suite, i: nat)
    requires Sized(suite.hash) && Commutes(suite) && Run(states, events, ccfg, scfg, suite) && i < |states|
    requires states[i].c.p.session.Some?
    ensures var n := states[i];
            var session := n.c.p.session.value;
            && n.accepted && n.s.p.authData == n.c.p.authData
            && session.id == n.s.p.sessionID && session.key == n.s.p.sessionKey && |session.key| == KEY_SIZE
            && (n.s.p.session.Some? ==>
                  n.s.p.session.value.id == session.id && n.s.p.session.value.key == session.key)
  {
    AlwaysInv(states, events, ccfg, scfg, suite, i);
    var c, s := states[i].c, states[i].s;
    SameKey(c.p, s.p, ccfg, scfg, suite);
    KeySize(c.p, ccfg, suite);
  }

  /** And with HMAC-SHA-256 that key is the one of the design: HKDF of the shared secret of the two private keys,
      salted with what the two sides have drawn. */
  lemma SessionKeyIs(states: seq<Net>, events: seq<Event>, ccfg: Config, scfg: Config, suite: Suite, i: nat)
    requires Sized(suite.hash) && Commutes(suite) && Run(states, events, ccfg, scfg, suite) && i < |states|
    requires states[i].c.p.session.Some? && suite.hash.size == 32
    ensures ccfg.privateKey.Some? && scfg.privateKey.Some?
    ensures var n, mac := states[i], suite.hash.mac;
            var secret := suite.ecdh(ccfg.privateKey.value, suite.publicKey(scfg.privateKey.value));
            && secret.Some? && secret.value != []
            && n.c.p.session.value.key
               == mac(mac(n.c.p.clientRandom + n.s.p.serverRandom, secret.value),
                      [0x7A, 0x70, 0x74, 0x2D, 0x73, 0x65, 0x73, 0x73, 0x69, 0x6F, 0x6E, 0x2D, 0x6B, 0x65, 0x79, 1])
  {
    hide HelloFrame, ChallengeFrame, ResponseFrame, SuccessFrame, ReadFrom, FrameBytes, Run;
    AlwaysInv(states, events, ccfg, scfg, suite, i);
    var c, s := states[i].c.p, states[i].s.p;
    KeyFormula(c, suite.ecdh(ccfg.privateKey.value, c.peerPublicKey.value).value, suite.hash);
  }

  lemma KeyFormula(p: Party, secret: seq<byte>, h: Hash)
    requires Sized(h) && h.size == 32 && DeriveKey(h, p.clientRandom, p.serverRandom, secret).Some?
    ensures secret != []
    ensures DeriveKey(h, p.clientRandom, p.serverRandom, secret).value
            == h.mac(h.mac(p.clientRandom + p.serverRandom, secret),
                     [0x7A, 0x70, 0x74, 0x2D, 0x73, 0x65, 0x73, 0x73, 0x69, 0x6F, 0x6E, 0x2D, 0x6B, 0x65, 0x79, 1])
  {
    OneBlockKey(h, p.clientRandom, p.serverRandom, secret);
  }

  // What the authentication manager has said

  /** The manager of the server has supported a hello, or there is none to ask, in the first `i` steps. */
  predicate Supported(events: seq<Event>, i: nat, cfg: Config)
    requires i <= |events|
  {
    exists j :: 0 <= j < i && events[j].ServerReadsHello? && (cfg.hasManager ==> events[j].supported)
  }

  predicate Validated(events: seq<Event>, i: nat, cfg: Config)
    requires i <= |events|
  {
    exists j :: 0 <= j < i && events[j].ServerReadsResponse? && (cfg.hasManager ==> events[j].valid)
  }

  /** A server gets on only as its manager allows. */
  lemma VerdictsCount(n: Net, n': Net, ev: Event, ccfg: Config, scfg: Config, suite: Suite)
    requires Sized(suite.hash) && Step(n, n', ev, ccfg, scfg, suite)
    ensures n.s.p.state.Idle? && !n'.s.p.state.Idle? ==> ev.ServerReadsHello? && (scfg.hasManager ==> ev.supported)
    ensures !n.accepted && n'.accepted ==> ev.ServerReadsResponse? && (scfg.hasManager ==> ev.valid)
  {
    hide HelloFrame, ChallengeFrame, ResponseFrame, SuccessFrame, ReadFrom, FrameBytes, PartyKey, ReceiveChallenge;
  }

  lemma {:induction false} VerdictsAreThere(states: seq<Net>, events: seq<Event>, ccfg: Config, scfg: Config,
                                            suite: Suite, i: nat)
    requires Sized(suite.hash) && Run(states, events, ccfg, scfg, suite) && i < |states|
    ensures !states[i].s.p.state.Idle? ==> Supported(events, i, scfg)
    ensures states[i].accepted ==> Validated(events, i, scfg)
    decreases i
  {
    hide Step;
    if i > 0 {
      VerdictsAreThere(states, events, ccfg, scfg, suite, i - 1);
      assert Step(states[i - 1], states[i - 1 + 1], events[i - 1], ccfg, scfg, suite);
      VerdictsCount(states[i - 1], states[i], events[i - 1], ccfg, scfg, suite);
    }
  }

  /** No client gets a session, and no server opens one, unless the server's manager has supported the client's
      method and found its response valid. */
  lemma OnlyAuthenticated(states: seq<Net>, events: seq<Event>, ccfg: Config, scfg: Config, suite: Suite, i: nat)
    requires Sized(suite.hash) && Run(states, events, ccfg, scfg, suite) && i < |states|
    requires states[i].c.p.session.Some? || states[i].s.p.session.Some?
    ensures Supported(events, i, scfg) && Validated(events, i, scfg)
  {
    hide HelloFrame, ChallengeFrame, ResponseFrame, SuccessFrame, ReadFrom, FrameBytes, Run, PartyKey;
    AlwaysInv(states, events, ccfg, scfg, suite, i);
    VerdictsAreThere(states, events, ccfg, scfg, suite, i);
  }

  lemma KeySize(p: Party, cfg: Config, suite: Suite)
    requires Sized(suite.hash) && PartyKey(p, cfg, suite).Some?
    ensures |PartyKey(p, cfg, suite).value| == KEY_SIZE
  {
    var secret := suite.ecdh(cfg.privateKey.value, p.peerPublicKey.value).value;
    OutputDefined(suite.hash, Extract(suite.hash, p.clientRandom + p.serverRandom, secret), KEY_INFO, KEY_SIZE);
  }
}
