/** An honest Zap handshake goes through: while nobody fails or rejects, there is always a step to
    take, and eight of them lead to two sessions. */
module ZapProgress {
  import opened Bytes
  import opened Hkdf
  import opened ZapFrame
  import opened ZapProtocol
  import opened ZapResults

  /** Both sides have keys that the codecs can carry and that give a shared secret. */
  predicate Able(ccfg: Config, scfg: Config, suite: Suite) {
    && ccfg.privateKey.Some? && scfg.privateKey.Some?
    && |OwnPublicKey(ccfg, suite)| <= 65500 && |OwnPublicKey(scfg, suite)| <= 65501
    && Shares(ccfg, scfg, suite) && Shares(scfg, ccfg, suite)
  }

  predicate Shares(a: Config, b: Config, suite: Suite)
    requires a.privateKey.Some?
  {
    var secret := suite.ecdh(a.privateKey.value, OwnPublicKey(b, suite));
    secret.Some? && secret.value != []
  }

  predicate BothLive(n: Net) {
    n.c.live && n.s.live && |n.c.p.authData| <= 65501
  }

  function Rank(st: HandshakeState): nat {
    match st case Idle => 0 case ClientHelloSent => 1 case ServerChallengeSent => 2 case ClientResponseSent => 3
             case Authenticated => 4
  }

  function Progress(n: Net): nat {
    Rank(n.c.p.state) + Rank(n.s.p.state)
  }

  predicate Done(n: Net) {
    n.c.p.session.Some? && n.s.p.session.Some?
  }

  lemma ReadInside(before: seq<byte>, f: Frame, rest: seq<byte>)
    requires WellFormed(f)
    ensures ReadFrom((before + (FrameBytes(f) + rest))[|before|..]) == Ok((f, |FrameBytes(f)|))
  {
    PrefixOfAppend(before, FrameBytes(f) + rest);
    ReadBack(f, rest);
  }

  /** A frame that was sent and not yet taken can be read. */
  lemma NextIsThere(from: Side, to: Side)
    requires Channel(from, to) && from.live && to.got < |from.msgs|
    ensures Next(to, from) == Some((from.msgs[to.got], |FrameBytes(from.msgs[to.got])|))
  {
    EncodeSplit(from.msgs, to.got);
    var before, f := EncodeAll(from.msgs[..to.got]), from.msgs[to.got];
    assert f in from.msgs;
    var rest :| EncodeAll(from.msgs) == before + FrameBytes(f) + rest;
    Assoc(before, FrameBytes(f), rest);
    ReadInside(before, f, rest);
  }

  lemma KeysDerive(c: Party, cfg: Config, peer: Config, suite: Suite)
    requires Sized(suite.hash) && cfg.privateKey.Some? && Shares(cfg, peer, suite)
    requires c.peerPublicKey == Some(OwnPublicKey(peer, suite)) && |c.clientRandom| == 32 && |c.serverRandom| == 32
    ensures PartyKey(c, cfg, suite).Some?
  {
  }

  /** The step that the two states call for. */
  function NextEvent(n: Net): Event {
    var c, s := n.c.p.state, n.s.p.state;
    if c == Idle then ClientHello(seq(32, _ => 0 as byte), true, 0)
    else if c == ServerChallengeSent then ClientResponse(seq(32, _ => 0 as byte), true, 0)
    else if s == Idle then ServerReadsHello(true)
    else if s == ClientHelloSent then ServerChallenge(seq(32, _ => 0 as byte), seq(16, _ => 0 as byte), true, 0)
    else if c == ClientHelloSent then ClientReadsChallenge
    else if s == ServerChallengeSent then ServerReadsResponse(true)
    else if s == ClientResponseSent then ServerSuccess(seq(16, _ => 0 as byte), true, 0)
    else ClientReadsSuccess
  }

  ghost predicate Advances(n: Net, n': Net, ccfg: Config, scfg: Config, suite: Suite)
    requires Sized(suite.hash)
  {
    Step(n, n', NextEvent(n), ccfg, scfg, suite) && BothLive(n') && Progress(n') == Progress(n) + 1
  }

  lemma ClientCanSend(n: Net, ccfg: Config, scfg: Config, suite: Suite) returns (n': Net)
    requires Sized(suite.hash) && BothLive(n) && (n.c.p.state == Idle || n.c.p.state == ServerChallengeSent)
    ensures Advances(n, n', ccfg, scfg, suite)
  {
    var value := seq(32, _ => 0 as byte);
    if n.c.p.state == Idle {
      var p := n.c.p.(clientRandom := value);
      n' := n.(c := Send(n.c, p, p.(state := ClientHelloSent), HelloFrame(ccfg, suite, value), true, 0));
    } else {
      var p := n.c.p.(authData := value);
      n' := n.(c := Send(n.c, p, p.(state := ClientResponseSent), ResponseFrame(value), true, 0));
    }
  }

  lemma ServerCanChallenge(n: Net, ccfg: Config, scfg: Config, suite: Suite) returns (n': Net)
    requires Sized(suite.hash) && BothLive(n) && n.s.p.state == ClientHelloSent
    requires n.c.p.state != Idle && n.c.p.state != ServerChallengeSent
    ensures Advances(n, n', ccfg, scfg, suite)
  {
    var random, salt := seq(32, _ => 0 as byte), seq(16, _ => 0 as byte);
    var p := n.s.p.(serverRandom := random, salt := salt);
    n' := n.(s := Send(n.s, p, p.(state := ServerChallengeSent), ChallengeFrame(scfg, suite, random, salt), true, 0));
  }

  lemma ServerCanRead(n: Net, ccfg: Config, scfg: Config, suite: Suite) returns (n': Net)
    requires Sized(suite.hash) && Inv(n, ccfg, scfg, suite) && BothLive(n) && Able(ccfg, scfg, suite)
    requires n.c.p.state != Idle && n.c.p.state != ServerChallengeSent && n.s.p.state == Idle
    ensures Advances(n, n', ccfg, scfg, suite)
  {
    NextIsThere(n.c, n.s);
    var (f, k) := Next(n.s, n.c).value;
    HelloReceived(n.s.p, ccfg, suite, n.c.p.clientRandom, true, scfg);
    n' := n.(s := Took(n.s, ReceiveHello(n.s.p, f, true, scfg), k));
  }

  lemma ResponseWaits(n: Net, ccfg: Config, scfg: Config, suite: Suite)
    requires Sized(suite.hash) && Inv(n, ccfg, scfg, suite) && BothLive(n)
    requires n.s.p.state == ServerChallengeSent
    requires n.c.p.state == ClientResponseSent || n.c.p.state == Authenticated
    ensures Next(n.s, n.c).Some? && Next(n.s, n.c).value.0 == ResponseFrame(n.c.p.authData)
  {
    NextIsThere(n.c, n.s);
  }

  lemma ServerCanAccept(n: Net, ccfg: Config, scfg: Config, suite: Suite) returns (n': Net)
    requires Sized(suite.hash) && BothLive(n) && n.s.p.state == ServerChallengeSent
    requires n.c.p.state == ClientResponseSent || n.c.p.state == Authenticated
    requires Next(n.s, n.c).Some? && Next(n.s, n.c).value.0 == ResponseFrame(n.c.p.authData)
    ensures Advances(n, n', ccfg, scfg, suite)
  {
    hide ReceiveResponse;
    var (f, k) := Next(n.s, n.c).value;
    ResponseReceived(n.s.p, n.c.p.authData, true, scfg);
    n' := n.(s := Took(n.s, ReceiveResponse(n.s.p, f, true, scfg), k), accepted := true);
  }

  lemma ChallengeWaits(n: Net, ccfg: Config, scfg: Config, suite: Suite)
    requires Sized(suite.hash) && Inv(n, ccfg, scfg, suite) && BothLive(n)
    requires n.c.p.state == ClientHelloSent && n.s.p.state != Idle && n.s.p.state != ClientHelloSent
    ensures |n.s.p.serverRandom| == 32 && |n.s.p.salt| == 16 && Next(n.c, n.s).Some?
    ensures Next(n.c, n.s).value.0 == ChallengeFrame(scfg, suite, n.s.p.serverRandom, n.s.p.salt)
  {
    NextIsThere(n.s, n.c);
  }

  lemma ClientCanRead(n: Net, ccfg: Config, scfg: Config, suite: Suite) returns (n': Net)
    requires Sized(suite.hash) && BothLive(n) && |OwnPublicKey(scfg, suite)| <= 65501
    requires n.c.p.state == ClientHelloSent && n.s.p.state != Idle && n.s.p.state != ClientHelloSent
    requires |n.s.p.serverRandom| == 32 && |n.s.p.salt| == 16 && Next(n.c, n.s).Some?
    requires Next(n.c, n.s).value.0 == ChallengeFrame(scfg, suite, n.s.p.serverRandom, n.s.p.salt)
    ensures Advances(n, n', ccfg, scfg, suite)
  {
    hide Next;
    var p := ChallengeTaken(n.c.p, scfg, suite, n.s.p.serverRandom, n.s.p.salt);
    n' := n.(c := Took(n.c, Some(p), Next(n.c, n.s).value.1));
  }

  lemma ChallengeTaken(c: Party, scfg: Config, suite: Suite, random: seq<byte>, salt: seq<byte>) returns (p: Party)
    requires |random| == 32 && |salt| == 16 && |OwnPublicKey(scfg, suite)| <= 65501
    ensures ReceiveChallenge(c, ChallengeFrame(scfg, suite, random, salt)) == Some(p)
    ensures p.state == ServerChallengeSent && p.authData == c.authData
  {
    ChallengeReceived(c, scfg, suite, random, salt);
    p := ReceiveChallenge(c, ChallengeFrame(scfg, suite, random, salt)).value;
  }

  lemma SuccessWaits(n: Net, ccfg: Config, scfg: Config, suite: Suite)
    requires Sized(suite.hash) && Inv(n, ccfg, scfg, suite) && BothLive(n) && Able(ccfg, scfg, suite)
    requires n.c.p.state == ClientResponseSent && n.s.p.state == Authenticated
    ensures |n.s.p.sessionID| == 16 && PartyKey(n.c.p, ccfg, suite).Some? && Next(n.c, n.s).Some?
    ensures Next(n.c, n.s).value.0 == SuccessFrame(n.s.p.sessionID, scfg.ttl)
  {
    NextIsThere(n.s, n.c);
    KeysDerive(n.c.p, ccfg, scfg, suite);
  }

  lemma ClientCanFinish(n: Net, ccfg: Config, scfg: Config, suite: Suite) returns (n': Net)
    requires Sized(suite.hash) && BothLive(n) && n.c.p.state == ClientResponseSent && n.s.p.state == Authenticated
    requires |n.s.p.sessionID| == 16 && PartyKey(n.c.p, ccfg, suite).Some? && Next(n.c, n.s).Some?
    requires Next(n.c, n.s).value.0 == SuccessFrame(n.s.p.sessionID, scfg.ttl)
    ensures Advances(n, n', ccfg, scfg, suite)
  {
    var (f, k) := Next(n.c, n.s).value;
    SuccessReceived(n.c.p, n.s.p.sessionID, scfg.ttl, ccfg, suite);
    n' := n.(c := Took(n.c, ReceiveSuccess(n.c.p, f, ccfg, suite), k));
  }

  lemma ServerCanFinish(n: Net, ccfg: Config, scfg: Config, suite: Suite) returns (n': Net)
    requires Sized(suite.hash) && Inv(n, ccfg, scfg, suite) && BothLive(n) && Able(ccfg, scfg, suite)
    requires n.s.p.state == ClientResponseSent && n.c.p.state == ClientResponseSent
    ensures Advances(n, n', ccfg, scfg, suite)
  {
    KeysDerive(n.s.p, scfg, ccfg, suite);
    var id := seq(16, _ => 0 as byte);
    var p := WithSession(n.s.p, id, PartyKey(n.s.p, scfg, suite).value);
    n' := n.(s := Send(n.s, p, Finished(p), SuccessFrame(id, scfg.ttl), true, 0));
  }

  /** As long as both sides are at it and not both done, the next step of the protocol can be taken,
      and brings it forward. */
  lemma NeverStuck(n: Net, ccfg: Config, scfg: Config, suite: Suite) returns (n': Net)
    requires Sized(suite.hash) && Inv(n, ccfg, scfg, suite) && BothLive(n) && Able(ccfg, scfg, suite) && !Done(n)
    ensures Advances(n, n', ccfg, scfg, suite) && Inv(n', ccfg, scfg, suite)
  {
    var c, s := n.c.p.state, n.s.p.state;
    if c == Idle || c == ServerChallengeSent {
      n' := ClientCanSend(n, ccfg, scfg, suite);
    } else if s == Idle {
      n' := ServerCanRead(n, ccfg, scfg, suite);
    } else if s == ClientHelloSent {
      n' := ServerCanChallenge(n, ccfg, scfg, suite);
    } else if c == ClientHelloSent {
      ChallengeWaits(n, ccfg, scfg, suite);
      n' := ClientCanRead(n, ccfg, scfg, suite);
    } else if s == ServerChallengeSent {
      ResponseWaits(n, ccfg, scfg, suite);
      n' := ServerCanAccept(n, ccfg, scfg, suite);
    } else if s == ClientResponseSent {
      n' := ServerCanFinish(n, ccfg, scfg, suite);
    } else {
      SuccessWaits(n, ccfg, scfg, suite);
      n' := ClientCanFinish(n, ccfg, scfg, suite);
    }
    StepKeepsInv(n, n', NextEvent(n), ccfg, scfg, suite);
  }

  /** From every reachable state in which both sides are still at it, the handshake can be completed:
      some continuation of the run ends with a session on either side. */
  lemma {:induction false} Completes(states: seq<Net>, events: seq<Event>, ccfg: Config, scfg: Config, suite: Suite)
    returns (states': seq<Net>, events': seq<Event>)
    requires Sized(suite.hash) && Run(states, events, ccfg, scfg, suite) && Able(ccfg, scfg, suite)
    requires BothLive(states[|states| - 1])
    ensures Run(states', events', ccfg, scfg, suite) && states <= states' && Done(states'[|states'| - 1])
    decreases 8 - Progress(states[|states| - 1])
  {
    hide Step, Able, NextEvent, Inv, BothLive, Done, Progress, Sized;
    var n := states[|states| - 1];
    if Done(n) {
      return states, events;
    }
    ProgressEnds(n);
    AlwaysInv(states, events, ccfg, scfg, suite, |states| - 1);
    var n' := NeverStuck(n, ccfg, scfg, suite);
    RunLonger(states, events, n', NextEvent(n), ccfg, scfg, suite);
    states', events' := Completes(states + [n'], events + [NextEvent(n)], ccfg, scfg, suite);
  }

  lemma ProgressEnds(n: Net)
    ensures Progress(n) <= 8
  {
  }

  lemma RunLonger(states: seq<Net>, events: seq<Event>, n': Net, ev: Event, ccfg: Config, scfg: Config, suite: Suite)
    requires Sized(suite.hash) && Run(states, events, ccfg, scfg, suite)
    requires Step(states[|states| - 1], n', ev, ccfg, scfg, suite)
    ensures Run(states + [n'], events + [ev], ccfg, scfg, suite) && (states + [n'])[|states + [n']| - 1] == n'
  {
    var ss, es := states + [n'], events + [ev];
    forall k | 0 <= k < |es| ensures Step(ss[k], ss[k + 1], es[k], ccfg, scfg, suite) {
      if k < |events| {
        assert Step(states[k], states[k + 1], events[k], ccfg, scfg, suite);
      }
    }
  }
}
