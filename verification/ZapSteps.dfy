/** A handshake that ZapHandshake carries out is a sequence of steps of ZapProtocol, with the other
    party's steps anywhere in between. */
module ZapSteps {
  import opened Bytes
  import opened Hkdf
  import opened ZapFrame
  import opened ZapProtocol
  import opened ZapHandshake

  /** What had arrived at `side` and was not read yet is the beginning of what `other` has sent. */
  predicate Arrived(avail: seq<byte>, side: Side, other: Side) {
    side.read <= |other.sent| && avail <= other.sent[side.read..]
  }

  /** Then the frame that is read is the next one of the machine. */
  lemma HeadIsNext(avail: seq<byte>, side: Side, other: Side)
    requires Arrived(avail, side, other) && HeadOf(avail).Some?
    ensures Next(side, other) == Some((HeadOf(avail).value, ReadFrom(avail).value.1))
  {
    var all := other.sent[side.read..];
    ReadFromLonger(avail, all[|avail|..]);
    assert avail + all[|avail|..] == all;
  }

  /** The four steps of a client whose handshake has succeeded in surroundings `w`.  `n1`, `n2` and `n3` are
      the nets it finds itself in when it takes its second, third and fourth step. */
  lemma ClientSteps(w: ClientWorld, already: seq<byte>, n0: Net, n1: Net, n2: Net, n3: Net,
                    ccfg: Config, scfg: Config, suite: Suite)
    returns (m0: Net, m1: Net, m2: Net, m3: Net)
    requires Sized(suite.hash) && w.Sized() && n0.c.live && n0.c.p.state == Idle
    requires ClientEnd(n0.c.p, already, w, ccfg, suite).Some?
    ensures w.random.Some? && Step(n0, m0, ClientHello(w.random.value, true, 0), ccfg, scfg, suite)
    ensures m0.c.sent == n0.c.sent + FrameBytes(HelloFrame(ccfg, suite, w.random.value))
    ensures n1.c == m0.c && Arrived(already + w.first, n1.c, n1.s) ==>
              && Step(n1, m1, ClientReadsChallenge, ccfg, scfg, suite)
              && (n2.c == m1.c ==>
                    var authData := Answered(ccfg, w.data);
                    && Step(n2, m2, ClientResponse(authData, true, 0), ccfg, scfg, suite)
                    && m2.c.sent == m0.c.sent + FrameBytes(ResponseFrame(authData))
                    && (n3.c == m2.c && Arrived(RestOf(already + w.first) + w.second, n3.c, n3.s) ==>
                          && Step(n3, m3, ClientReadsSuccess, ccfg, scfg, suite)
                          && Some(m3.c.p) == ClientEnd(n0.c.p, already, w, ccfg, suite)))
  {
    hide Step, ReceiveChallenge, ReceiveSuccess, FrameBytes, ReadFrom, Arrived, HelloFrame, ResponseFrame, HeadOf, RestOf;
    var first, second := already + w.first, RestOf(already + w.first) + w.second;
    m0 := ClientSendsHello(n0, w.random.value, ccfg, scfg, suite);
    m1, m2, m3 := n1, n2, n3;
    if n1.c == m0.c && Arrived(first, n1.c, n1.s) {
      m1 := ClientTakesChallenge(n1, first, ccfg, scfg, suite);
      if n2.c == m1.c {
        m2 := ClientSendsResponse(n2, Answered(ccfg, w.data), ccfg, scfg, suite);
        if n3.c == m2.c && Arrived(second, n3.c, n3.s) {
          m3 := ClientTakesSuccess(n3, second, ccfg, scfg, suite);
        }
      }
    }
  }

  lemma ClientSendsHello(n: Net, random: seq<byte>, ccfg: Config, scfg: Config, suite: Suite) returns (m: Net)
    requires Sized(suite.hash) && n.c.live && n.c.p.state == Idle && |random| == 32
    ensures Step(n, m, ClientHello(random, true, 0), ccfg, scfg, suite)
    ensures m.c.live && m.c.p == Greeted(n.c.p, random)
    ensures m.c.sent == n.c.sent + FrameBytes(HelloFrame(ccfg, suite, random))
  {
    hide FrameBytes, HelloFrame;
    m := n.(c := Send(n.c, n.c.p.(clientRandom := random), Greeted(n.c.p, random),
                      HelloFrame(ccfg, suite, random), true, 0));
  }

  lemma ClientTakesChallenge(n: Net, avail: seq<byte>, ccfg: Config, scfg: Config, suite: Suite) returns (m: Net)
    requires Sized(suite.hash) && n.c.live && n.c.p.state == ClientHelloSent
    requires Arrived(avail, n.c, n.s) && HeadOf(avail).Some? && ReceiveChallenge(n.c.p, HeadOf(avail).value).Some?
    ensures Step(n, m, ClientReadsChallenge, ccfg, scfg, suite)
    ensures m.c.live && m.c.p == ReceiveChallenge(n.c.p, HeadOf(avail).value).value
    ensures m.c.p.state == ServerChallengeSent && m.c.sent == n.c.sent
  {
    HeadIsNext(avail, n.c, n.s);
    m := n.(c := Took(n.c, ReceiveChallenge(n.c.p, HeadOf(avail).value), ReadFrom(avail).value.1));
  }

  lemma ClientSendsResponse(n: Net, authData: seq<byte>, ccfg: Config, scfg: Config, suite: Suite) returns (m: Net)
    requires Sized(suite.hash) && n.c.live && n.c.p.state == ServerChallengeSent
    ensures Step(n, m, ClientResponse(authData, true, 0), ccfg, scfg, suite)
    ensures m.c.live && m.c.p == Responded(n.c.p, authData)
    ensures m.c.sent == n.c.sent + FrameBytes(ResponseFrame(authData))
  {
    hide FrameBytes, ResponseFrame;
    m := n.(c := Send(n.c, n.c.p.(authData := authData), Responded(n.c.p, authData), ResponseFrame(authData), true, 0));
  }

  lemma ClientTakesSuccess(n: Net, avail: seq<byte>, ccfg: Config, scfg: Config, suite: Suite) returns (m: Net)
    requires Sized(suite.hash) && n.c.live && n.c.p.state == ClientResponseSent
    requires Arrived(avail, n.c, n.s) && HeadOf(avail).Some? && ReceiveSuccess(n.c.p, HeadOf(avail).value, ccfg, suite).Some?
    ensures Step(n, m, ClientReadsSuccess, ccfg, scfg, suite)
    ensures Some(m.c.p) == ReceiveSuccess(n.c.p, HeadOf(avail).value, ccfg, suite)
  {
    HeadIsNext(avail, n.c, n.s);
    m := n.(c := Took(n.c, ReceiveSuccess(n.c.p, HeadOf(avail).value, ccfg, suite), ReadFrom(avail).value.1));
  }

  /** The four steps of a server whose handshake has succeeded. */
  lemma ServerSteps(w: ServerWorld, already: seq<byte>, n0: Net, n1: Net, n2: Net, n3: Net,
                    ccfg: Config, scfg: Config, suite: Suite)
    returns (m0: Net, m1: Net, m2: Net, m3: Net)
    requires Sized(suite.hash) && w.Sized() && n0.s.live && n0.s.p.state == Idle
    requires ServerEnd(n0.s.p, already, w, scfg, suite).Some? && Arrived(already + w.first, n0.s, n0.c)
    ensures w.random.Some? && w.salt.Some? && w.id.Some?
    ensures Step(n0, m0, ServerReadsHello(w.supported), ccfg, scfg, suite)
    ensures n1.s == m0.s ==>
              && Step(n1, m1, ServerChallenge(w.random.value, w.salt.value, true, 0), ccfg, scfg, suite)
              && m1.s.sent == n0.s.sent + FrameBytes(ChallengeFrame(scfg, suite, w.random.value, w.salt.value))
              && (n2.s == m1.s && Arrived(RestOf(already + w.first) + w.second, n2.s, n2.c) ==>
                    && Step(n2, m2, ServerReadsResponse(w.valid), ccfg, scfg, suite) && m2.accepted
                    && (n3.s == m2.s ==>
                          && Step(n3, m3, ServerSuccess(w.id.value, true, 0), ccfg, scfg, suite)
                          && Some(m3.s.p) == ServerEnd(n0.s.p, already, w, scfg, suite)
                          && m3.s.sent == m1.s.sent + FrameBytes(SuccessFrame(w.id.value, scfg.ttl))))
  {
    hide Step, ReceiveHello, ReceiveResponse, PartyKey, FrameBytes, ReadFrom, Arrived, HeadOf, RestOf;
    var first, second := already + w.first, RestOf(already + w.first) + w.second;
    m0 := ServerTakesHello(n0, first, w.supported, ccfg, scfg, suite);
    m1, m2, m3 := n1, n2, n3;
    if n1.s == m0.s {
      m1 := ServerSendsChallenge(n1, w.random.value, w.salt.value, ccfg, scfg, suite);
      if n2.s == m1.s && Arrived(second, n2.s, n2.c) {
        m2 := ServerTakesResponse(n2, second, w.valid, ccfg, scfg, suite);
        if n3.s == m2.s {
          m3 := ServerSendsSuccess(n3, w.id.value, ccfg, scfg, suite);
        }
      }
    }
  }

  lemma ServerTakesHello(n: Net, avail: seq<byte>, supported: bool, ccfg: Config, scfg: Config, suite: Suite)
    returns (m: Net)
    requires Sized(suite.hash) && n.s.live && n.s.p.state == Idle && Arrived(avail, n.s, n.c)
    requires HeadOf(avail).Some? && ReceiveHello(n.s.p, HeadOf(avail).value, supported, scfg).Some?
    ensures Step(n, m, ServerReadsHello(supported), ccfg, scfg, suite)
    ensures m.s.live && m.s.p == ReceiveHello(n.s.p, HeadOf(avail).value, supported, scfg).value
    ensures m.s.p.state == ClientHelloSent && m.s.sent == n.s.sent
  {
    HeadIsNext(avail, n.s, n.c);
    m := n.(s := Took(n.s, ReceiveHello(n.s.p, HeadOf(avail).value, supported, scfg), ReadFrom(avail).value.1));
  }

  lemma ServerSendsChallenge(n: Net, random: seq<byte>, salt: seq<byte>, ccfg: Config, scfg: Config, suite: Suite)
    returns (m: Net)
    requires Sized(suite.hash) && n.s.live && n.s.p.state == ClientHelloSent && |random| == 32 && |salt| == 16
    ensures Step(n, m, ServerChallenge(random, salt, true, 0), ccfg, scfg, suite)
    ensures m.s.live && m.s.p == Challenging(n.s.p, random, salt)
    ensures m.s.sent == n.s.sent + FrameBytes(ChallengeFrame(scfg, suite, random, salt))
  {
    hide FrameBytes, ChallengeFrame;
    var p := n.s.p;
    m := n.(s := Send(n.s, p.(serverRandom := random, salt := salt), Challenging(p, random, salt),
                      ChallengeFrame(scfg, suite, random, salt), true, 0));
  }

  lemma ServerTakesResponse(n: Net, avail: seq<byte>, valid: bool, ccfg: Config, scfg: Config, suite: Suite)
    returns (m: Net)
    requires Sized(suite.hash) && n.s.live && n.s.p.state == ServerChallengeSent && Arrived(avail, n.s, n.c)
    requires HeadOf(avail).Some? && ReceiveResponse(n.s.p, HeadOf(avail).value, valid, scfg).Some?
    ensures Step(n, m, ServerReadsResponse(valid), ccfg, scfg, suite) && m.accepted
    ensures m.s.live && m.s.p == ReceiveResponse(n.s.p, HeadOf(avail).value, valid, scfg).value
    ensures m.s.p.state == ClientResponseSent && m.s.sent == n.s.sent
  {
    HeadIsNext(avail, n.s, n.c);
    m := n.(s := Took(n.s, ReceiveResponse(n.s.p, HeadOf(avail).value, valid, scfg), ReadFrom(avail).value.1),
            accepted := true);
  }

  lemma ServerSendsSuccess(n: Net, id: seq<byte>, ccfg: Config, scfg: Config, suite: Suite) returns (m: Net)
    requires Sized(suite.hash) && n.s.live && n.s.p.state == ClientResponseSent && |id| == 16
    requires PartyKey(n.s.p, scfg, suite).Some?
    ensures Step(n, m, ServerSuccess(id, true, 0), ccfg, scfg, suite)
    ensures m.s.p == Finished(WithSession(n.s.p, id, PartyKey(n.s.p, scfg, suite).value))
    ensures m.s.sent == n.s.sent + FrameBytes(SuccessFrame(id, scfg.ttl))
  {
    hide FrameBytes, SuccessFrame, PartyKey;
    var q := WithSession(n.s.p, id, PartyKey(n.s.p, scfg, suite).value);
    m := n.(s := Send(n.s, q, Finished(q), SuccessFrame(id, scfg.ttl), true, 0));
  }
}
