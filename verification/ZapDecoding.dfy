/** What the payload decoders of internal/protocol/zap/frame.go accept, and when they panic, for every
    byte string. */
module ZapDecoding {
  import opened Bytes
  import opened ZapFrame

  /** A slice with 16-bit offsets, of data that is there. */
  lemma Slice16Is(data: seq<byte>, start: nat, n: nat)
    requires start + n <= |data| && start <= 65535 && n <= 65535
    ensures Slice16(data, start, n) == if start + n <= 65535 then Some(data[start..start + n]) else None
  {
  }

  /** The two length bytes at `at`, and as many bytes as they say. */
  function SizedAt(data: seq<byte>, at: nat): (s: Option<seq<byte>>)
    ensures s.Some? ==> |s.value| <= 65535 && at + 2 + |s.value| <= |data|
    ensures s.Some? ==> Le16(|s.value|) == data[at..at + 2] && s.value == data[at + 2..at + 2 + |s.value|]
  {
    if |data| < at + 2 || |data| < at + 2 + FromLe16(data[at..at + 2]) then None
    else Some(data[at + 2..at + 2 + FromLe16(data[at..at + 2])])
  }

  lemma SizedIs(data: seq<byte>, at: nat, s: seq<byte>)
    requires |s| <= 65535
    ensures SizedAt(data, at) == Some(s) <==>
            |data| >= at + 2 + |s| && data[at..at + 2] == Le16(|s|) && data[at + 2..at + 2 + |s|] == s
  {
    LittleEndian16(|s|);
  }

  lemma OneMorePart(front: seq<byte>, s: seq<byte>, data: seq<byte>)
    ensures front + s <= data <==>
            front <= data && |data| >= |front| + |s| && data[|front|..|front| + |s|] == s
  {
    var n := |front|;
    assert (front + s)[..n] == front && (front + s)[n..] == s;
    if |data| >= n + |s| {
      assert data[..n + |s|] == data[..n] + data[n..n + |s|];
      assert (data[..n] + data[n..n + |s|])[..n] == data[..n] && (data[..n] + data[n..n + |s|])[n..] == data[n..n + |s|];
    }
  }

  // ClientHello

  lemma HelloParts(data: seq<byte>, h: Hello)
    requires |h.random| == 32 && |h.publicKey| <= 65535
    ensures HelloBytes(h.authMethod, h.random, h.publicKey) <= data <==>
            |data| >= 35 && data[0] == h.authMethod && data[1..33] == h.random && SizedAt(data, 33) == Some(h.publicKey)
  {
    hide Le16, SizedAt;
    var first, length := [h.authMethod], Le16(|h.publicKey|);
    TwoBytes(|h.publicKey|);
    OneMorePart(first, h.random, data);
    OneMorePart(first + h.random, length, data);
    OneMorePart(first + h.random + length, h.publicKey, data);
    SizedIs(data, 33, h.publicKey);
  }

  lemma TwoBytes(n: uint16)
    ensures |Le16(n)| == 2
  {
  }

  /** A hello is accepted exactly if its encoding is in front of the data and its key has at most 65500 bytes;
      the decoder panics exactly if a longer key is there in full. */
  lemma HelloAccepted(data: seq<byte>, h: Hello)
    ensures DecodeClientHello(data) == Ok(h) <==>
            && |h.random| == 32 && |h.publicKey| <= 65500
            && HelloBytes(h.authMethod, h.random, h.publicKey) <= data
    ensures DecodeClientHello(data) == Err(OutOfRange) <==> SizedAt(data, 33).Some? && |SizedAt(data, 33).value| > 65500
  {
    hide HelloBytes;
    if SizedAt(data, 33).Some? {
      Slice16Is(data, 35, |SizedAt(data, 33).value|);
    }
    if |h.random| == 32 && |h.publicKey| <= 65535 {
      HelloParts(data, h);
    }
  }

  // ServerChallenge

  /** The parts of a challenge, where they stand. */
  predicate Laid(data: seq<byte>, c: Challenge) {
    var at := 34 + |c.publicKey|;
    && |data| >= at + 18 && data[..32] == c.random && SizedAt(data, 32) == Some(c.publicKey)
    && data[at..at + 16] == c.salt && SizedAt(data, at + 16) == Some(c.signature)
  }

  predicate Sizes(c: Challenge) {
    |c.random| == 32 && |c.salt| == 16 && |c.publicKey| <= 65535 && |c.signature| <= 65535
  }

  lemma ChallengeLaid(data: seq<byte>, c: Challenge)
    requires Sizes(c)
    ensures ChallengeBytes(c.random, c.publicKey, c.salt, c.signature) <= data <==> Laid(data, c)
  {
    hide Le16, SizedAt, Cut;
    var key, sig := c.publicKey, c.signature;
    TwoBytes(|key|);
    TwoBytes(|sig|);
    var keyed := c.random + Le16(|key|) + key;
    OneMorePart(c.random, Le16(|key|), data);
    OneMorePart(c.random + Le16(|key|), key, data);
    OneMorePart(keyed, c.salt, data);
    OneMorePart(keyed + c.salt, Le16(|sig|), data);
    OneMorePart(keyed + c.salt + Le16(|sig|), sig, data);
    SizedIs(data, 32, key);
    SizedIs(data, 50 + |key|, sig);
  }

  lemma ChallengeTaken(data: seq<byte>, c: Challenge)
    ensures DecodeServerChallenge(data) == Ok(c) <==> Sizes(c) && |c.publicKey| <= 65501 && Laid(data, c)
    ensures DecodeServerChallenge(data) == Err(OutOfRange) <==>
            var key := SizedAt(data, 32);
            key.Some? && |key.value| > 65501 && |data| >= 52 + |key.value|
  {
    hide Slice16, FromLe16;
    var key := SizedAt(data, 32);
    if key.Some? && |data| >= 52 + |key.value| {
      Slice16Is(data, 34, |key.value|);
    }
  }

  /** A challenge is accepted exactly if its encoding is in front of the data and its key has at most 65501
      bytes; the decoder panics exactly if a longer key is there with 18 bytes behind it. */
  lemma ChallengeAccepted(data: seq<byte>, c: Challenge)
    ensures DecodeServerChallenge(data) == Ok(c) <==>
            && Sizes(c) && |c.publicKey| <= 65501
            && ChallengeBytes(c.random, c.publicKey, c.salt, c.signature) <= data
    ensures DecodeServerChallenge(data) == Err(OutOfRange) <==>
            var key := SizedAt(data, 32);
            key.Some? && |key.value| > 65501 && |data| >= 52 + |key.value|
  {
    hide ChallengeBytes, DecodeServerChallenge, Laid, SizedAt;
    ChallengeTaken(data, c);
    if Sizes(c) {
      ChallengeLaid(data, c);
    }
  }

  // ClientResponse

  lemma ResponseInFront(data: seq<byte>, authData: seq<byte>, hmac: seq<byte>)
    requires |hmac| == 32 && |authData| <= 65535
    ensures ResponseBytes(authData, hmac) <= data <==>
            && SizedAt(data, 0) == Some(authData) && |data| >= 34 + |authData|
            && data[2 + |authData|..34 + |authData|] == hmac
  {
    hide Le16, SizedAt;
    assert hmac[..32] == hmac;
    TwoBytes(|authData|);
    OneMorePart(Le16(|authData|), authData, data);
    OneMorePart(Le16(|authData|) + authData, hmac, data);
    SizedIs(data, 0, authData);
  }

  /** A response is accepted exactly if its encoding is in front of the data and its authentication data has
      at most 65501 bytes; the decoder panics exactly if more are there, with an HMAC behind them. */
  lemma ResponseAccepted(data: seq<byte>, authData: seq<byte>, hmac: seq<byte>)
    ensures DecodeClientResponse(data) == Ok((authData, hmac)) <==>
            |hmac| == 32 && |authData| <= 65501 && ResponseBytes(authData, hmac) <= data
    ensures DecodeClientResponse(data) == Err(OutOfRange) <==>
            var auth := SizedAt(data, 0);
            auth.Some? && |auth.value| > 65501 && |data| >= 34 + |auth.value|
  {
    hide ResponseBytes, Slice16;
    var auth := SizedAt(data, 0);
    if auth.Some? && |data| >= 34 + |auth.value| {
      Slice16Is(data, 2, |auth.value|);
      if |auth.value| <= 65533 {
        Slice16Is(data, 2 + |auth.value|, 32);
      }
    }
    if |hmac| == 32 && |authData| <= 65535 {
      ResponseInFront(data, authData, hmac);
    }
  }

  // ServerSuccess, Error

  /** A success payload is accepted exactly if its encoding is in front of the data. */
  lemma SuccessAccepted(data: seq<byte>, sessionID: seq<byte>, ttl: uint32)
    ensures DecodeServerSuccess(data) == Ok((sessionID, ttl)) <==>
            |sessionID| == 16 && SuccessBytes(sessionID, ttl) <= data
  {
    LittleEndian32(ttl);
    if |sessionID| == 16 && SuccessBytes(sessionID, ttl) <= data {
      SuccessRoundTrip(sessionID, ttl, data[20..]);
      assert data == SuccessBytes(sessionID, ttl) + data[20..];
    }
    if |data| >= 20 {
      LittleEndian32Back(data[16..20]);
      assert data[..20] == data[0..16] + data[16..20];
    }
  }

  lemma LittleEndian32Back(b: seq<byte>)
    requires |b| == 4
    ensures Le32(FromLe32(b)) == b
  {
    var n := FromLe32(b);
    HalfWords(n);
    assert n == FromBe16(b[3], b[2]) * 0x1_0000 + FromBe16(b[1], b[0]);
    Halves(FromBe16(b[3], b[2]), FromBe16(b[1], b[0]));
    BigEndian16Back(b[3], b[2]);
    BigEndian16Back(b[1], b[0]);
  }

  lemma Halves(hi: uint16, lo: uint16)
    ensures (hi * 0x1_0000 + lo) / 0x1_0000 == hi && (hi * 0x1_0000 + lo) % 0x1_0000 == lo
  {
  }

  /** An error is accepted exactly if its encoding is in front of the data and its message has at most 65531
      bytes; the decoder panics exactly if a longer one is there in full. */
  lemma ErrorAccepted(data: seq<byte>, code: uint16, message: seq<byte>)
    ensures DecodeError(data) == Ok((code, message)) <==> |message| <= 65531 && ErrorBytes(code, message) <= data
    ensures DecodeError(data) == Err(OutOfRange) <==> SizedAt(data, 2).Some? && |SizedAt(data, 2).value| > 65531
  {
    hide ErrorBytes;
    if SizedAt(data, 2).Some? {
      Slice16Is(data, 4, |SizedAt(data, 2).value|);
    }
    if |message| <= 65535 {
      ErrorInFront(data, code, message);
    }
  }

  lemma ErrorInFront(data: seq<byte>, code: uint16, message: seq<byte>)
    requires |message| <= 65535
    ensures ErrorBytes(code, message) <= data <==>
            SizedAt(data, 2) == Some(message) && FromLe16(data[0..2]) == code
  {
    hide SizedAt;
    var length := Le16(|message|);
    OneMorePart(Le16(code), length, data);
    OneMorePart(Le16(code) + length, message, data);
    SizedIs(data, 2, message);
    LittleEndian16(code);
    if |data| >= 2 {
      LittleEndian16Back(data[0..2]);
    }
  }

  lemma LittleEndian16Back(b: seq<byte>)
    requires |b| == 2
    ensures Le16(FromLe16(b)) == b
  {
  }

  // Frames

  lemma HeaderTaken(h: seq<byte>)
    requires |h| == HEADER_SIZE
    ensures match Header(h)
            case Ok(f) => f.payload == [] && f.magic == MAGIC && f.version == VERSION && HeaderBytes(f) == h
            case Err(_) => true
  {
    LittleEndian32Back(h[0..4]);
    LittleEndian32Back(h[8..12]);
    assert h == h[0..4] + [h[4], h[5], h[6], h[7]] + h[8..12];
  }

  /** The streaming parser accepts a frame exactly if its encoding is in front, and takes just that. */
  lemma FrameAccepted(data: seq<byte>, f: Frame, n: nat)
    ensures ReadFrom(data) == Ok((f, n)) <==>
            && f.magic == MAGIC && f.version == VERSION && f.length == |f.payload|
            && FrameBytes(f) <= data && n == |FrameBytes(f)|
  {
    hide Header, HeaderBytes;
    if f.magic == MAGIC && f.version == VERSION && f.length == |f.payload| && FrameBytes(f) <= data {
      ReadBack(f, data[|FrameBytes(f)|..]);
      assert data == FrameBytes(f) + data[|FrameBytes(f)|..];
    }
    if ReadFrom(data) == Ok((f, n)) {
      var h := data[..HEADER_SIZE];
      HeaderTaken(h);
      var g := Header(h).value;
      HeaderOnly(g, f.payload);
      assert data[..n] == h + f.payload;
    }
  }

  lemma HeaderOnly(f: Frame, payload: seq<byte>)
    ensures HeaderBytes(f.(payload := payload)) == HeaderBytes(f) && |HeaderBytes(f)| == HEADER_SIZE
  {
  }
}
