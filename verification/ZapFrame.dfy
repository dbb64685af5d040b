/** The frame and payload codecs of internal/protocol/zap/frame.go.  The decoders of payloads of
    variable length slice with 16-bit offsets, which decides exactly which payloads survive. */
module ZapFrame {
  import opened Bytes
  import opened Readers

  const MAGIC: uint32 := 0x5A415020
  const VERSION: byte := 0x01
  const HEADER_SIZE: nat := 12

  const TYPE_CLIENT_HELLO: byte := 0x01
  const TYPE_SERVER_CHALLENGE: byte := 0x02
  const TYPE_CLIENT_RESPONSE: byte := 0x03
  const TYPE_SERVER_SUCCESS: byte := 0x04
  const TYPE_ERROR: byte := 0xFF

  datatype Frame = Frame(magic: uint32, version: byte, kind: byte, flags: byte, reserved: byte, length: uint32,
                         payload: seq<byte>)

  /** `OutOfRange` is a run-time panic. */
  datatype ZapError = TooShort | BadMagic | BadVersion | BadLength | OutOfRange | Ended

  function NewFrame(kind: byte, payload: seq<byte>): Frame {
    Frame(MAGIC, VERSION, kind, 0, 0, Wrap32(|payload|), payload)
  }

  function HeaderBytes(f: Frame): seq<byte> {
    Le32(f.magic) + [f.version, f.kind, f.flags, f.reserved] + Le32(f.length)
  }

  function FrameBytes(f: Frame): seq<byte> {
    HeaderBytes(f) + f.payload
  }

  /** `Encode`. */
  method Encode(f: Frame) returns (data: seq<byte>)
    ensures data == FrameBytes(f)
  {
    var buf := new byte[HEADER_SIZE + |f.payload|];
    CopyTo(buf, 0, Le32(f.magic));
    CopyTo(buf, 4, [f.version, f.kind, f.flags, f.reserved]);
    CopyTo(buf, 8, Le32(f.length));
    if |f.payload| > 0 {
      CopyTo(buf, 12, f.payload);
    }
    assert buf[..0] == [] && buf[..] == buf[..12 + |f.payload|];
    data := buf[..];
  }

  /** The checks and fields that both parsers share. */
  function Header(h: seq<byte>): Result<Frame, ZapError>
    requires |h| == HEADER_SIZE
  {
    if FromLe32(h[0..4]) != MAGIC then Err(BadMagic)
    else if h[4] != VERSION then Err(BadVersion)
    else Ok(Frame(MAGIC, VERSION, h[5], h[6], h[7], FromLe32(h[8..12]), []))
  }

  /** `Decode`: bytes after the payload are ignored.  Both comparisons are made in 32 bits. */
  function Decode(data: seq<byte>): Result<Frame, ZapError> {
    if |data| < HEADER_SIZE then Err(TooShort)
    else
      match Header(data[..HEADER_SIZE])
      case Err(e) => Err(e)
      case Ok(f) =>
        if Wrap32(|data| - HEADER_SIZE) < f.length then Err(BadLength)
        else
          var end := Wrap32(HEADER_SIZE + f.length);
          if f.length == 0 then Ok(f)
          else if end < HEADER_SIZE || |data| < end then Err(OutOfRange)
          else Ok(f.(payload := data[HEADER_SIZE..end]))
  }

  /** What `ReadFrame` makes of the bytes a reader still has, and how many it takes. */
  function ReadFrom(data: seq<byte>): Result<(Frame, nat), ZapError> {
    if data == [] then Err(Ended)
    else if |data| < HEADER_SIZE then Err(TooShort)
    else
      match Header(data[..HEADER_SIZE])
      case Err(e) => Err(e)
      case Ok(f) =>
        if |data| < HEADER_SIZE + f.length then Err(TooShort)
        else Ok((f.(payload := data[HEADER_SIZE..HEADER_SIZE + f.length]), HEADER_SIZE + f.length))
  }

  /** `ReadFrame`. */
  method ReadFrame(r: ByteReader) returns (result: Result<Frame, ZapError>)
    modifies r
    ensures match ReadFrom(old(r.data))
            case Ok((f, n)) => result == Ok(f) && n <= |old(r.data)| && r.data == old(r.data)[n..]
            case Err(e) => result == Err(e)
  {
    ghost var all := r.data;
    var n := |r.data|;
    var ok, header := r.ReadFull(HEADER_SIZE);
    if !ok {
      return Err(if n == 0 then Ended else TooShort);
    }
    match Header(header)
    case Err(e) => return Err(e);
    case Ok(f) =>
      if f.length > 0 {
        var payload;
        ok, payload := r.ReadFull(f.length as nat);
        if !ok {
          return Err(TooShort);
        }
        assert payload == all[HEADER_SIZE..HEADER_SIZE + f.length];
        return Ok(f.(payload := payload));
      }
      assert all[HEADER_SIZE..HEADER_SIZE] == [];
      return Ok(f);
  }

  lemma HeaderReadBack(f: Frame, rest: seq<byte>)
    requires f.magic == MAGIC && f.version == VERSION
    ensures var data := HeaderBytes(f) + rest;
            |HeaderBytes(f)| == HEADER_SIZE && Header(data[..HEADER_SIZE]) == Ok(f.(payload := []))
  {
    var data := HeaderBytes(f) + rest;
    PrefixOfAppend(HeaderBytes(f), rest);
    var h := data[..HEADER_SIZE];
    assert h[0..4] == Le32(f.magic) && h[8..12] == Le32(f.length);
    LittleEndian32(f.magic);
    LittleEndian32(f.length);
  }

  /** A frame in front of anything is read back by the streaming parser, which takes exactly its
      bytes, and by `Decode`, which ignores what follows. */
  lemma ReadBack(f: Frame, rest: seq<byte>)
    requires f.magic == MAGIC && f.version == VERSION && f.length == |f.payload|
    ensures ReadFrom(FrameBytes(f) + rest) == Ok((f, |FrameBytes(f)|))
    ensures |FrameBytes(f)| + |rest| < TWO_TO_THE_32 ==> Decode(FrameBytes(f) + rest) == Ok(f)
  {
    var data := FrameBytes(f) + rest;
    Assoc(HeaderBytes(f), f.payload, rest);
    HeaderReadBack(f, f.payload + rest);
    PayloadInside(HeaderBytes(f), f.payload, rest);
    if |data| < TWO_TO_THE_32 {
      ParsersAgree(data);
    }
  }

  lemma PayloadInside(h: seq<byte>, payload: seq<byte>, rest: seq<byte>)
    ensures (h + (payload + rest))[|h|..|h| + |payload|] == payload
  {
  }

  /** Below 4 GiB the two parsers accept the same strings and return the same frame; an empty
      string is the end of the stream to one and too short to the other. */
  lemma ParsersAgree(data: seq<byte>)
    requires |data| < TWO_TO_THE_32
    ensures match Decode(data)
            case Ok(f) => ReadFrom(data).Ok? && ReadFrom(data).value.0 == f
            case Err(e) => ReadFrom(data).Err? && e != OutOfRange
  {
    if |data| >= HEADER_SIZE && Header(data[..HEADER_SIZE]).Ok? {
      assert data[HEADER_SIZE..HEADER_SIZE] == [];
    }
  }

  // Payloads.  `Cut` is the length that fits the 16-bit field, `Fixed` a copy into `n` zero bytes.

  function Cut(s: seq<byte>): (c: seq<byte>)
    ensures |c| <= 65535 && c <= s && (c == s <==> |s| <= 65535)
  {
    if |s| > 65535 then s[..65535] else s
  }

  function Fixed(s: seq<byte>, n: nat): (c: seq<byte>)
    ensures |c| == n && (|s| == n ==> c == s)
  {
    if |s| >= n then s[..n] else s + seq(n - |s|, _ => 0 as byte)
  }

  /** A length in two bytes, and what it counts. */
  method PutSized(buf: array<byte>, at: nat, s: seq<byte>)
    requires |s| <= 65535 && at + 2 + |s| <= buf.Length
    modifies buf
    ensures buf[..at + 2 + |s|] == old(buf[..at]) + Le16(|s|) + s
  {
    CopyTo(buf, at, Le16(|s|));
    CopyTo(buf, at + 2, s);
  }

  /** `data[from : from+n]` with both offsets computed in 16 bits; out of range when the second one
      has wrapped below the first or lies beyond the data. */
  function Slice16(data: seq<byte>, start: nat, n: nat): Option<seq<byte>> {
    var i, j := Wrap16(start), Wrap16(start + n);
    if i <= j <= |data| then Some(data[i..j]) else None
  }

  lemma Slice16Inside(before: seq<byte>, s: seq<byte>, after: seq<byte>)
    requires |before| <= 65535
    ensures Slice16(before + s + after, |before|, |s|) == Some(s) <==> |before| + |s| <= 65535
    ensures Slice16(before + s + after, |before|, |s|).None? <==> |before| + |s| > 65535 && Wrap16(|before| + |s|) < |before|
  {
    var data := before + s + after;
    if |before| + |s| <= 65535 {
      assert data[|before|..|before| + |s|] == s;
    } else {
      var r := Slice16(data, |before|, |s|);
      assert r.Some? ==> |r.value| == Wrap16(|before| + |s|) - |before| < |s|;
    }
  }

  // ClientHello: method, random, public key

  function HelloBytes(authMethod: byte, random: seq<byte>, publicKey: seq<byte>): seq<byte> {
    [authMethod] + Fixed(random, 32) + Le16(|Cut(publicKey)|) + Cut(publicKey)
  }

  method EncodeClientHello(authMethod: byte, random: seq<byte>, publicKey: seq<byte>) returns (buf: array<byte>)
    ensures fresh(buf) && buf[..] == HelloBytes(authMethod, random, publicKey)
  {
    var pubKeyLen := Min(|publicKey|, 65535);
    buf := new byte[35 + pubKeyLen];
    CopyTo(buf, 0, [authMethod]);
    CopyTo(buf, 1, Fixed(random, 32));
    PutSized(buf, 33, publicKey[..pubKeyLen]);
    assert buf[..0] == [] && buf[..] == buf[..35 + pubKeyLen] && publicKey[..pubKeyLen] == Cut(publicKey);
  }

  datatype Hello = Hello(authMethod: byte, random: seq<byte>, publicKey: seq<byte>)

  function DecodeClientHello(data: seq<byte>): Result<Hello, ZapError> {
    if |data| < 35 then Err(TooShort)
    else
      var pubKeyLen := FromLe16(data[33..35]);
      if |data| < 35 + pubKeyLen then Err(BadLength)
      else
        match Slice16(data, 35, pubKeyLen)
        case None => Err(OutOfRange)
        case Some(key) => Ok(Hello(data[0], data[1..33], key))
  }

  /** A hello comes back exactly when its public key has at most 65500 bytes; with any longer key
      the decoder panics. */
  lemma HelloRoundTrip(authMethod: byte, random: seq<byte>, publicKey: seq<byte>)
    requires |random| == 32
    ensures DecodeClientHello(HelloBytes(authMethod, random, publicKey))
            == if |publicKey| <= 65500 then Ok(Hello(authMethod, random, publicKey)) else Err(OutOfRange)
  {
    var key := Cut(publicKey);
    var before := [authMethod] + random + Le16(|key|);
    var data := HelloBytes(authMethod, random, publicKey);
    assert data[1..33] == random && data[33..35] == Le16(|key|);
    LittleEndian16(|key|);
    assert data == before + key + [];
    Slice16Inside(before, key, []);
  }

  // ServerChallenge: random, public key, salt, signature

  function ChallengeBytes(random: seq<byte>, publicKey: seq<byte>, salt: seq<byte>, signature: seq<byte>): seq<byte> {
    Fixed(random, 32) + Le16(|Cut(publicKey)|) + Cut(publicKey)
    + Fixed(salt, 16) + Le16(|Cut(signature)|) + Cut(signature)
  }

  method EncodeServerChallenge(random: seq<byte>, publicKey: seq<byte>, salt: seq<byte>, signature: seq<byte>)
    returns (buf: array<byte>)
    ensures fresh(buf) && buf[..] == ChallengeBytes(random, publicKey, salt, signature)
  {
    var pubKeyLen, sigLen := Min(|publicKey|, 65535), Min(|signature|, 65535);
    buf := new byte[52 + pubKeyLen + sigLen];
    CopyTo(buf, 0, Fixed(random, 32));
    PutSized(buf, 32, publicKey[..pubKeyLen]);
    CopyTo(buf, 34 + pubKeyLen, Fixed(salt, 16));
    PutSized(buf, 50 + pubKeyLen, signature[..sigLen]);
    assert publicKey[..pubKeyLen] == Cut(publicKey) && signature[..sigLen] == Cut(signature);
    WholeChallenge(buf[..], random, publicKey, salt, signature);
  }

  lemma WholeChallenge(buf: seq<byte>, random: seq<byte>, publicKey: seq<byte>, salt: seq<byte>, signature: seq<byte>)
    requires buf == [] + Fixed(random, 32) + Le16(|Cut(publicKey)|) + Cut(publicKey)
                    + Fixed(salt, 16) + Le16(|Cut(signature)|) + Cut(signature)
    ensures buf == ChallengeBytes(random, publicKey, salt, signature)
  {
  }

  datatype Challenge = Challenge(random: seq<byte>, publicKey: seq<byte>, salt: seq<byte>, signature: seq<byte>)

  function DecodeServerChallenge(data: seq<byte>): Result<Challenge, ZapError> {
    if |data| < 50 then Err(TooShort)
    else
      var pubKeyLen := FromLe16(data[32..34]);
      if |data| < 34 + pubKeyLen + 18 then Err(BadLength)
      else
        match Slice16(data, 34, pubKeyLen)
        case None => Err(OutOfRange)
        case Some(key) =>
          var offset := 34 + pubKeyLen;
          var sigLen := FromLe16(data[offset + 16..offset + 18]);
          if |data| < offset + 18 + sigLen then Err(BadLength)
          else Ok(Challenge(data[0..32], key, data[offset..offset + 16], data[offset + 18..offset + 18 + sigLen]))
  }

  lemma ChallengeParts(random: seq<byte>, key: seq<byte>, salt: seq<byte>, sig: seq<byte>)
    requires |random| == 32 && |key| <= 65535 && |salt| == 16 && |sig| <= 65535
    ensures var data, offset := random + Le16(|key|) + key + salt + Le16(|sig|) + sig, 34 + |key|;
            && |data| == offset + 18 + |sig| && data[0..32] == random && data[32..34] == Le16(|key|)
            && data[offset..offset + 16] == salt && data[offset + 16..offset + 18] == Le16(|sig|)
            && data[offset + 18..offset + 18 + |sig|] == sig
            && data == (random + Le16(|key|)) + key + (salt + Le16(|sig|) + sig)
  {
  }

  /** A challenge comes back exactly when its public key has at most 65501 bytes and its signature
      at most 65535; a longer key makes the decoder panic, a longer signature is cut. */
  lemma ChallengeRoundTrip(random: seq<byte>, publicKey: seq<byte>, salt: seq<byte>, signature: seq<byte>)
    requires |random| == 32 && |salt| == 16
    ensures DecodeServerChallenge(ChallengeBytes(random, publicKey, salt, signature))
            == if |publicKey| <= 65501 then Ok(Challenge(random, publicKey, salt, Cut(signature))) else Err(OutOfRange)
  {
    var key, sig := Cut(publicKey), Cut(signature);
    ChallengeParts(random, key, salt, sig);
    LittleEndian16(|key|);
    LittleEndian16(|sig|);
    Slice16Inside(random + Le16(|key|), key, salt + Le16(|sig|) + sig);
  }

  // ClientResponse: authentication data, HMAC

  function ResponseBytes(authData: seq<byte>, hmac: seq<byte>): seq<byte>
    requires |hmac| >= 32
  {
    Le16(|Cut(authData)|) + Cut(authData) + hmac[..32]
  }

  /** Slices the HMAC to 32 bytes, which the caller has to provide. */
  method EncodeClientResponse(authData: seq<byte>, hmac: seq<byte>) returns (buf: array<byte>)
    requires |hmac| >= 32
    ensures fresh(buf) && buf[..] == ResponseBytes(authData, hmac)
  {
    var authDataLen := Min(|authData|, 65535);
    buf := new byte[34 + authDataLen];
    PutSized(buf, 0, authData[..authDataLen]);
    CopyTo(buf, 2 + authDataLen, hmac[..32]);
    assert buf[..0] == [] && buf[..] == buf[..34 + authDataLen] && authData[..authDataLen] == Cut(authData);
  }

  function DecodeClientResponse(data: seq<byte>): Result<(seq<byte>, seq<byte>), ZapError> {
    if |data| < 34 then Err(TooShort)
    else
      var authDataLen := FromLe16(data[0..2]);
      if |data| < 34 + authDataLen then Err(BadLength)
      else
        match (Slice16(data, 2, authDataLen), Slice16(data, 2 + authDataLen, 32))
        case (Some(authData), Some(hmac)) => Ok((authData, hmac))
        case _ => Err(OutOfRange)
  }

  /** A response comes back exactly when its authentication data has at most 65501 bytes. */
  lemma ResponseRoundTrip(authData: seq<byte>, hmac: seq<byte>)
    requires |hmac| == 32
    ensures DecodeClientResponse(ResponseBytes(authData, hmac))
            == if |authData| <= 65501 then Ok((authData, hmac)) else Err(OutOfRange)
  {
    var auth := Cut(authData);
    var data, head := ResponseBytes(authData, hmac), Le16(|Cut(authData)|);
    LittleEndian16(|auth|);
    assert data[0..2] == head && hmac[..32] == hmac;
    Slice16Inside(head, auth, hmac);
    if |auth| <= 65533 {
      assert data == (head + auth) + hmac + [];
      Slice16Inside(head + auth, hmac, []);
    }
  }

  // ServerSuccess: session id, lifetime

  function SuccessBytes(sessionID: seq<byte>, ttl: uint32): seq<byte>
    requires |sessionID| >= 16
  {
    sessionID[..16] + Le32(ttl)
  }

  method EncodeServerSuccess(sessionID: seq<byte>, ttl: uint32) returns (buf: array<byte>)
    requires |sessionID| >= 16
    ensures fresh(buf) && buf[..] == SuccessBytes(sessionID, ttl)
  {
    buf := new byte[20];
    CopyTo(buf, 0, sessionID[..16]);
    CopyTo(buf, 16, Le32(ttl));
    assert buf[..0] == [] && buf[..] == buf[..20];
  }

  function DecodeServerSuccess(data: seq<byte>): Result<(seq<byte>, uint32), ZapError> {
    if |data| < 20 then Err(TooShort) else Ok((data[0..16], FromLe32(data[16..20])))
  }

  lemma SuccessRoundTrip(sessionID: seq<byte>, ttl: uint32, rest: seq<byte>)
    requires |sessionID| == 16
    ensures DecodeServerSuccess(SuccessBytes(sessionID, ttl) + rest) == Ok((sessionID, ttl))
  {
    var data := SuccessBytes(sessionID, ttl) + rest;
    LittleEndian32(ttl);
    assert data[0..16] == sessionID && data[16..20] == Le32(ttl);
  }

  // Error: code, message

  function ErrorBytes(code: uint16, message: seq<byte>): seq<byte> {
    Le16(code) + Le16(|Cut(message)|) + Cut(message)
  }

  method EncodeError(code: uint16, message: seq<byte>) returns (buf: array<byte>)
    ensures fresh(buf) && buf[..] == ErrorBytes(code, message)
  {
    var msgLen := Min(|message|, 65535);
    buf := new byte[4 + msgLen];
    CopyTo(buf, 0, Le16(code));
    PutSized(buf, 2, message[..msgLen]);
    assert buf[..0] == [] && buf[..] == buf[..4 + msgLen] && message[..msgLen] == Cut(message);
  }

  function DecodeError(data: seq<byte>): Result<(uint16, seq<byte>), ZapError> {
    if |data| < 4 then Err(TooShort)
    else
      var msgLen := FromLe16(data[2..4]);
      if |data| < 4 + msgLen then Err(BadLength)
      else
        match Slice16(data, 4, msgLen)
        case None => Err(OutOfRange)
        case Some(message) => Ok((FromLe16(data[0..2]), message))
  }

  /** An error comes back exactly when its message has at most 65531 bytes. */
  lemma ErrorRoundTrip(code: uint16, message: seq<byte>)
    ensures DecodeError(ErrorBytes(code, message)) == if |message| <= 65531 then Ok((code, message)) else Err(OutOfRange)
  {
    var data, msg := ErrorBytes(code, message), Cut(message);
    LittleEndian16(code);
    LittleEndian16(|msg|);
    assert data[0..2] == Le16(code) && data[2..4] == Le16(|msg|);
    assert data == (Le16(code) + Le16(|msg|)) + msg + [];
    Slice16Inside(Le16(code) + Le16(|msg|), msg, []);
  }
}
