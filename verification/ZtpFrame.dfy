/** The frame codec of internal/protocol/ztp/frame.go: LEB128 stream ids, the in-memory parser
    `Decode`, the streaming parser `ReadFrame`, and the ACK payload. */
module ZtpFrame {
  import opened Bytes
  import opened Readers

  const FRAME_MAGIC: byte := 0x5A
  const PROTOCOL_VERSION: byte := 0x01
  const MAX_FRAME_SIZE: nat := 65535

  const TYPE_DATA: byte := 1
  const TYPE_STREAM_OPEN: byte := 2
  const TYPE_STREAM_CLOSE: byte := 3
  const TYPE_ACK: byte := 4
  const TYPE_PING: byte := 5
  const TYPE_RESET: byte := 6

  const FLAG_PRIORITY: byte := 1
  const FLAG_LOW_PRIORITY: byte := 8

  datatype Frame = Frame(magic: byte, version: byte, kind: byte, flags: byte,
                         streamID: uint32, length: uint16, payload: seq<byte>)
  {
    /** `HasFlag`, for a flag that is a single bit. */
    predicate HasFlag(flag: byte)
      requires flag != 0
    {
      (flags / flag) % 2 == 1
    }
  }

  datatype FrameError = TooShort | BadMagic | VarintOverflow | NoVarint | BadVersion | BadType | BadLength

  function NewFrame(kind: byte, streamID: uint32, payload: seq<byte>): Frame {
    Frame(FRAME_MAGIC, PROTOCOL_VERSION, kind, 0, streamID, Wrap16(|payload|), payload)
  }

  /** `Validate`; the bounds it puts on the id and the length hold of every uint32 and uint16. */
  function Validate(f: Frame): Option<FrameError> {
    if f.magic != FRAME_MAGIC then Some(BadMagic)
    else if f.version != PROTOCOL_VERSION then Some(BadVersion)
    else if f.kind < TYPE_DATA || f.kind > TYPE_RESET then Some(BadType)
    else if |f.payload| != f.length then Some(BadLength)
    else None
  }

  predicate Valid(f: Frame) {
    Validate(f).None?
  }

  // Variable-length integers

  function Varint(v: uint32): seq<byte> {
    if v < 0x80 then [v as byte] else [(v % 0x80 + 0x80) as byte] + Varint(v / 0x80)
  }

  /** 128 to the power `n`: the weight of the digit after `n` bytes. */
  function Weight(n: nat): nat {
    if n == 0 then 1 else 0x80 * Weight(n - 1)
  }

  /** `decodeVarint` after `read` bytes with value `acc`.  The digit is shifted left by `7 * read`
      within 32 bits; its bits lie above those of `acc`, so the OR is an addition.  A string
      that ends before its last byte is accepted as it stands. */
  function VarintFrom(data: seq<byte>, acc: nat, read: nat): Result<(nat, nat), FrameError> {
    if data == [] then (if read == 0 then Err(NoVarint) else Ok((acc, read)))
    else
      var value := acc + Wrap32((data[0] as int % 0x80) * Weight(read));
      if data[0] < 0x80 then Ok((value, read + 1))
      else if 7 * (read + 1) >= 32 then Err(VarintOverflow)
      else VarintFrom(data[1..], value, read + 1)
  }

  function VarintValue(data: seq<byte>): Result<(nat, nat), FrameError> {
    VarintFrom(data, 0, 0)
  }

  /** In machine words: with the digit's bits above those of the accumulator, OR adds. */
  lemma OrAdds(acc: bv32, digit: bv32, shift: bv6)
    requires shift == 0 || shift == 7 || shift == 14 || shift == 21 || shift == 28
    requires acc < (1 as bv32) << shift && digit < 0x80
    ensures acc | (digit << shift) == acc + (digit << shift)
  {
  }

  /** The lowest digit and the others, at weight `w`. */
  lemma DigitStep(v: nat, w: nat)
    requires v * w < TWO_TO_THE_32
    ensures var place := (v % 0x80) * w;
            Wrap32(place) == place && place + (v / 0x80) * (0x80 * w) == v * w
    ensures v < 0x80 ==> (v % 0x80) * w == v * w
  {
    var q, r := v / 0x80, v % 0x80;
    assert v == q * 0x80 + r;
    assert (q * 0x80 + r) * w == (q * 0x80) * w + r * w;
    assert (q * 0x80) * w == q * (0x80 * w);
    assert 0 <= r * w && 0 <= q * (0x80 * w);
  }

  /** `decodeVarint(encodeVarint(v) ++ rest)` is `v` with its encoded length, at any position. */
  lemma {:induction false} VarintFromEncoded(v: uint32, rest: seq<byte>, acc: nat, read: nat)
    requires v * Weight(read) < TWO_TO_THE_32 && read <= 4
    ensures VarintFrom(Varint(v) + rest, acc, read) == Ok((acc + v * Weight(read), read + |Varint(v)|))
    decreases v
  {
    var d := Varint(v) + rest;
    var w := Weight(read);
    DigitStep(v, w);
    FirstVarintByte(v, rest);
    if v >= 0x80 {
      LargeWeight(v, read);
      assert Weight(read + 1) == 0x80 * w;
      VarintFromEncoded(v / 0x80, rest, acc + (v % 0x80) * w, read + 1);
    }
  }

  /** The byte that holds digit `r` of an id, with the bit that says whether more digits follow. */
  function DigitByte(r: nat, more: bool): (b: byte)
    requires r < 0x80
    ensures b as int % 0x80 == r && (b < 0x80 <==> !more)
  {
    if more then (r + 0x80) as byte else r as byte
  }

  lemma FirstVarintByte(v: uint32, rest: seq<byte>)
    ensures var d := Varint(v) + rest;
            && |d| > 0 && d[0] as int % 0x80 == v % 0x80 && (d[0] < 0x80 <==> v < 0x80)
            && d[1..] == (if v < 0x80 then rest else Varint(v / 0x80) + rest)
  {
    var tail := if v < 0x80 then [] else Varint(v / 0x80);
    assert Varint(v) == [DigitByte(v % 0x80, v >= 0x80)] + tail;
    AppendFirst(Varint(v), rest);
    AppendNothing(rest);
  }

  lemma LargeWeight(v: nat, read: nat)
    requires v >= 0x80 && v * Weight(read) < TWO_TO_THE_32 && read <= 4
    ensures read <= 3
  {
    WeightFour();
  }

  lemma WeightFour()
    ensures Weight(4) == 0x1000_0000
  {
    assert Weight(1) == 0x80 && Weight(2) == 0x4000 && Weight(3) == 0x20_0000;
  }

  lemma VarintRoundTrip(v: uint32, rest: seq<byte>)
    ensures VarintValue(Varint(v) + rest) == Ok((v as nat, |Varint(v)|))
    ensures 1 <= |Varint(v)| <= 5
  {
    VarintFromEncoded(v, rest, 0, 0);
    WeightFour();
    VarintAtMost(v, 5);
  }

  lemma {:induction false} VarintAtMost(v: uint32, n: nat)
    requires 0 < n && v < Weight(n)
    ensures |Varint(v)| <= n
    decreases n
  {
    assert Weight(n) == 0x80 * Weight(n - 1) && Weight(0) == 1;
    if v >= 0x80 && n > 1 {
      VarintAtMost(v / 0x80, n - 1);
    }
  }

  /** What `n` bytes can say is below 128 to the power `n`. */
  lemma {:induction false} VarintBound(data: seq<byte>, acc: nat, read: nat)
    requires VarintFrom(data, acc, read).Ok? && acc < Weight(read)
    ensures var (v, n) := VarintFrom(data, acc, read).value; v < Weight(n) && 0 < n
    decreases |data|
  {
    if data != [] {
      var digit := data[0] as int % 0x80;
      var w := Weight(read);
      assert Weight(read + 1) == 0x80 * w;
      BoundStep(acc, digit, w);
      if data[0] >= 0x80 && 7 * (read + 1) < 32 {
        VarintBound(data[1..], acc + Wrap32(digit * w), read + 1);
      }
    }
  }

  lemma BoundStep(acc: nat, digit: nat, w: nat)
    requires acc < w && digit < 0x80
    ensures acc + Wrap32(digit * w) < 0x80 * w
  {
    assert digit * w <= 0x7F * w;
    WrapSmaller(digit * w);
  }

  lemma WrapSmaller(n: nat)
    ensures Wrap32(n) <= n
  {
  }

  /** The encoding is minimal: no byte string that decodes to `v` is shorter. */
  lemma VarintMinimal(v: uint32, data: seq<byte>)
    requires VarintValue(data).Ok? && VarintValue(data).value.0 == v
    ensures |Varint(v)| <= VarintValue(data).value.1
  {
    VarintBound(data, 0, 0);
    VarintAtMost(v, VarintValue(data).value.1);
  }

  /** What is still to be written of the number `rest`. */
  function MoreVarint(rest: uint32): seq<byte> {
    if rest == 0 then [] else Varint(rest)
  }

  function Digit(rest: uint32): byte {
    (if rest / 0x80 > 0 then rest % 0x80 + 0x80 else rest % 0x80) as byte
  }

  lemma NextDigit(rest: uint32)
    requires rest > 0
    ensures MoreVarint(rest) == [Digit(rest)] + MoreVarint(rest / 0x80)
  {
  }

  /** `encodeVarint`. */
  method EncodeVarint(value: uint32) returns (buf: seq<byte>)
    ensures buf == Varint(value)
  {
    if value == 0 {
      return [0];
    }
    var rest: uint32 := value;
    buf := [];
    assert [] + MoreVarint(rest) == Varint(value);
    while rest > 0
      invariant buf + MoreVarint(rest) == Varint(value)
    {
      NextDigit(rest);
      Assoc(buf, [Digit(rest)], MoreVarint(rest / 0x80));
      var b, next := TakeDigit(rest);
      buf, rest := buf + [b], next;
    }
    assert buf + [] == buf;
  }

  /** The body of its loop. */
  method TakeDigit(rest: uint32) returns (b: byte, next: uint32)
    ensures b == Digit(rest) && next == rest / 0x80
  {
    b := (rest % 0x80) as byte;
    next := rest / 0x80;
    if next > 0 {
      b := b + 0x80;
    }
  }

  /** `decodeVarint`. */
  method DecodeVarint(data: seq<byte>) returns (r: Result<(nat, nat), FrameError>)
    ensures r == VarintValue(data)
  {
    var result: nat, shift, bytesRead, weight: nat := 0, 0, 0, 1;
    assert data[0..] == data;
    while bytesRead < |data|
      invariant 0 <= bytesRead <= |data| && shift == 7 * bytesRead && weight == Weight(bytesRead)
      invariant VarintValue(data) == VarintFrom(data[bytesRead..], result, bytesRead)
    {
      var b := data[bytesRead];
      assert data[bytesRead..][1..] == data[bytesRead + 1..];
      bytesRead := bytesRead + 1;
      result := result + Wrap32((b as int % 0x80) * weight);
      if b < 0x80 {
        return Ok((result, bytesRead));
      }
      shift := shift + 7;
      weight := weight * 0x80;
      if shift >= 32 {
        return Err(VarintOverflow);
      }
    }
    if bytesRead == 0 {
      return Err(NoVarint);
    }
    return Ok((result, bytesRead));
  }

  // Encoding

  function FrameBytes(f: Frame): seq<byte> {
    [f.magic, f.version, f.kind, f.flags] + (Varint(f.streamID) + (Le16(f.length) + f.payload))
  }

  /** `Encode`: refuses an invalid frame, and fills the buffer part by part. */
  method Encode(f: Frame) returns (r: Result<seq<byte>, FrameError>)
    ensures r.Ok? <==> Valid(f)
    ensures r.Ok? ==> r.value == FrameBytes(f)
  {
    var invalid := Validate(f);
    if invalid.Some? {
      return Err(invalid.value);
    }
    var streamIDBytes := EncodeVarint(f.streamID);
    var totalLen := 4 + |streamIDBytes| + 2 + |f.payload|;
    var buf := new byte[totalLen];
    var header := [f.magic, f.version, f.kind, f.flags];
    CopyTo(buf, 0, header);
    CopyTo(buf, 4, streamIDBytes);
    var offset := 4 + |streamIDBytes|;
    CopyTo(buf, offset, Le16(f.length));
    offset := offset + 2;
    CopyTo(buf, offset, f.payload);
    r := Ok(buf[..]);
    FourParts(header, streamIDBytes, Le16(f.length), f.payload);
    assert buf[..] == buf[..offset + |f.payload|];
  }

  lemma FourParts(a: seq<byte>, b: seq<byte>, c: seq<byte>, d: seq<byte>)
    ensures ((([] + a) + b) + c) + d == a + (b + (c + d))
  {
  }

  // The in-memory parser

  function Decoded(data: seq<byte>): Result<Frame, FrameError> {
    if |data| < 6 then Err(TooShort)
    else if data[0] != FRAME_MAGIC then Err(BadMagic)
    else
      match VarintValue(data[4..])
      case Err(e) => Err(e)
      case Ok((id, n)) =>
        var at := 4 + n;
        if at + 2 > |data| then Err(TooShort)
        else
          var length := FromLe16(data[at..at + 2]) as int;
          if at + 2 + length > |data| then Err(TooShort)
          else
            var f := Frame(data[0], data[1], data[2], data[3], Wrap32(id), length, data[at + 2..at + 2 + length]);
            if Valid(f) then Ok(f) else Err(Validate(f).value)
  }

  /** `Decode`. */
  method Decode(data: seq<byte>) returns (r: Result<Frame, FrameError>)
    ensures r == Decoded(data)
  {
    if |data| < 6 {
      return Err(TooShort);
    }
    if data[0] != FRAME_MAGIC {
      return Err(BadMagic);
    }
    var decoded := DecodeVarint(data[4..]);
    if decoded.Err? {
      return Err(decoded.error);
    }
    var (streamID, n) := decoded.value;
    var lengthStart := 4 + n;
    if lengthStart + 2 > |data| {
      return Err(TooShort);
    }
    var length := FromLe16(data[lengthStart..lengthStart + 2]);
    var payloadStart := lengthStart + 2;
    if payloadStart + length as int > |data| {
      return Err(TooShort);
    }
    var payload := data[payloadStart..payloadStart + length as int];
    var frame := Frame(data[0], data[1], data[2], data[3], Wrap32(streamID), length, payload);
    var invalid := Validate(frame);
    if invalid.Some? {
      return Err(invalid.value);
    }
    return Ok(frame);
  }

  // The streaming parser

  /** The number of bytes up to and including the first one without a continuation bit. */
  function Terminated(data: seq<byte>): Option<nat> {
    if data == [] then None
    else if data[0] < 0x80 then Some(1)
    else
      match Terminated(data[1..])
      case Some(n) => Some(n + 1)
      case None => None
  }

  lemma {:induction false} TerminatedInside(data: seq<byte>)
    requires Terminated(data).Some?
    ensures 1 <= Terminated(data).value <= |data|
    decreases |data|
  {
    if data[0] >= 0x80 {
      TerminatedInside(data[1..]);
    }
  }

  /** Length, payload and validation, from the bytes behind the stream id. */
  function RestFrom(header: seq<byte>, id: nat, data: seq<byte>): Result<(Frame, nat), FrameError>
    requires |header| == 4
  {
    if |data| < 2 then Err(TooShort)
    else
      var length := FromLe16(data[..2]) as int;
      if |data| - 2 < length then Err(TooShort)
      else
        var f := Frame(header[0], header[1], header[2], header[3], Wrap32(id), length, data[2..2 + length]);
        if Valid(f) then Ok((f, 2 + length)) else Err(Validate(f).value)
  }

  /** The frame that `ReadFrame` takes off the front of `data`, and how many bytes it is. */
  function ReadFrom(data: seq<byte>): Result<(Frame, nat), FrameError> {
    if |data| < 4 then Err(TooShort)
    else if data[0] != FRAME_MAGIC then Err(BadMagic)
    else
      match Terminated(data[4..])
      case None => Err(TooShort)
      case Some(n) =>
        TerminatedInside(data[4..]);
        match VarintValue(data[4..4 + n])
        case Err(e) => Err(e)
        case Ok((id, _)) =>
          match RestFrom(data[..4], id, data[4 + n..])
          case Err(e) => Err(e)
          case Ok((f, k)) => Ok((f, 4 + n + k))
  }

  /** `ReadFrame`. */
  method ReadFrame(r: ByteReader) returns (result: Result<Frame, FrameError>)
    modifies r
    ensures match ReadFrom(old(r.data))
            case Ok((f, n)) => result == Ok(f) && n <= |old(r.data)| && r.data == old(r.data)[n..]
            case Err(e) => result == Err(e)
  {
    ghost var all := r.data;
    var ok, header := r.ReadFull(4);
    if !ok {
      return Err(TooShort);
    }
    if header[0] != FRAME_MAGIC {
      return Err(BadMagic);
    }
    if Terminated(all[4..]).Some? {
      TerminatedInside(all[4..]);
      SliceOfRest(all, 4, Terminated(all[4..]).value);
    }
    var id := ReadStreamID(r);
    if id.Err? {
      return Err(id.error);
    }
    ghost var rest := r.data;
    result := ReadRest(r, header, id.value);
    if result.Ok? {
      SliceOfRest(all, |all| - |rest|, RestFrom(header, id.value, rest).value.1);
    }
  }

  lemma SliceOfRest(s: seq<byte>, i: nat, n: nat)
    requires i + n <= |s|
    ensures s[i..][..n] == s[i..i + n] && s[i..][n..] == s[i + n..]
  {
  }

  method ReadRest(r: ByteReader, header: seq<byte>, id: nat) returns (result: Result<Frame, FrameError>)
    requires |header| == 4
    modifies r
    ensures match RestFrom(header, id, old(r.data))
            case Ok((f, n)) => result == Ok(f) && n <= |old(r.data)| && r.data == old(r.data)[n..]
            case Err(e) => result == Err(e)
  {
    ghost var all := r.data;
    var ok, lengthBytes := r.ReadFull(2);
    if !ok {
      return Err(TooShort);
    }
    var length := FromLe16(lengthBytes);
    SliceOfRest(all, 2, Min(length, |all| - 2));
    var payload;
    ok, payload := r.ReadFull(length as nat);
    if !ok {
      return Err(TooShort);
    }
    var frame := Frame(header[0], header[1], header[2], header[3], Wrap32(id), length, payload);
    var invalid := Validate(frame);
    if invalid.Some? {
      return Err(invalid.value);
    }
    return Ok(frame);
  }

  /** The byte-by-byte loop of `ReadFrame`. */
  method ReadStreamID(r: ByteReader) returns (result: Result<nat, FrameError>)
    modifies r
    ensures match Terminated(old(r.data))
            case None => result == Err(TooShort)
            case Some(n) =>
              && n <= |old(r.data)| && r.data == old(r.data)[n..]
              && match VarintValue(old(r.data)[..n])
                 case Ok((v, _)) => result == Ok(v)
                 case Err(e) => result == Err(e)
  {
    ghost var all := r.data;
    var streamIDBytes := [];
    assert all[0..] == all;
    while true
      invariant |streamIDBytes| <= |all| && streamIDBytes == all[..|streamIDBytes|] && r.data == all[|streamIDBytes|..]
      invariant Terminated(all) == match Terminated(r.data)
                                   case Some(k) => Some(k + |streamIDBytes|)
                                   case None => None
      decreases |r.data|
    {
      var ok, temp := r.ReadFull(1);
      if !ok {
        return Err(TooShort);
      }
      streamIDBytes := streamIDBytes + [temp[0]];
      assert streamIDBytes == all[..|streamIDBytes|];
      if temp[0] < 0x80 {
        var decoded := DecodeVarint(streamIDBytes);
        match decoded
        case Ok((v, _)) => return Ok(v);
        case Err(e) => return Err(e);
      }
    }
  }

  // The two parsers agree

  /** With a terminating byte present, bytes behind it do not matter to `decodeVarint`; without
      one it fails or swallows everything. */
  lemma {:induction false} VarintAndTerminator(data: seq<byte>, acc: nat, read: nat)
    ensures match Terminated(data)
            case Some(n) =>
              && 1 <= n <= |data| && VarintFrom(data, acc, read) == VarintFrom(data[..n], acc, read)
              && (VarintFrom(data, acc, read).Ok? ==> VarintFrom(data, acc, read).value.1 == read + n)
            case None =>
              VarintFrom(data, acc, read).Ok? ==> VarintFrom(data, acc, read).value.1 == read + |data|
    decreases |data|
  {
    if data != [] && data[0] >= 0x80 {
      var value := acc + Wrap32((data[0] as int % 0x80) * Weight(read));
      VarintAndTerminator(data[1..], value, read + 1);
      if Terminated(data[1..]).Some? {
        var n := Terminated(data[1..]).value;
        assert data[..n + 1][1..] == data[1..][..n];
      }
    }
  }

  /** On every byte string `Decode` and `ReadFrame` both fail or both return the same frame. */
  lemma ParsersAgree(data: seq<byte>)
    ensures Decoded(data).Ok? <==> ReadFrom(data).Ok?
    ensures Decoded(data).Ok? ==> Decoded(data).value == ReadFrom(data).value.0
  {
    if |data| >= 4 {
      VarintAndTerminator(data[4..], 0, 0);
      if Terminated(data[4..]).Some? {
        var n := Terminated(data[4..]).value;
        SliceOfRest(data, 4, n);
        if n + 6 <= |data| {
          SliceOfRest(data, 4 + n, 2);
          RestAtOffset(data, 4 + n);
        }
      }
    }
  }

  lemma RestAtOffset(data: seq<byte>, at: nat)
    requires at + 2 <= |data|
    ensures data[at..][..2] == data[at..at + 2]
    ensures var n := FromLe16(data[at..at + 2]) as int;
            at + 2 + n <= |data| ==> data[at..][2..2 + n] == data[at + 2..at + 2 + n]
  {
  }

  // Round trips

  lemma {:induction false} EncodedTerminates(v: uint32, rest: seq<byte>)
    ensures Terminated(Varint(v) + rest) == Some(|Varint(v)|)
    decreases v
  {
    var d := Varint(v) + rest;
    if v < 0x80 {
      assert d[0] == v as byte;
    } else {
      assert d[0] == (v % 0x80 + 0x80) as byte && d[1..] == Varint(v / 0x80) + rest;
      EncodedTerminates(v / 0x80, rest);
    }
  }

  /** The parts that `ReadFrom` cuts its input into. */
  lemma CutsInto(header: seq<byte>, id: seq<byte>, tail: seq<byte>)
    requires |header| == 4
    ensures var data := header + (id + tail);
            && data[..4] == header && data[4..] == id + tail
            && data[4..4 + |id|] == id && data[4 + |id|..] == tail
  {
  }

  /** A valid frame in front of anything is read back, and exactly its own bytes are consumed. */
  lemma ReadBack(f: Frame, rest: seq<byte>)
    requires Valid(f)
    ensures ReadFrom(FrameBytes(f) + rest) == Ok((f, |FrameBytes(f)|))
  {
    var id, header := Varint(f.streamID), [f.magic, f.version, f.kind, f.flags];
    var body := Le16(f.length) + f.payload;
    Assoc(header, id + body, rest);
    Assoc(id, body, rest);
    CutsInto(header, id, body + rest);
    EncodedTerminates(f.streamID, body + rest);
    VarintRoundTrip(f.streamID, []);
    AppendNothing(id);
    RestReadBack(f, rest);
  }

  lemma RestReadBack(f: Frame, rest: seq<byte>)
    requires Valid(f)
    ensures RestFrom([f.magic, f.version, f.kind, f.flags], f.streamID, Le16(f.length) + f.payload + rest)
            == Ok((f, 2 + |f.payload|))
  {
    var data := Le16(f.length) + f.payload + rest;
    LittleEndian16(f.length);
    assert data[..2] == Le16(f.length) && data[2..2 + |f.payload|] == f.payload;
  }

  function EncodeAll(fs: seq<Frame>): seq<byte> {
    if fs == [] then [] else FrameBytes(fs[0]) + EncodeAll(fs[1..])
  }

  /** The frames that `n` calls of `ReadFrame` return, with the bytes left. */
  function ReadMany(data: seq<byte>, n: nat): Option<(seq<Frame>, seq<byte>)>
    decreases n
  {
    if n == 0 then Some(([], data))
    else
      match ReadFrom(data)
      case Err(_) => None
      case Ok((f, k)) =>
        if k > |data| then None
        else
          match ReadMany(data[k..], n - 1)
          case None => None
          case Some((fs, rest)) => Some(([f] + fs, rest))
  }

  /** Reading a concatenation of encoded frames gives back exactly those frames and leaves
      exactly what follows them. */
  lemma {:induction false} FrameStreamRoundTrip(fs: seq<Frame>, rest: seq<byte>)
    requires forall f :: f in fs ==> Valid(f)
    ensures ReadMany(EncodeAll(fs) + rest, |fs|) == Some((fs, rest))
    decreases |fs|
  {
    if fs == [] {
      assert EncodeAll(fs) + rest == rest;
    } else {
      var more := EncodeAll(fs[1..]) + rest;
      Assoc(FrameBytes(fs[0]), EncodeAll(fs[1..]), rest);
      ReadBack(fs[0], more);
      PrefixOfAppend(FrameBytes(fs[0]), more);
      FrameStreamRoundTrip(fs[1..], rest);
      FirstAndRest(fs);
    }
  }

  lemma {:induction false} EncodeAllAppend(fs: seq<Frame>, f: Frame)
    ensures EncodeAll(fs + [f]) == EncodeAll(fs) + FrameBytes(f)
    decreases |fs|
  {
    if fs == [] {
      assert EncodeAll([f]) == FrameBytes(f) + EncodeAll([]);
      assert fs + [f] == [f];
    } else {
      EncodeAllAppend(fs[1..], f);
      AppendFirst(fs, [f]);
      Assoc(FrameBytes(fs[0]), EncodeAll(fs[1..]), FrameBytes(f));
    }
  }

  // ACK payloads

  function EncodeAckPayload(ackedBytes: uint32, windowSize: uint32): seq<byte> {
    Le32(ackedBytes) + Le32(windowSize)
  }

  function DecodeAckPayload(data: seq<byte>): Option<(uint32, uint32)> {
    if |data| != 8 then None else Some((FromLe32(data[0..4]), FromLe32(data[4..8])))
  }

  lemma AckPayloadRoundTrip(ackedBytes: uint32, windowSize: uint32)
    ensures DecodeAckPayload(EncodeAckPayload(ackedBytes, windowSize)) == Some((ackedBytes, windowSize))
  {
    var data := EncodeAckPayload(ackedBytes, windowSize);
    LittleEndian32(ackedBytes);
    LittleEndian32(windowSize);
    assert data[0..4] == Le32(ackedBytes) && data[4..8] == Le32(windowSize);
  }

  function NewAckFrame(streamID: uint32, ackedBytes: uint32, windowSize: uint32): Frame {
    NewFrame(TYPE_ACK, streamID, EncodeAckPayload(ackedBytes, windowSize)).(flags := FLAG_PRIORITY)
  }
}
