/** The HTTP/3-style obfuscators of internal/protocol/zop/http3.go: three ways of cutting a
    payload into frames and two ways of reading it back. */
module Http3Codec {
  import opened Bytes
  import opened Http3Frames
  import opened Connections

  const OBFUSCATE_CHUNK: nat := 32768
  const ZERO_COPY_CHUNK: nat := 65535

  datatype DecodeError = Truncated | UnknownKind | NoData

  // Specification of the encoders

  /** The DATA frames that carry `p` in pieces of at most `max` bytes. */
  function DataFrames(p: seq<byte>, max: nat): seq<Frame>
    requires max > 0
  {
    if p == [] then []
    else var k := Min(|p|, max); [Frame(DATA, p[..k])] + DataFrames(p[k..], max)
  }

  function HeadersBytes(headers: seq<byte>): seq<byte> {
    Encode(Frame(HEADERS, headers))
  }

  /** The bytes of `Obfuscate` and of `StreamObfuscate` for the same HEADERS payload. */
  function Obfuscated(headers: seq<byte>, p: seq<byte>): seq<byte> {
    HeadersBytes(headers) + Serialise(DataFrames(p, OBFUSCATE_CHUNK))
  }

  function Chunks(n: nat, max: nat): nat
    requires max > 0
  {
    (n + max - 1) / max
  }

  /** No matter the chunk size, the DATA frames carry exactly the payload; the framing costs
      three bytes a chunk. */
  lemma {:induction false} DataFramesCarry(p: seq<byte>, max: nat)
    requires 0 < max < TWO_TO_THE_16
    ensures Data(DataFrames(p, max)) == p
    ensures AllFit(DataFrames(p, max)) && AllSound(DataFrames(p, max))
    ensures Credit(DataFrames(p, max)) == 0
    ensures forall f :: f in DataFrames(p, max) ==> f.kind == DATA
    decreases |p|
  {
    if p != [] {
      var k := Min(|p|, max);
      DataFramesCarry(p[k..], max);
      SplitAt(p, k);
    }
  }

  /** The number of DATA frames is the rounded-up quotient, and each adds three bytes. */
  lemma {:induction false} DataFramesCount(p: seq<byte>, max: nat)
    requires max > 0
    ensures |DataFrames(p, max)| == Chunks(|p|, max)
    ensures |Serialise(DataFrames(p, max))| == |p| + 3 * Chunks(|p|, max)
    decreases |p|
  {
    if p == [] {
      QuotientUnique(max - 1, max, 0);
    } else {
      var k := Min(|p|, max);
      DataFramesCount(p[k..], max);
      assert DataFrames(p, max)[1..] == DataFrames(p[k..], max);
      OneChunkMore(|p|, max);
    }
  }

  lemma OneChunkMore(n: nat, max: nat)
    requires max > 0 && n > 0
    ensures Chunks(n, max) == 1 + Chunks(n - Min(n, max), max)
  {
    var rest := n - Min(n, max);
    var q := Chunks(rest, max);
    assert rest + max - 1 == q * max + (rest + max - 1) % max;
    assert (q + 1) * max == q * max + max;
    if n >= max {
      QuotientUnique(n + max - 1, max, q + 1);
    } else {
      QuotientUnique(max - 1, max, 0);
      QuotientUnique(n + max - 1, max, 1);
    }
  }

  lemma QuotientUnique(a: nat, b: nat, q: nat)
    requires b > 0 && q * b <= a < q * b + b
    ensures a / b == q
  {
    var r := a / b;
    assert a == r * b + a % b;
    assert r < q ==> (r + 1) * b <= q * b;
    assert q < r ==> (q + 1) * b <= r * b;
  }

  /** The capacity that `Obfuscate` reserves is exactly the length of what it returns. */
  lemma ObfuscatedLength(headers: seq<byte>, p: seq<byte>)
    ensures |Obfuscated(headers, p)| == |HeadersBytes(headers)| + |p| + Chunks(|p|, OBFUSCATE_CHUNK) * 3
  {
    DataFramesCount(p, OBFUSCATE_CHUNK);
  }

  // The encoders

  /** `createHeadersFrame`: the frame is filled by position; its length field keeps only the
      low sixteen bits of the payload's length. */
  method CreateHeadersFrame(headers: seq<byte>) returns (frame: seq<byte>)
    ensures frame == HeadersBytes(headers)
  {
    var buf := new byte[3 + |headers|];
    buf[0] := HEADERS;
    buf[1] := Low(|headers| / 0x100);
    buf[2] := Low(|headers|);
    for i := 0 to |headers|
      invariant buf[..3] == [HEADERS] + Be16(|headers|)
      invariant buf[3..3 + i] == headers[..i]
    {
      buf[3 + i] := headers[i];
    }
    frame := buf[..];
    assert frame == buf[..3] + buf[3..3 + |headers|];
  }

  /** `Obfuscate`. */
  method Obfuscate(headers: seq<byte>, data: seq<byte>) returns (result: seq<byte>)
    ensures result == Obfuscated(headers, data)
  {
    var buf := CreateHeadersFrame(headers);
    var offset := 0;
    while offset < |data|
      invariant 0 <= offset <= |data|
      invariant buf + Serialise(DataFrames(data[offset..], OBFUSCATE_CHUNK)) == Obfuscated(headers, data)
    {
      var chunkSize := |data| - offset;
      if chunkSize > OBFUSCATE_CHUNK {
        chunkSize := OBFUSCATE_CHUNK;
      }
      var frame := [DATA, Low(chunkSize / 0x100), Low(chunkSize)]
                              + data[offset..offset + chunkSize];
      AppendChunk(buf, data, offset, OBFUSCATE_CHUNK);
      buf := buf + frame;
      offset := offset + chunkSize;
    }
    result := buf;
    assert Serialise(DataFrames(data[offset..], OBFUSCATE_CHUNK)) == [];
  }

  lemma NextChunk(p: seq<byte>, offset: nat, max: nat)
    requires 0 < max && offset < |p|
    ensures var k := Min(|p| - offset, max);
            var chunk := p[offset..offset + k];
            && Encode(Frame(DATA, chunk)) == [DATA, Low(k / 0x100), Low(k)] + chunk
            && Serialise(DataFrames(p[offset..], max))
               == Encode(Frame(DATA, chunk)) + Serialise(DataFrames(p[offset + k..], max))
  {
    var k := Min(|p| - offset, max);
    var q := p[offset..];
    assert q[..k] == p[offset..offset + k] && q[k..] == p[offset + k..];
    assert DataFrames(q, max)[1..] == DataFrames(q[k..], max);
  }

  lemma AppendChunk(buf: seq<byte>, p: seq<byte>, offset: nat, max: nat)
    requires 0 < max && offset < |p|
    ensures var k := Min(|p| - offset, max);
            buf + Serialise(DataFrames(p[offset..], max))
            == (buf + ([DATA, Low(k / 0x100), Low(k)] + p[offset..offset + k]))
               + Serialise(DataFrames(p[offset + k..], max))
  {
    var k := Min(|p| - offset, max);
    NextChunk(p, offset, max);
    Assoc(buf, Encode(Frame(DATA, p[offset..offset + k])), Serialise(DataFrames(p[offset + k..], max)));
  }

  /** `StreamObfuscate`: reads `src` with `io.ReadFull` and writes as it goes. */
  method StreamObfuscate(headers: seq<byte>, src: seq<byte>, dst: Conn) returns (total: nat, ok: bool)
    modifies dst`outgoing, dst`refused
    ensures dst.refused == old(dst.refused) + (if ok then 0 else 1)
    ensures ok ==> total == |src| && dst.outgoing == old(dst.outgoing) + Obfuscated(headers, src)
    ensures !ok ==> exists sent :: sent <= Obfuscated(headers, src) && dst.outgoing == old(dst.outgoing) + sent
  {
    ghost var start := dst.outgoing;
    ghost var all := Obfuscated(headers, src);
    ghost var sent := [];
    var headersFrame := CreateHeadersFrame(headers);
    total := 0;
    ok := dst.Send(headersFrame);
    if !ok {
      SomePrefix(start, [], headersFrame, Serialise(DataFrames(src, OBFUSCATE_CHUNK)), dst.outgoing, all);
      return;
    }
    sent := headersFrame;
    var rest := src;
    while true
      invariant dst.outgoing == start + sent && dst.refused == old(dst.refused)
      invariant sent + Serialise(DataFrames(rest, OBFUSCATE_CHUNK)) == all
      invariant total + |rest| == |src|
      decreases |rest|
    {
      var n := Min(|rest|, OBFUSCATE_CHUNK);
      if n == 0 {
        break;
      }
      var chunk := rest[..n];
      ghost var later := Serialise(DataFrames(rest[n..], OBFUSCATE_CHUNK));
      NextChunk(rest, 0, OBFUSCATE_CHUNK);
      assert rest[0..0 + n] == chunk && rest[0..] == rest;
      var frame := [DATA, Low(n / 0x100), Low(n)] + chunk;
      ok := dst.Send(frame);
      if !ok {
        SomePrefix(start, sent, frame, later, dst.outgoing, all);
        return;
      }
      Assoc(start, sent, frame);
      Assoc(sent, frame, later);
      sent := sent + frame;
      total := total + n;
      rest := rest[n..];
      if n < OBFUSCATE_CHUNK {
        break;
      }
    }
    assert sent == all;
  }

  /** What a failed write leaves behind is a prefix of what a complete one would. */
  lemma SomePrefix(start: seq<byte>, sent: seq<byte>, piece: seq<byte>, later: seq<byte>,
                   outgoing: seq<byte>, all: seq<byte>)
    requires sent + (piece + later) == all
    requires exists k: nat :: k <= |piece| && outgoing == start + sent + piece[..k]
    ensures exists s :: s <= all && outgoing == start + s
  {
    var k: nat :| k <= |piece| && outgoing == start + sent + piece[..k];
    var s := sent + piece[..k];
    assert s <= all;
    assert outgoing == start + s;
  }

  // Specification of the decoders

  /** What the frame loop of `Deobfuscate` computes. */
  function Decoded(b: seq<byte>): Result<seq<byte>, DecodeError>
    decreases |b|
  {
    if b == [] then Ok([])
    else if !HasFrame(b) then Err(Truncated)
    else if b[0] == DATA then
      match Decoded(Rest(b))
      case Ok(later) => Ok(Head(b).payload + later)
      case Err(e) => Err(e)
    else if b[0] == HEADERS then Decoded(Rest(b))
    else Err(UnknownKind)
  }

  function Deobfuscated(b: seq<byte>): Result<seq<byte>, DecodeError> {
    if Decoded(b) == Ok([]) then Err(NoData) else Decoded(b)
  }

  /** What `StreamDeobfuscate` computes: fewer than three bytes left end the loop without an
      error, and the frame type is looked at before the payload is. */
  function StreamDecoded(b: seq<byte>): Result<seq<byte>, DecodeError>
    decreases |b|
  {
    if |b| < 3 then Ok([])
    else if b[0] != DATA && b[0] != HEADERS then Err(UnknownKind)
    else if !HasFrame(b) then Err(Truncated)
    else
      match StreamDecoded(Rest(b))
      case Ok(later) => Ok((if b[0] == DATA then Head(b).payload else []) + later)
      case Err(e) => Err(e)
  }

  /** What `StreamDeobfuscate` has written when it returns: the payloads in front of the first bad
      frame, and what there is of a DATA frame that is cut short. */
  function StreamWritten(b: seq<byte>): (w: seq<byte>)
    ensures StreamDecoded(b).Ok? ==> w == StreamDecoded(b).value
    decreases |b|
  {
    if |b| < 3 || (b[0] != DATA && b[0] != HEADERS) then []
    else if HasFrame(b) then (if b[0] == DATA then Head(b).payload else []) + StreamWritten(Rest(b))
    else if b[0] == DATA then b[3..]
    else []
  }

  // The decoders

  /** `Deobfuscate`. */
  method Deobfuscate(data: seq<byte>) returns (r: Result<seq<byte>, DecodeError>)
    ensures r == Deobfuscated(data)
  {
    var result := [];
    var offset := 0;
    assert data[0..] == data;
    PrependNothing(Decoded(data));
    while offset < |data|
      invariant 0 <= offset <= |data|
      invariant Decoded(data) == Prepend(result, Decoded(data[offset..]))
    {
      ghost var here := data[offset..];
      if |data| - offset < 3 {
        return Err(Truncated);
      }
      var frameType := data[offset];
      var length: int := FromBe16(data[offset + 1], data[offset + 2]);
      if |data| - offset < 3 + length {
        return Err(Truncated);
      }
      var payloadStart := offset + 3;
      var payloadEnd := payloadStart + length;
      assert Head(here).payload == data[payloadStart..payloadEnd] && Rest(here) == data[payloadEnd..];
      if frameType == DATA {
        StepOnData(result, here);
        result := result + data[payloadStart..payloadEnd];
      } else if frameType != HEADERS {
        return Err(UnknownKind);
      }
      offset := payloadEnd;
    }
    assert data[offset..] == [] && result + [] == result;
    if result == [] {
      return Err(NoData);
    }
    return Ok(result);
  }

  function Prepend(a: seq<byte>, r: Result<seq<byte>, DecodeError>): Result<seq<byte>, DecodeError> {
    match r
    case Ok(b) => Ok(a + b)
    case Err(e) => Err(e)
  }

  lemma StepOnData(result: seq<byte>, b: seq<byte>)
    requires HasFrame(b) && b[0] == DATA
    ensures Prepend(result, Decoded(b)) == Prepend(result + Head(b).payload, Decoded(Rest(b)))
  {
    PrependTwice(result, Head(b).payload, Decoded(Rest(b)));
  }

  lemma PrependNothing(r: Result<seq<byte>, DecodeError>)
    ensures Prepend([], r) == r
  {
    if r.Ok? {
      assert [] + r.value == r.value;
    }
  }

  lemma PrependTwice(a: seq<byte>, b: seq<byte>, r: Result<seq<byte>, DecodeError>)
    ensures Prepend(a, Prepend(b, r)) == Prepend(a + b, r)
  {
    if r.Ok? {
      Assoc(a, b, r.value);
    }
  }

  /** The loop of `StreamDeobfuscate`: of `src`, `reader` is left and `dst` written. */
  predicate Streaming(src: seq<byte>, dst: seq<byte>, reader: seq<byte>) {
    && StreamDecoded(src) == Prepend(dst, StreamDecoded(reader))
    && StreamWritten(src) == dst + StreamWritten(reader)
  }

  lemma StreamsFrame(src: seq<byte>, dst: seq<byte>, reader: seq<byte>)
    requires Streaming(src, dst, reader) && HasFrame(reader) && (reader[0] == DATA || reader[0] == HEADERS)
    ensures Streaming(src, dst + (if reader[0] == DATA then Head(reader).payload else []), Rest(reader))
  {
    var more := if reader[0] == DATA then Head(reader).payload else [];
    PrependTwice(dst, more, StreamDecoded(Rest(reader)));
    Assoc(dst, more, StreamWritten(Rest(reader)));
  }

  lemma StreamEnds(src: seq<byte>, dst: seq<byte>, reader: seq<byte>)
    requires Streaming(src, dst, reader)
    ensures |reader| < 3 ==> StreamDecoded(src) == Ok(dst) && StreamWritten(src) == dst
    ensures |reader| >= 3 && reader[0] != DATA && reader[0] != HEADERS ==>
              StreamDecoded(src) == Err(UnknownKind) && StreamWritten(src) == dst
    ensures |reader| >= 3 && !HasFrame(reader) && (reader[0] == DATA || reader[0] == HEADERS) ==>
              && StreamDecoded(src) == Err(Truncated)
              && StreamWritten(src) == dst + (if reader[0] == DATA then reader[3..] else [])
  {
    AppendNothing(dst);
  }

  /** `StreamDeobfuscate`; `dst` is what has been written when it returns, also on an error. */
  method StreamDeobfuscate(src: seq<byte>) returns (dst: seq<byte>, totalWritten: nat, err: Option<DecodeError>)
    ensures err.None? ==> StreamDecoded(src) == Ok(dst) && totalWritten == |dst|
    ensures err.Some? ==> StreamDecoded(src) == Err(err.value) && totalWritten <= |dst|
    ensures dst == StreamWritten(src)
  {
    dst, totalWritten := [], 0;
    var reader := src;
    PrependNothing(StreamDecoded(src));
    AppendNothing(StreamWritten(src));
    while true
      invariant Streaming(src, dst, reader) && totalWritten == |dst|
      decreases |reader|
    {
      StreamEnds(src, dst, reader);
      if |reader| < 3 {
        break;
      }
      var frameType := reader[0];
      var length: int := FromBe16(reader[1], reader[2]);
      ghost var frame := reader;
      reader := reader[3..];
      if frameType == DATA {
        var written := Min(length, |reader|);
        if written != length {
          assert reader[..written] == frame[3..];
          return dst + reader[..written], totalWritten, Some(Truncated);
        }
        StreamsFrame(src, dst, frame);
        assert Head(frame).payload == reader[..written] && Rest(frame) == reader[written..];
        dst := dst + reader[..written];
        totalWritten := totalWritten + written;
        reader := reader[written..];
      } else if frameType == HEADERS {
        AppendNothing(dst);
        if |reader| < length {
          return dst, totalWritten, Some(Truncated);
        }
        StreamsFrame(src, dst, frame);
        assert Rest(frame) == reader[length..];
        reader := reader[length..];
      } else {
        return dst, totalWritten, Some(UnknownKind);
      }
    }
    err := None;
  }

  // Round trips

  /** Both decoders read any list of HEADERS and DATA frames back as its DATA payloads. */
  lemma {:induction false} DecodeFrames(fs: seq<Frame>)
    requires AllFit(fs) && forall f :: f in fs ==> f.kind == DATA || f.kind == HEADERS
    ensures Decoded(Serialise(fs)) == Ok(Data(fs))
    ensures StreamDecoded(Serialise(fs)) == Ok(Data(fs))
    decreases |fs|
  {
    if fs != [] {
      var later := Serialise(fs[1..]);
      assert Fits(fs[0]);
      DecodeFrames(fs[1..]);
      EncodeThenRead(fs[0], later);
      assert (Encode(fs[0]) + later)[0] == fs[0].kind;
      assert [] + Data(fs[1..]) == Data(fs[1..]);
    }
  }

  /** The frames of `Obfuscate` and of a first zero-copy write, read back. */
  lemma RoundTripFrames(headers: seq<byte>, p: seq<byte>, max: nat)
    requires |headers| < TWO_TO_THE_16 && 0 < max < TWO_TO_THE_16
    ensures var wire := HeadersBytes(headers) + Serialise(DataFrames(p, max));
            Decoded(wire) == Ok(p) && StreamDecoded(wire) == Ok(p)
  {
    var fs := [Frame(HEADERS, headers)] + DataFrames(p, max);
    DataFramesCarry(p, max);
    assert fs[1..] == DataFrames(p, max);
    DecodeFrames(fs);
    assert [] + p == p;
  }

  /** Every encoder followed by the streaming decoder is the identity; followed by
      `Deobfuscate` it is so exactly for non-empty data. */
  lemma RoundTrip(headers: seq<byte>, p: seq<byte>)
    requires |headers| < TWO_TO_THE_16
    ensures StreamDecoded(Obfuscated(headers, p)) == Ok(p)
    ensures StreamDecoded(HeadersBytes(headers) + Serialise(DataFrames(p, ZERO_COPY_CHUNK))) == Ok(p)
    ensures Deobfuscated(Obfuscated(headers, p)) == Ok(p) <==> p != []
    ensures Deobfuscated(HeadersBytes(headers) + Serialise(DataFrames(p, ZERO_COPY_CHUNK))) == Ok(p) <==> p != []
  {
    RoundTripFrames(headers, p, OBFUSCATE_CHUNK);
    RoundTripFrames(headers, p, ZERO_COPY_CHUNK);
  }

  /** The HEADERS frame of an over-long text ends inside the text. */
  lemma CutsText(headers: seq<byte>, later: seq<byte>)
    requires |headers| >= TWO_TO_THE_16
    ensures var wire := HeadersBytes(headers) + later;
            HasFrame(wire) && wire[0] == HEADERS && |Rest(wire)| >= 3 && Rest(wire)[0] in headers
  {
    var n, field := Wrap16(|headers|), Be16(|headers|);
    Be16Wraps(|headers|);
    BigEndian16(n);
    Assoc([HEADERS] + field, headers, later);
    TextLeft(field, headers, later, n);
  }

  lemma TextLeft(field: seq<byte>, headers: seq<byte>, later: seq<byte>, n: nat)
    requires |field| == 2 && FromBe16(field[0], field[1]) == n && n + 3 <= |headers|
    ensures var wire := [HEADERS] + field + (headers + later);
            HasFrame(wire) && wire[0] == HEADERS && |Rest(wire)| >= 3 && Rest(wire)[0] == headers[n]
  {
    var wire := [HEADERS] + field + (headers + later);
    assert wire[1] == field[0] && wire[2] == field[1] && FrameSize(wire) == 3 + n;
    assert Rest(wire)[0] == wire[3 + n] == headers[n];
  }

  lemma BadSecondFrame(wire: seq<byte>)
    requires HasFrame(wire) && wire[0] == HEADERS && |Rest(wire)| >= 3 && Rest(wire)[0] > HEADERS
    ensures StreamDecoded(wire).Err? && Deobfuscated(wire).Err?
  {
    assert StreamDecoded(Rest(wire)).Err? && Decoded(Rest(wire)).Err?;
  }

  /** HEADERS payloads of 65536 bytes or more wrap the length field; what is left of the text is then
      read as frames, and neither decoder gets to the data. */
  lemma OversizedHeadersLost(headers: seq<byte>, p: seq<byte>)
    requires |headers| >= TWO_TO_THE_16 && forall b :: b in headers ==> b > HEADERS
    ensures StreamDecoded(Obfuscated(headers, p)).Err?
    ensures Deobfuscated(Obfuscated(headers, p)).Err?
  {
    CutsText(headers, Serialise(DataFrames(p, OBFUSCATE_CHUNK)));
    BadSecondFrame(Obfuscated(headers, p));
  }

  /** With headers of text, every payload survives exactly when they fit the length field. */
  lemma HeadersDecide(headers: seq<byte>)
    requires forall b :: b in headers ==> b > HEADERS
    ensures (forall p: seq<byte> :: StreamDecoded(Obfuscated(headers, p)) == Ok(p)) <==> |headers| < TWO_TO_THE_16
  {
    if |headers| < TWO_TO_THE_16 {
      forall p: seq<byte> ensures StreamDecoded(Obfuscated(headers, p)) == Ok(p) {
        RoundTrip(headers, p);
      }
    } else {
      OversizedHeadersLost(headers, []);
      assert StreamDecoded(Obfuscated(headers, [])) != Ok([]);
    }
  }

  /** Where the two decoders differ: `StreamDeobfuscate` also accepts an empty result and up to
      two stray bytes at the end. */
  lemma {:induction false} DecodersAgree(b: seq<byte>)
    ensures forall p :: Decoded(b) == Ok(p) <==> Tail(b) == [] && StreamDecoded(b) == Ok(p)
    ensures StreamDecoded(b).Ok? ==> |Tail(b)| < 3
    decreases |b|
  {
    if HasFrame(b) {
      DecodersAgree(Rest(b));
      if b[0] == HEADERS && StreamDecoded(Rest(b)).Ok? {
        assert [] + StreamDecoded(Rest(b)).value == StreamDecoded(Rest(b)).value;
      }
    }
  }

  lemma DeobfuscateAgrees(b: seq<byte>, p: seq<byte>)
    ensures Deobfuscated(b) == Ok(p) <==> p != [] && Tail(b) == [] && StreamDecoded(b) == Ok(p)
  {
    DecodersAgree(b);
  }
}
