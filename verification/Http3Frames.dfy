/** The frame layout of internal/protocol/zop/http3.go: type (1) + length (2, big endian) +
    payload.  A byte string is read as a list of complete frames followed by an incomplete
    tail; this module gives that reading and the laws the transport rests on. */
module Http3Frames {
  import opened Bytes

  const DATA: byte := 0
  const HEADERS: byte := 1
  const WINDOW_UPDATE: byte := 2

  datatype Frame = Frame(kind: byte, payload: seq<byte>)

  // Reading

  /** The length of the frame that starts `b`, header included, as its length field tells it. */
  function FrameSize(b: seq<byte>): nat
    requires |b| >= 3
  {
    3 + FromBe16(b[1], b[2])
  }

  predicate HasFrame(b: seq<byte>) {
    |b| >= 3 && |b| >= FrameSize(b)
  }

  function Head(b: seq<byte>): Frame
    requires HasFrame(b)
  {
    Frame(b[0], b[3..FrameSize(b)])
  }

  function Rest(b: seq<byte>): seq<byte>
    requires HasFrame(b)
  {
    b[FrameSize(b)..]
  }

  function Frames(b: seq<byte>): seq<Frame>
    decreases |b|
  {
    if HasFrame(b) then [Head(b)] + Frames(Rest(b)) else []
  }

  function Tail(b: seq<byte>): seq<byte>
    decreases |b|
  {
    if HasFrame(b) then Tail(Rest(b)) else b
  }

  // Writing

  function Encode(f: Frame): seq<byte> {
    [f.kind] + Be16(|f.payload|) + f.payload
  }

  function Serialise(fs: seq<Frame>): seq<byte> {
    if fs == [] then [] else Encode(fs[0]) + Serialise(fs[1..])
  }

  /** The length field is two bytes wide. */
  predicate Fits(f: Frame) {
    |f.payload| < TWO_TO_THE_16
  }

  predicate AllFit(fs: seq<Frame>) {
    forall i :: 0 <= i < |fs| ==> Fits(fs[i])
  }

  // What the frames carry

  /** The concatenated payloads of the DATA frames. */
  function Data(fs: seq<Frame>): seq<byte> {
    if fs == [] then []
    else (if fs[0].kind == DATA then fs[0].payload else []) + Data(fs[1..])
  }

  /** The increment of a WINDOW_UPDATE frame. */
  function Increment(f: Frame): uint32 {
    if f.kind == WINDOW_UPDATE && |f.payload| == 4 then FromBe32(f.payload) else 0
  }

  /** The sum of the window increments. */
  function Credit(fs: seq<Frame>): nat {
    if fs == [] then 0 else Increment(fs[0]) + Credit(fs[1..])
  }

  /** The frames that are not WINDOW_UPDATE frames, in order. */
  function Kept(fs: seq<Frame>): seq<Frame> {
    if fs == [] then []
    else (if fs[0].kind == WINDOW_UPDATE then [] else [fs[0]]) + Kept(fs[1..])
  }

  /** A frame that the receiver accepts and that an honest sender may emit. */
  predicate Sound(f: Frame) {
    || (f.kind == DATA && f.payload != [])
    || f.kind == HEADERS
    || (f.kind == WINDOW_UPDATE && |f.payload| == 4)
  }

  predicate AllSound(fs: seq<Frame>) {
    forall i :: 0 <= i < |fs| ==> Sound(fs[i])
  }

  // Laws

  lemma {:induction false} EncodeThenRead(f: Frame, t: seq<byte>)
    requires Fits(f)
    ensures HasFrame(Encode(f) + t)
    ensures Head(Encode(f) + t) == f
    ensures Rest(Encode(f) + t) == t
  {
    var b := Encode(f) + t;
    assert b[1] == Low(|f.payload| / 0x100) && b[2] == Low(|f.payload|);
    assert FrameSize(b) == |Encode(f)|;
    assert b[3..FrameSize(b)] == f.payload;
    assert Rest(b) == t;
  }

  lemma {:induction false} ReadThenEncode(b: seq<byte>)
    requires HasFrame(b)
    ensures Encode(Head(b)) + Rest(b) == b
    ensures Encode(Head(b)) == b[..FrameSize(b)]
  {
    var f := Head(b);
    BigEndian16Back(b[1], b[2]);
    assert Encode(f) == [b[0], b[1], b[2]] + b[3..FrameSize(b)];
    SplitAt(b, FrameSize(b));
  }

  /** More bytes never change a frame that is already complete. */
  lemma {:induction false} HeadOfLonger(a: seq<byte>, b: seq<byte>)
    requires HasFrame(a)
    ensures HasFrame(a + b) && Head(a + b) == Head(a) && Rest(a + b) == Rest(a) + b
  {
    var n := FrameSize(a);
    assert (a + b)[3..n] == a[3..n];
    assert (a + b)[n..] == a[n..] + b;
  }

  /** Reading does not depend on how the byte stream is cut. */
  lemma {:induction false} ReadInPieces(a: seq<byte>, b: seq<byte>)
    ensures Frames(a + b) == Frames(a) + Frames(Tail(a) + b)
    ensures Tail(a + b) == Tail(Tail(a) + b)
    decreases |a|
  {
    if HasFrame(a) {
      HeadOfLonger(a, b);
      ReadInPieces(Rest(a), b);
      assert Frames(a) == [Head(a)] + Frames(Rest(a));
    }
  }

  /** A frame just written is the first frame read. */
  lemma EncodedFirst(f: Frame, t: seq<byte>)
    requires Fits(f)
    ensures Frames(Encode(f) + t) == [f] + Frames(t)
    ensures Tail(Encode(f) + t) == Tail(t)
  {
    EncodeThenRead(f, t);
  }

  lemma SerialiseFirst(fs: seq<Frame>, t: seq<byte>)
    requires fs != []
    ensures Serialise(fs) + t == Encode(fs[0]) + (Serialise(fs[1..]) + t)
  {
  }

  lemma {:induction false} SerialiseThenRead(fs: seq<Frame>, t: seq<byte>)
    requires AllFit(fs)
    ensures Frames(Serialise(fs) + t) == fs + Frames(t)
    ensures Tail(Serialise(fs) + t) == Tail(t)
    decreases |fs|
  {
    if fs == [] {
      assert Serialise(fs) + t == t;
    } else {
      SerialiseFirst(fs, t);
      SerialiseThenRead(fs[1..], t);
      EncodedFirst(fs[0], Serialise(fs[1..]) + t);
      FirstAndRest(fs);
      Assoc([fs[0]], fs[1..], Frames(t));
    }
  }

  lemma {:induction false} ReadThenSerialise(b: seq<byte>)
    ensures Serialise(Frames(b)) + Tail(b) == b
    ensures AllFit(Frames(b))
    ensures !HasFrame(Tail(b))
    decreases |b|
  {
    if HasFrame(b) {
      ReadThenSerialise(Rest(b));
      ReadThenEncode(b);
      assert Frames(b)[1..] == Frames(Rest(b));
      assert Serialise(Frames(b)) + Tail(b) == Encode(Head(b)) + (Serialise(Frames(Rest(b))) + Tail(Rest(b)));
    }
  }

  lemma {:induction false} SerialiseAppend(fs: seq<Frame>, gs: seq<Frame>)
    ensures Serialise(fs + gs) == Serialise(fs) + Serialise(gs)
    decreases |fs|
  {
    if fs == [] {
      assert fs + gs == gs;
    } else {
      SerialiseAppend(fs[1..], gs);
      AppendFirst(fs, gs);
      Assoc(Encode(fs[0]), Serialise(fs[1..]), Serialise(gs));
    }
  }

  lemma {:induction false} DataAppend(fs: seq<Frame>, gs: seq<Frame>)
    ensures Data(fs + gs) == Data(fs) + Data(gs)
    decreases |fs|
  {
    if fs == [] {
      assert fs + gs == gs;
    } else {
      DataAppend(fs[1..], gs);
      AppendFirst(fs, gs);
    }
  }

  lemma {:induction false} CreditAppend(fs: seq<Frame>, gs: seq<Frame>)
    ensures Credit(fs + gs) == Credit(fs) + Credit(gs)
    decreases |fs|
  {
    if fs == [] {
      assert fs + gs == gs;
    } else {
      CreditAppend(fs[1..], gs);
      AppendFirst(fs, gs);
    }
  }

  /** Dropping the WINDOW_UPDATE frames keeps the DATA payloads and takes away all credit. */
  lemma {:induction false} KeptCarriesTheData(fs: seq<Frame>)
    ensures Data(Kept(fs)) == Data(fs)
    ensures Credit(Kept(fs)) == 0
    ensures AllFit(fs) ==> AllFit(Kept(fs))
    ensures AllSound(fs) ==> AllSound(Kept(fs))
    decreases |fs|
  {
    if fs != [] {
      KeptCarriesTheData(fs[1..]);
      var first := if fs[0].kind == WINDOW_UPDATE then [] else [fs[0]];
      DataAppend(first, Kept(fs[1..]));
      CreditAppend(first, Kept(fs[1..]));
      assert Credit(first) == 0;
      assert AllFit(fs) ==> AllFit(fs[1..]);
      assert AllSound(fs) ==> AllSound(fs[1..]);
    }
  }
}
