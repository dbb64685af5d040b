/** Two HTTP/3-style transports joined by two byte wires, over all runs of writes, reads and polls at
    both ends, successful or not.  The steps are the effects that Http3Transport proves of its methods;
    the wires are cut wherever a read happens to stop, a connection may end by returning a last piece
    together with an error, and one that has failed to send sends nothing more. */
module Http3Run {
  import opened Bytes
  import opened Http3Frames
  import opened Http3Codec
  import opened Http3Receive
  import opened Http3Sending

  /** One end: its transport's fields and the histories of its user.  `window` and `charged` are the
      two counters without wrap-around, `overcharge` is what was charged beyond the payloads, `lost`
      counts the bytes that reads took and did not return.  Once a send has failed the end is
      `broken`; `unsent` is what it should have sent since.  Once its connection has `ended`, `dropped`
      is the piece that came with the error. */
  datatype Side = Side(raw: seq<byte>, readBuffer: seq<byte>, window: nat, charged: nat, sender: Sender,
                       written: seq<byte>, returned: seq<byte>, overcharge: int,
                       lost: nat, broken: bool, unsent: seq<byte>, ended: bool, dropped: seq<byte>)

  /** `ab` is what `a` has sent and `b` has not yet taken off its connection. */
  datatype Net = Net(a: Side, b: Side, ab: seq<byte>, ba: seq<byte>)

  /** A write is `Wrote` when it succeeds, `TimedOut` when it gives up waiting after `i` of its window
      checks, and `Broke` when a send fails with `sent` of its bytes on the wire. */
  datatype Event =
    | Wrote(p: seq<byte>, path: seq<byte>, ks: seq<nat>, ats: seq<nat>)
    | TimedOut(p: seq<byte>, ks: seq<nat>, ats: seq<nat>, i: nat)
    | Broke(p: seq<byte>, path: seq<byte>, ks: seq<nat>, sent: seq<byte>, sender: Sender, charged: nat)
    | DidRead(cap: nat, skipped: nat, out: ReadOutcome, got: seq<byte>, sent: seq<byte>)
    | DidPoll(k: nat)
    | Dropped(k: nat)

  function Swap(n: Net): Net {
    Net(n.b, n.a, n.ba, n.ab)
  }

  /** What stands behind the bytes that `y` has read: a last piece that it never looked at, and what is
      on the wire. */
  function Behind(y: Side, wire: seq<byte>): seq<byte> {
    if y.ended then y.dropped + wire else wire
  }

  function ToA(n: Net): seq<byte> {
    Behind(n.a, n.ba)
  }

  function ToB(n: Net): seq<byte> {
    Behind(n.b, n.ab)
  }

  // Steps of end `a`

  function Receiving(n: Net): Rx {
    Rx(n.a.raw, ToA(n), n.a.window)
  }

  function AfterPolls(n: Net, ks: seq<nat>): Net {
    var r := Polls(Receiving(n), ks);
    n.(a := n.a.(raw := r.raw, window := r.window), ba := if n.a.ended then n.ba else r.incoming)
  }

  /** A connection that has ended gives nothing to these polls. */
  predicate CanPoll(n: Net, ks: seq<nat>) {
    n.a.ended ==> Polls(Receiving(n), ks).incoming == ToA(n)
  }

  /** The connection returns its last `k` bytes with an error, and they are lost. */
  function AfterDrop(n: Net, k: nat): Net
    requires k <= |n.ba|
  {
    n.(a := n.a.(ended := true, dropped := n.ba[..k]), ba := n.ba[k..])
  }

  function AfterWrite(n: Net, p: seq<byte>, path: seq<byte>): Net {
    var s := n.a.sender;
    n.(a := n.a.(sender := s.(sentHeaders := SentHeadersAfter(s, p)),
                 charged := n.a.charged + Charge(s, p, path),
                 overcharge := n.a.overcharge + Charge(s, p, path) - |p|,
                 written := n.a.written + p),
       ab := n.ab + WireBytes(s, p, path))
  }

  /** What a write that gives up after `i` checks has sent counts as written. */
  function AfterPart(n: Net, p: seq<byte>, i: nat): Net {
    var s := n.a.sender;
    n.(a := n.a.(sender := s.(sentHeaders := SentHeadersPart(s, p, i)),
                 charged := n.a.charged + PartCharge(s, p, i),
                 overcharge := n.a.overcharge + PartCharge(s, p, i) - |PartData(s, p, i)|,
                 written := n.a.written + PartData(s, p, i)),
       ab := n.ab + PartSent(s, p, i))
  }

  /** Of `w`, which was to be sent, `sent` is on the wire and the rest never will be. */
  function AfterBreak(n: Net, w: seq<byte>, sent: seq<byte>): Net
    requires |sent| <= |w|
  {
    n.(a := n.a.(broken := true, unsent := n.a.unsent + w[|sent|..]), ab := n.ab + sent)
  }

  /** A part of `w` that a failing send can leave on the wire. */
  predicate CanBreak(x: Side, w: seq<byte>, sent: seq<byte>) {
    sent <= w && (x.broken ==> sent == [])
  }

  function AfterBroken(n: Net, p: seq<byte>, path: seq<byte>, sent: seq<byte>, sender: Sender, charged: nat): Net
    requires |sent| <= |WireBytes(n.a.sender, p, path)|
  {
    var m := AfterBreak(n, WireBytes(n.a.sender, p, path), sent);
    m.(a := m.a.(sender := sender, charged := charged, written := n.a.written + p,
                 overcharge := charged - |n.a.written + p|))
  }

  function TraceOf(n: Net, ks: seq<nat>, ats: seq<nat>, checks: seq<Check>): Trace {
    Trace(Receiving(n), n.a.charged, if n.a.sender.sentHeaders then 1 else 0, ks, ats, checks)
  }

  /** The net after a read that leaves `raw`, `readBuffer` and `incoming`. */
  function AfterRead(n: Net, raw: seq<byte>, readBuffer: seq<byte>, incoming: seq<byte>,
                     skipped: nat, cap: nat, out: ReadOutcome, got: seq<byte>, sent: seq<byte>): Net
    requires n.a.readBuffer == [] ==> Skip(n.a.raw + ToA(n), skipped).Some?
    requires n.a.readBuffer == [] && (out.Received? || out.UpdateNotSent?) ==>
               HasFrame(Skip(n.a.raw + ToA(n), skipped).value.left)
    requires n.a.readBuffer == [] && out.UpdateNotSent? ==>
               |sent| <= |UpdateFrame(|Head(Skip(n.a.raw + ToA(n), skipped).value.left).payload|)|
  {
    if n.a.readBuffer != [] then
      n.(a := n.a.(readBuffer := readBuffer, returned := n.a.returned + got))
    else
      var s := Skip(n.a.raw + ToA(n), skipped).value;
      var m := n.(a := n.a.(raw := raw, readBuffer := readBuffer, window := n.a.window + s.credit,
                            returned := n.a.returned + got), ba := incoming);
      if out.Received? then m.(ab := n.ab + UpdateFrame(|Head(s.left).payload|))
      else if out.UpdateNotSent? then
        var size := |Head(s.left).payload|;
        AfterBreak(m.(a := m.a.(lost := n.a.lost + if size <= cap then size else 0)), UpdateFrame(size), sent)
      else m
  }

  predicate ReadStep(n: Net, n': Net, cap: nat, skipped: nat, out: ReadOutcome, got: seq<byte>, sent: seq<byte>) {
    if n.a.readBuffer != [] then
      && out.Received? && got + n'.a.readBuffer == n.a.readBuffer && |got| == Min(cap, |n.a.readBuffer|)
      && n' == AfterRead(n, n'.a.raw, n'.a.readBuffer, n'.ba, skipped, cap, out, got, sent)
    else
      && (out.Received? || out.ConnFailed? || out.BadFrame? || out.UpdateNotSent?)
      && ReadEffect(n.a.raw + ToA(n), n'.a.raw + ToA(n'), skipped, cap, out, got, n'.a.readBuffer)
      && (out.Received? ==> !n.a.broken) && (out.ConnFailed? ==> !HasFrame(n'.a.raw))
      && |n'.ba| <= |n.ba|
      && (out.UpdateNotSent? ==>
            CanBreak(n.a, UpdateFrame(|Head(Skip(n.a.raw + ToA(n), skipped).value.left).payload|), sent))
      && (n.a.ended ==> n'.ba == n.ba)
      && n' == AfterRead(n, n'.a.raw, n'.a.readBuffer, n'.ba, skipped, cap, out, got, sent)
  }

  predicate SideStep(n: Net, n': Net, e: Event) {
    match e
    case Wrote(p, path, ks, ats) =>
      && !n.a.broken && |path| < TWO_TO_THE_16 && CanPoll(n, ks)
      && (var t := TraceOf(n, ks, ats, ChecksOf(n.a.sender, p)); Followed(t) && Prompt(t))
      && n' == AfterWrite(AfterPolls(n, ks), p, path)
    case TimedOut(p, ks, ats, i) =>
      && i < |ChecksOf(n.a.sender, p)| && (n.a.broken ==> i == 0) && CanPoll(n, ks)
      && (var t := TraceOf(n, ks, ats, ChecksOf(n.a.sender, p)[..i]);
          Followed(t) && HasWaited(t, ChecksOf(n.a.sender, p)[i]))
      && n' == AfterPart(AfterPolls(n, ks), p, i)
    case Broke(p, path, ks, sent, sender, charged) =>
      && |path| < TWO_TO_THE_16 && CanBreak(n.a, WireBytes(n.a.sender, p, path), sent)
      && sender.headersFrame == n.a.sender.headersFrame && CanPoll(n, ks)
      && n' == AfterBroken(AfterPolls(n, ks), p, path, sent, sender, charged)
    case DidRead(cap, skipped, out, got, sent) => ReadStep(n, n', cap, skipped, out, got, sent)
    case DidPoll(k) => CanPoll(n, [k]) && n' == AfterPolls(n, [k])
    case Dropped(k) => !n.a.ended && 1 <= k <= |n.ba| && n' == AfterDrop(n, k)
  }

  /** Either end steps. */
  predicate Step(n: Net, n': Net, atA: bool, e: Event) {
    if atA then SideStep(n, n', e) else SideStep(Swap(n), Swap(n'), e)
  }

  ghost predicate SoundSender(s: Sender) {
    s.headersFrame.Some? ==> exists h :: |h| < TWO_TO_THE_16 && s.headersFrame.value == HeadersBytes(h)
  }

  ghost predicate Fresh(x: Side) {
    && x.raw == x.readBuffer == x.written == x.returned == x.unsent == []
    && x.window == DEFAULT_WINDOW_SIZE && x.charged == x.lost == 0 && x.overcharge == 0
    && !x.broken && !x.ended && !x.sender.sentHeaders && SoundSender(x.sender)
  }

  ghost predicate Init(n: Net) {
    Fresh(n.a) && Fresh(n.b) && n.ab == n.ba == []
  }

  ghost predicate Run(states: seq<Net>, events: seq<(bool, Event)>) {
    && |states| == |events| + 1
    && Init(states[0])
    && forall i :: 0 <= i < |events| ==> Step(states[i], states[i + 1], events[i].0, events[i].1)
  }

  /** One end of the net. */
  function End(n: Net, atA: bool): Side {
    if atA then n.a else n.b
  }

  /** The net as that end sees it. */
  function From(n: Net, atA: bool): Net {
    if atA then n else Swap(n)
  }

  // The invariant

  /** A string of whole, acceptable frames. */
  predicate Whole(b: seq<byte>) {
    AllSound(Frames(b)) && Tail(b) == []
  }

  /** `xy` is all that `x` has sent and `y` not taken, or would have sent.  What `x` wrote is what
      `y` has returned, holds in its `readBuffer`, and has coming, unless reads have lost some of it;
      the credit `x` holds or has coming is the initial window plus what `y` has taken. */
  predicate Flow(x: Side, y: Side, xy: seq<byte>, yx: seq<byte>) {
    var coming := Data(Frames(y.raw + xy));
    && Whole(y.raw + xy)
    && |x.written| == y.lost + |y.returned| + |y.readBuffer| + |coming|
    && (y.lost == 0 ==> x.written == (y.returned + y.readBuffer) + coming)
    && x.window + Credit(Frames(x.raw + yx)) == DEFAULT_WINDOW_SIZE + |y.returned| + |y.readBuffer| + y.lost
    && x.charged == |x.written| + x.overcharge
    && (!x.broken ==> x.unsent == [])
  }

  ghost predicate Inv(n: Net) {
    && Flow(n.a, n.b, ToB(n) + n.a.unsent, ToA(n) + n.b.unsent)
    && Flow(n.b, n.a, ToA(n) + n.b.unsent, ToB(n) + n.a.unsent)
    && SoundSender(n.a.sender) && SoundSender(n.b.sender)
  }

  /** Whole frames behind whole frames. */
  lemma Extend(b: seq<byte>, c: seq<byte>)
    requires Whole(b) && Whole(c)
    ensures Whole(b + c)
    ensures Data(Frames(b + c)) == Data(Frames(b)) + Data(Frames(c))
    ensures Credit(Frames(b + c)) == Credit(Frames(b)) + Credit(Frames(c))
  {
    ReadInPieces(b, c);
    assert [] + c == c;
    DataAppend(Frames(b), Frames(c));
    CreditAppend(Frames(b), Frames(c));
    SoundTogether(Frames(b), Frames(c));
  }

  lemma OneFrame(f: Frame)
    requires Fits(f) && Sound(f)
    ensures Whole(Encode(f)) && Frames(Encode(f)) == [f]
  {
    EncodedFirst(f, []);
    assert Encode(f) + [] == Encode(f);
    assert Frames([]) == [] && [f] + [] == [f];
  }

  lemma HeadersAlone(h: seq<byte>)
    requires |h| < TWO_TO_THE_16
    ensures Whole(HeadersBytes(h)) && Data(Frames(HeadersBytes(h))) == [] && Credit(Frames(HeadersBytes(h))) == 0
  {
    OneFrame(Frame(HEADERS, h));
  }

  lemma DataAlone(p: seq<byte>, max: nat)
    requires 0 < max < TWO_TO_THE_16
    ensures var b := Serialise(DataFrames(p, max));
            Whole(b) && Data(Frames(b)) == p && Credit(Frames(b)) == 0
  {
    var fs := DataFrames(p, max);
    DataFramesCarry(p, max);
    SerialiseThenRead(fs, []);
    assert Serialise(fs) + [] == Serialise(fs) && fs + [] == fs;
  }

  lemma ObfuscatedAlone(h: seq<byte>, p: seq<byte>)
    requires |h| < TWO_TO_THE_16
    ensures Whole(Obfuscated(h, p)) && Data(Frames(Obfuscated(h, p))) == p && Credit(Frames(Obfuscated(h, p))) == 0
  {
    HeadersAlone(h);
    DataAlone(p, OBFUSCATE_CHUNK);
    Extend(HeadersBytes(h), Serialise(DataFrames(p, OBFUSCATE_CHUNK)));
    assert [] + p == p;
  }

  /** Each of the five routes puts whole frames on the wire that carry the payload and no credit. */
  lemma WireBytesCarry(s: Sender, p: seq<byte>, path: seq<byte>)
    requires SoundSender(s) && |path| < TWO_TO_THE_16
    ensures var w := WireBytes(s, p, path);
            Whole(w) && Data(Frames(w)) == p && Credit(Frames(w)) == 0
  {
    hide DataFrames, Serialise;
    ObfuscatedAlone(path, p);
    DataAlone(p, ZERO_COPY_CHUNK);
    assert [] + p == p;
    if s.headersFrame.Some? {
      var h :| |h| < TWO_TO_THE_16 && s.headersFrame.value == HeadersBytes(h);
      HeadersAlone(h);
      Extend(HeadersBytes(h), Obfuscated(path, p));
      Extend(HeadersBytes(h), Serialise(DataFrames(p, ZERO_COPY_CHUNK)));
    } else {
      assert [] + Obfuscated(path, p) == Obfuscated(path, p);
    }
  }

  lemma FrontCarries(p: seq<byte>, j: nat)
    ensures var w := Serialise(Front(p, j));
            Whole(w) && Data(Frames(w)) == Data(Front(p, j)) <= p && Credit(Frames(w)) == 0
  {
    hide Serialise, DataFrames;
    var fs, front := DataFrames(p, ZERO_COPY_CHUNK), Front(p, j);
    var rest := fs[|front|..];
    DataFramesCarry(p, ZERO_COPY_CHUNK);
    SplitAt(fs, |front|);
    DataAppend(front, rest);
    CreditAppend(front, rest);
    SerialiseThenRead(front, []);
    AppendNothing(Serialise(front));
    AppendNothing(front);
  }

  lemma HeadersThenFront(h: seq<byte>, p: seq<byte>, j: nat)
    requires |h| < TWO_TO_THE_16
    ensures var w := HeadersBytes(h) + Serialise(Front(p, j));
            Whole(w) && Data(Frames(w)) == Data(Front(p, j)) && Credit(Frames(w)) == 0
  {
    FrontCarries(p, j);
    HeadersAlone(h);
    Extend(HeadersBytes(h), Serialise(Front(p, j)));
    AppendNothing(Data(Front(p, j)));
  }

  lemma NothingCarries()
    ensures Whole([]) && Data(Frames([])) == [] && Credit(Frames([])) == 0
  {
  }

  /** The same of a write that gives up waiting: what it has sent are whole frames that carry the
      beginning of the payload. */
  lemma PartCarries(s: Sender, p: seq<byte>, i: nat)
    requires SoundSender(s)
    ensures var w := PartSent(s, p, i);
            Whole(w) && Data(Frames(w)) == PartData(s, p, i) <= p && Credit(Frames(w)) == 0
  {
    if RouteOf(s, p) == LaterZeroCopy {
      FrontCarries(p, i);
    } else if RouteOf(s, p) == FirstZeroCopy && i > 0 {
      var h :| |h| < TWO_TO_THE_16 && s.headersFrame.value == HeadersBytes(h);
      FrontCarries(p, i - 1);
      HeadersThenFront(h, p, i - 1);
    } else {
      NothingCarries();
    }
  }

  // Sending

  /** `x` sends whole frames `w` that carry `p` and no credit. */
  lemma SendKeepsFlow(x: Side, x': Side, y: Side, xy: seq<byte>, yx: seq<byte>, w: seq<byte>, p: seq<byte>)
    requires Flow(x, y, xy, yx) && Flow(y, x, yx, xy)
    requires Whole(w) && Data(Frames(w)) == p && Credit(Frames(w)) == 0
    requires x'.written == x.written + p && x'.charged == |x'.written| + x'.overcharge && (!x'.broken ==> x'.unsent == [])
    requires x'.raw == x.raw && x'.readBuffer == x.readBuffer && x'.window == x.window && x'.returned == x.returned
    requires x'.lost == x.lost
    ensures Flow(x', y, xy + w, yx) && Flow(y, x', yx, xy + w)
  {
    Extend(y.raw + xy, w);
    Assoc(y.raw, xy, w);
    Assoc(y.returned + y.readBuffer, Data(Frames(y.raw + xy)), p);
  }

  /** `x` sends a WINDOW_UPDATE frame for the `size` bytes that it has just taken, so that `Flow` from
      `y` held but for them. */
  lemma UpdateKeepsFlow(x: Side, y: Side, xy: seq<byte>, size: uint32)
    requires Whole(y.raw + xy)
    ensures var b, c := y.raw + xy, y.raw + (xy + UpdateFrame(size));
            Whole(c) && Data(Frames(c)) == Data(Frames(b)) && Credit(Frames(c)) == Credit(Frames(b)) + size
  {
    UpdateAlone(size);
    Extend(y.raw + xy, UpdateFrame(size));
    Assoc(y.raw, xy, UpdateFrame(size));
    AppendNothing(Data(Frames(y.raw + xy)));
  }

  lemma UpdateAlone(increment: uint32)
    ensures var u := UpdateFrame(increment);
            Whole(u) && Data(Frames(u)) == [] && Credit(Frames(u)) == increment
  {
    var f := Frame(WINDOW_UPDATE, Be32(increment));
    OneFrame(f);
    BigEndian32(increment);
    assert Credit([f]) == Increment(f);
  }

  /** What is sent joins the end of what is coming. */
  lemma BehindMore(y: Side, wire: seq<byte>, w: seq<byte>)
    ensures Behind(y, wire + w) == Behind(y, wire) + w
  {
    Assoc(y.dropped, wire, w);
  }

  lemma PollsKeepFlow(n: Net, ks: seq<nat>)
    requires Inv(n) && CanPoll(n, ks)
    ensures Inv(AfterPolls(n, ks))
  {
    var r := Polls(Receiving(n), ks);
    assert ToA(AfterPolls(n, ks)) == r.incoming;
    Assoc(n.a.raw, ToA(n), n.b.unsent);
    Assoc(r.raw, r.incoming, n.b.unsent);
    PollsConserve(Receiving(n), ks, n.b.unsent);
  }

  lemma WriteKeepsFlow(n: Net, p: seq<byte>, path: seq<byte>)
    requires Inv(n) && |path| < TWO_TO_THE_16 && !n.a.broken
    ensures Inv(AfterWrite(n, p, path))
  {
    hide Flow, Whole, WireBytes, Charge, SentHeadersAfter, Behind;
    var w := WireBytes(n.a.sender, p, path);
    var n' := AfterWrite(n, p, path);
    WireBytesCarry(n.a.sender, p, path);
    FlowUnbroken(n);
    AppendNothing(w);
    Sent(n, n', w, w, [], p);
  }

  lemma FlowUnbroken(n: Net)
    requires Inv(n)
    ensures n.a.charged == |n.a.written| + n.a.overcharge && (!n.a.broken ==> n.a.unsent == [])
  {
  }

  /** End `a` was to send `w`, whole frames that carry `p`; `sent` went out and `rest` never will. */
  lemma Sent(n: Net, n': Net, w: seq<byte>, sent: seq<byte>, rest: seq<byte>, p: seq<byte>)
    requires Inv(n) && Whole(w) && Data(Frames(w)) == p && Credit(Frames(w)) == 0
    requires w == sent + rest && (n.a.broken ==> sent == []) && SoundSender(n'.a.sender)
    requires n' == n.(a := n'.a, ab := n.ab + sent)
    requires n'.a == n.a.(sender := n'.a.sender, charged := n'.a.charged, overcharge := n'.a.overcharge,
                          written := n.a.written + p, broken := n'.a.broken, unsent := n.a.unsent + rest)
    requires n'.a.charged == |n'.a.written| + n'.a.overcharge && (!n'.a.broken ==> n'.a.unsent == [])
    ensures Inv(n')
  {
    hide Flow, Whole, Behind;
    FlowUnbroken(n);
    SendJoins(n, n', w, sent, rest);
    SendKeepsFlow(n.a, n'.a, n.b, ToB(n) + n.a.unsent, ToA(n) + n.b.unsent, w, p);
    SameBehind(n, n');
  }

  lemma SendJoins(n: Net, n': Net, w: seq<byte>, sent: seq<byte>, rest: seq<byte>)
    requires w == sent + rest && (n.a.broken ==> sent == []) && (!n.a.broken ==> n.a.unsent == [])
    requires n'.b == n.b && n'.ab == n.ab + sent && n'.a.unsent == n.a.unsent + rest
    ensures ToB(n') + n'.a.unsent == (ToB(n) + n.a.unsent) + w
  {
    BehindMore(n.b, n.ab, sent);
    hide Behind;
    var b, u := ToB(n), n.a.unsent;
    if n.a.broken {
      AppendNothing(b);
      assert w == rest;
      Assoc(b, u, w);
    } else {
      AppendNothing(b);
      Assoc(b, sent, rest);
      AppendNothing(rest);
    }
  }

  lemma SameBehind(n: Net, n': Net)
    requires n'.ba == n.ba && n'.a.ended == n.a.ended && n'.a.dropped == n.a.dropped
    ensures ToA(n') == ToA(n)
  {
  }

  lemma PartKeepsFlow(n: Net, p: seq<byte>, i: nat)
    requires Inv(n) && (n.a.broken ==> i == 0)
    ensures Inv(AfterPart(n, p, i))
  {
    hide Flow, Whole, PartSent, PartData, SentHeadersPart, Behind;
    var w := PartSent(n.a.sender, p, i);
    var n' := AfterPart(n, p, i);
    PartCarries(n.a.sender, p, i);
    FlowUnbroken(n);
    NothingBegun(n.a.sender, p);
    AppendNothing(w);
    AppendNothing(n.a.unsent);
    Sent(n, n', w, w, [], PartData(n.a.sender, p, i));
  }

  lemma NothingBegun(s: Sender, p: seq<byte>)
    ensures PartSent(s, p, 0) == PartData(s, p, 0) == []
  {
    assert Front(p, 0) == [];
  }

  lemma BreakKeepsFlow(n: Net, p: seq<byte>, path: seq<byte>, sent: seq<byte>, sender: Sender, charged: nat)
    requires Inv(n) && |path| < TWO_TO_THE_16 && CanBreak(n.a, WireBytes(n.a.sender, p, path), sent)
    requires sender.headersFrame == n.a.sender.headersFrame
    ensures Inv(AfterBroken(n, p, path, sent, sender, charged))
  {
    hide Flow, Whole, WireBytes, Behind;
    var w := WireBytes(n.a.sender, p, path);
    var n' := AfterBroken(n, p, path, sent, sender, charged);
    WireBytesCarry(n.a.sender, p, path);
    FlowUnbroken(n);
    SplitAt(w, |sent|);
    Sent(n, n', w, sent, w[|sent|..], p);
  }

  // Reading

  /** No frame that an honest end can meet makes `Read` fail. */
  lemma NeverBadFrame(b: seq<byte>, c: seq<byte>, skipped: nat, cap: nat, out: ReadOutcome,
                      got: seq<byte>, buffered: seq<byte>)
    requires Whole(b) && ReadEffect(b, c, skipped, cap, out, got, buffered)
    ensures !out.BadFrame?
    ensures out.Received? && cap > 0 ==> |got| > 0
    ensures out.Received? || out.UpdateNotSent? ==> Head(Skip(b, skipped).value.left).payload != []
  {
    SkipConserves(b, skipped);
    var m := Skip(b, skipped).value.left;
    if HasFrame(m) {
      assert Sound(Frames(m)[0]);
    }
  }

  /** The effect of a read does not depend on what comes later. */
  lemma ReadLonger(b: seq<byte>, c: seq<byte>, skipped: nat, cap: nat, out: ReadOutcome,
                   got: seq<byte>, buffered: seq<byte>, later: seq<byte>)
    requires ReadEffect(b, c, skipped, cap, out, got, buffered)
    ensures ReadEffect(b + later, c + later, skipped, cap, out, got, buffered)
    ensures Skip(b + later, skipped).value.credit == Skip(b, skipped).value.credit
    ensures out.Received? || out.UpdateNotSent? ==>
              Head(Skip(b + later, skipped).value.left) == Head(Skip(b, skipped).value.left)
  {
    SkipLonger(b, skipped, later);
    var m := Skip(b, skipped).value.left;
    if HasFrame(m) {
      HeadOfLonger(m, later);
    }
  }

  /** What one read takes from the pending bytes: a payload, and the increments it has handed to
      the window. */
  lemma ReadTakes(b: seq<byte>, c: seq<byte>, skipped: nat, cap: nat, out: ReadOutcome,
                  got: seq<byte>, buffered: seq<byte>)
    requires Whole(b) && ReadEffect(b, c, skipped, cap, out, got, buffered)
    ensures !out.BadFrame? && Whole(c)
    ensures Credit(Frames(b)) == Skip(b, skipped).value.credit + Credit(Frames(c))
    ensures out.ConnFailed? ==> got == [] && buffered == [] && Data(Frames(b)) == Data(Frames(c))
    ensures !out.ConnFailed? ==> Data(Frames(b)) == Head(Skip(b, skipped).value.left).payload + Data(Frames(c))
  {
    NeverBadFrame(b, c, skipped, cap, out, got, buffered);
    SkipConserves(b, skipped);
    var m := Skip(b, skipped).value.left;
    if !out.ConnFailed? {
      FirstFrame(m);
    }
  }

  lemma FirstFrame(m: seq<byte>)
    requires HasFrame(m) && m[0] == DATA && Whole(m)
    ensures Whole(Rest(m)) && Data(Frames(m)) == Head(m).payload + Data(Frames(Rest(m)))
    ensures Credit(Frames(m)) == Credit(Frames(Rest(m)))
  {
    var fs := Frames(m);
    assert fs == [Head(m)] + Frames(Rest(m)) && fs[1..] == Frames(Rest(m));
    SoundParts([Head(m)], Frames(Rest(m)));
  }

  lemma Taken(returned: seq<byte>, got: seq<byte>, buffered: seq<byte>, later: seq<byte>)
    ensures (returned + []) + ((got + buffered) + later) == ((returned + got) + buffered) + later
  {
  }

  /** `y` takes a payload of `size` bytes out of what is coming from `x` and hands it on, as `got`
      and `buffered` or not at all. */
  lemma TakeKeepsFlow(x: Side, y: Side, y': Side, xy: seq<byte>, xy': seq<byte>, yx: seq<byte>, payload: seq<byte>,
                      got: seq<byte>)
    requires Flow(x, y, xy, yx) && y.readBuffer == [] && payload != []
    requires Whole(y'.raw + xy') && Data(Frames(y.raw + xy)) == payload + Data(Frames(y'.raw + xy'))
    requires y'.returned == y.returned + got
    requires || (got + y'.readBuffer == payload && y'.lost == y.lost)
             || (got == y'.readBuffer == [] && y'.lost == y.lost + |payload|)
    ensures |x.written| == y'.lost + |y'.returned| + |y'.readBuffer| + |Data(Frames(y'.raw + xy'))|
    ensures y'.lost == 0 ==> x.written == (y'.returned + y'.readBuffer) + Data(Frames(y'.raw + xy'))
    ensures |y'.returned| + |y'.readBuffer| + y'.lost == |y.returned| + |y.readBuffer| + y.lost + |payload|
  {
    Taken(y.returned, got, y'.readBuffer, Data(Frames(y'.raw + xy')));
  }

  lemma BufferedReadKeepsFlow(n: Net, n': Net, got: seq<byte>)
    requires Inv(n) && got + n'.a.readBuffer == n.a.readBuffer
    requires n' == n.(a := n.a.(readBuffer := n'.a.readBuffer, returned := n.a.returned + got))
    ensures Inv(n')
  {
    Assoc(n.a.returned, got, n'.a.readBuffer);
  }

  /** What reading end `a` takes, in terms of all that is coming to it. */
  lemma ReadTakesComing(n: Net, n': Net, cap: nat, skipped: nat, out: ReadOutcome, got: seq<byte>, sent: seq<byte>)
    requires Inv(n) && n.a.readBuffer == [] && ReadStep(n, n', cap, skipped, out, got, sent)
    ensures var v, v' := n.a.raw + (ToA(n) + n.b.unsent), n'.a.raw + (ToA(n') + n.b.unsent);
            && !out.BadFrame? && Whole(v')
            && n.a.window + Credit(Frames(v)) == n'.a.window + Credit(Frames(v'))
            && (out.ConnFailed? ==> got == n'.a.readBuffer == [] && Data(Frames(v)) == Data(Frames(v')))
            && (!out.ConnFailed? ==>
                  var payload := Head(Skip(n.a.raw + ToA(n), skipped).value.left).payload;
                  payload != [] && Data(Frames(v)) == payload + Data(Frames(v')))
  {
    hide Behind, Whole, ReadEffect, UpdateFrame, CanBreak;
    var b, c, u := n.a.raw + ToA(n), n'.a.raw + ToA(n'), n.b.unsent;
    Assoc(n.a.raw, ToA(n), u);
    Assoc(n'.a.raw, ToA(n'), u);
    ReadCredit(n, n', cap, skipped, out, got, sent);
    ReadLonger(b, c, skipped, cap, out, got, n'.a.readBuffer, u);
    NeverBadFrame(b + u, c + u, skipped, cap, out, got, n'.a.readBuffer);
    ReadTakes(b + u, c + u, skipped, cap, out, got, n'.a.readBuffer);
  }

  lemma ReadCredit(n: Net, n': Net, cap: nat, skipped: nat, out: ReadOutcome, got: seq<byte>, sent: seq<byte>)
    requires n.a.readBuffer == [] && ReadStep(n, n', cap, skipped, out, got, sent)
    ensures n'.a.window == n.a.window + Skip(n.a.raw + ToA(n), skipped).value.credit
    ensures out.Received? || out.ConnFailed? || out.BadFrame? || out.UpdateNotSent?
  {
    hide Behind, Skip, HasFrame, Head, UpdateFrame, CanBreak;
  }

  /** A read that takes a payload, with its WINDOW_UPDATE frame sent or not. */
  lemma PayloadReadKeepsFlow(n: Net, n': Net, cap: nat, skipped: nat, out: ReadOutcome, got: seq<byte>, sent: seq<byte>)
    requires Inv(n) && n.a.readBuffer == [] && ReadStep(n, n', cap, skipped, out, got, sent)
    requires out.Received? || out.UpdateNotSent?
    ensures Inv(n')
  {
    hide Behind, Whole, UpdateFrame, Skip, Frames, Data, Credit;
    ReadTakesComing(n, n', cap, skipped, out, got, sent);
    var payload := Head(Skip(n.a.raw + ToA(n), skipped).value.left).payload;
    var u := UpdateFrame(|payload|);
    var ab := ToB(n) + n.a.unsent;
    FlowUnbroken(n);
    UpdateJoins(n, n', cap, skipped, out, got, sent);
    UpdateKeepsFlow(n.a, n.b, ab, |payload|);
    TakeKeepsFlow(n.b, n.a, n'.a, ToA(n) + n.b.unsent, ToA(n') + n.b.unsent, ab, payload, got);
  }

  lemma UpdateJoins(n: Net, n': Net, cap: nat, skipped: nat, out: ReadOutcome, got: seq<byte>, sent: seq<byte>)
    requires n.a.readBuffer == [] && ReadStep(n, n', cap, skipped, out, got, sent)
    requires (out.Received? || out.UpdateNotSent?) && (!n.a.broken ==> n.a.unsent == [])
    ensures var u := UpdateFrame(|Head(Skip(n.a.raw + ToA(n), skipped).value.left).payload|);
            ToB(n') + n'.a.unsent == (ToB(n) + n.a.unsent) + u
  {
    hide Behind, UpdateFrame, Skip;
    var u := UpdateFrame(|Head(Skip(n.a.raw + ToA(n), skipped).value.left).payload|);
    if out.Received? {
      AppendNothing(u);
      AppendNothing(n.a.unsent);
      SendJoins(n, n', u, u, []);
    } else {
      SplitAt(u, |sent|);
      SendJoins(n, n', u, sent, u[|sent|..]);
    }
  }

  lemma FailedReadKeepsFlow(n: Net, n': Net, cap: nat, skipped: nat, out: ReadOutcome, got: seq<byte>, sent: seq<byte>)
    requires Inv(n) && n.a.readBuffer == [] && ReadStep(n, n', cap, skipped, out, got, sent)
    requires !out.Received? && !out.UpdateNotSent?
    ensures Inv(n') && !out.BadFrame?
  {
    ReadTakesComing(n, n', cap, skipped, out, got, sent);
    AppendNothing(n.a.returned);
  }

  lemma ReadKeepsFlow(n: Net, n': Net, cap: nat, skipped: nat, out: ReadOutcome, got: seq<byte>, sent: seq<byte>)
    requires Inv(n) && ReadStep(n, n', cap, skipped, out, got, sent)
    ensures Inv(n') && !out.BadFrame?
  {
    if n.a.readBuffer != [] {
      BufferedReadKeepsFlow(n, n', got);
    } else if out.Received? || out.UpdateNotSent? {
      PayloadReadKeepsFlow(n, n', cap, skipped, out, got, sent);
    } else {
      FailedReadKeepsFlow(n, n', cap, skipped, out, got, sent);
    }
  }

  lemma DropKeepsFlow(n: Net, k: nat)
    requires Inv(n) && !n.a.ended && k <= |n.ba|
    ensures Inv(AfterDrop(n, k))
  {
    SplitAt(n.ba, k);
  }

  // Whole runs

  lemma StepKeepsInv(n: Net, n': Net, atA: bool, e: Event)
    requires Inv(n) && Step(n, n', atA, e)
    ensures Inv(n') && (e.DidRead? ==> !e.out.BadFrame?)
  {
    var m, m' := From(n, atA), From(n', atA);
    match e
    case Wrote(p, path, ks, ats) =>
      PollsKeepFlow(m, ks);
      WriteKeepsFlow(AfterPolls(m, ks), p, path);
    case TimedOut(p, ks, ats, i) =>
      PollsKeepFlow(m, ks);
      PartKeepsFlow(AfterPolls(m, ks), p, i);
    case Broke(p, path, ks, sent, sender, charged) =>
      PollsKeepFlow(m, ks);
      BreakKeepsFlow(AfterPolls(m, ks), p, path, sent, sender, charged);
    case DidRead(cap, skipped, out, got, sent) =>
      ReadKeepsFlow(m, m', cap, skipped, out, got, sent);
    case DidPoll(k) =>
      PollsKeepFlow(m, [k]);
    case Dropped(k) =>
      DropKeepsFlow(m, k);
  }

  lemma InitIsInv(n: Net)
    requires Init(n)
    ensures Inv(n)
  {
    NothingCarries();
    assert n.a.raw + (ToA(n) + n.b.unsent) == [] && n.b.raw + (ToB(n) + n.a.unsent) == [];
  }

  lemma {:induction false} RunKeepsInv(states: seq<Net>, events: seq<(bool, Event)>, i: nat)
    requires Run(states, events) && i < |states|
    ensures Inv(states[i])
    decreases i
  {
    if i == 0 {
      InitIsInv(states[0]);
    } else {
      RunKeepsInv(states, events, i - 1);
      StepKeepsInv(states[i - 1], states[i], events[i - 1].0, events[i - 1].1);
    }
  }
}
