/** The send window over whole runs of two HTTP/3-style transports: which writes keep it, which do
    not, and what the 32-bit check then lets through. */
module Http3Window {
  import opened Bytes
  import opened Http3Frames
  import opened Http3Codec
  import opened Http3Receive
  import opened Http3Sending
  import opened Http3Run
  import opened Http3Results

  /** `window - sent` as the transport computes it. */
  function Available(x: Side): uint32 {
    Wrap32(x.window - x.charged)
  }

  // Writes that charge more than they carry

  /** A route on which a successful write charges exactly its payload. */
  predicate Exact(s: Sender, p: seq<byte>) {
    match RouteOf(s, p)
    case LaterStream => true
    case FirstStream => s.headersFrame.None?
    case LaterZeroCopy => p == []
    case FirstZeroCopy => false
    case FirstFallback => false
  }

  lemma PreparedIsLong(s: Sender)
    requires SoundSender(s) && s.headersFrame.Some?
    ensures |Prepared(s)| > 0
  {
  }

  lemma ChargeIsExact(s: Sender, p: seq<byte>, path: seq<byte>)
    requires SoundSender(s)
    ensures Charge(s, p, path) >= |p|
    ensures Charge(s, p, path) == |p| <==> Exact(s, p)
  {
    if RouteOf(s, p) == FirstFallback {
      ObfuscatedLength(path, p);
      assert |HeadersBytes(path)| > 0;
    } else if s.headersFrame.Some? {
      PreparedIsLong(s);
    }
  }

  /** The same of any event of the end that `n` sees as `a`. */
  predicate ExactEvent(n: Net, e: Event) {
    match e
    case Wrote(p, _, _, _) => Exact(n.a.sender, p)
    case TimedOut(p, _, _, i) => i == 0 || RouteOf(n.a.sender, p) != FirstZeroCopy
    case _ => true
  }

  lemma OverchargeOfStep(n: Net, n': Net, e: Event)
    requires Inv(n) && SideStep(n, n', e) && !n'.a.broken
    ensures !n.a.broken && n'.a.overcharge >= n.a.overcharge
    ensures n'.a.overcharge == n.a.overcharge <==> ExactEvent(n, e)
  {
    hide Charge, PartCharge, PartData, Exact, Flow, Polls, WireBytes, PartSent, ChecksOf;
    match e
    case Wrote(p, path, ks, ats) => ChargeIsExact(n.a.sender, p, path);
    case TimedOut(p, ks, ats, i) => PartIsExact(n.a.sender, p, i);
    case _ =>
  }

  lemma PartIsExact(s: Sender, p: seq<byte>, i: nat)
    requires SoundSender(s)
    ensures PartCharge(s, p, i) >= |PartData(s, p, i)|
    ensures PartCharge(s, p, i) == |PartData(s, p, i)| <==> (i == 0 || RouteOf(s, p) != FirstZeroCopy)
  {
    if RouteOf(s, p) == FirstZeroCopy {
      PreparedIsLong(s);
    }
  }

  lemma OverchargeNow(states: seq<Net>, events: seq<(bool, Event)>, i: nat, atA: bool)
    requires Run(states, events) && i < |events| && !End(states[i + 1], atA).broken
    ensures var x, x' := End(states[i], atA), End(states[i + 1], atA);
            && !x.broken && x'.overcharge >= x.overcharge
            && (x'.overcharge == x.overcharge <==> events[i].0 != atA || ExactEvent(From(states[i], atA), events[i].1))
  {
    RunKeepsInv(states, events, i);
    var (who, e) := events[i];
    assert Step(states[i], states[i + 1], who, e);
    if who == atA {
      OverchargeOfStep(From(states[i], atA), From(states[i + 1], atA), e);
    } else {
      OtherEndLoses(From(states[i], who), From(states[i + 1], who), e);
    }
  }

  /** Of the first `i` events those of this end are exact. */
  predicate AllExact(states: seq<Net>, events: seq<(bool, Event)>, i: nat, atA: bool)
    requires i <= |events| && |states| == |events| + 1
  {
    forall j :: 0 <= j < i && events[j].0 == atA ==> ExactEvent(From(states[j], atA), events[j].1)
  }

  lemma OneMoreExact(states: seq<Net>, events: seq<(bool, Event)>, i: nat, atA: bool)
    requires i < |events| && |states| == |events| + 1
    ensures AllExact(states, events, i + 1, atA)
            <==> AllExact(states, events, i, atA) && (events[i].0 == atA ==> ExactEvent(From(states[i], atA), events[i].1))
  {
    hide ExactEvent;
  }

  lemma {:induction false} OverchargeOfRun(states: seq<Net>, events: seq<(bool, Event)>, i: nat, atA: bool)
    requires Run(states, events) && i < |states| && !End(states[i], atA).broken
    ensures End(states[i], atA).overcharge >= 0
    ensures End(states[i], atA).overcharge == 0 <==> AllExact(states, events, i, atA)
    decreases i
  {
    hide Step;
    if i > 0 {
      hide AllExact, ExactEvent, Step, Init, Run;
      assert states[i - 1 + 1] == states[i];
      OverchargeNow(states, events, i - 1, atA);
      OverchargeOfRun(states, events, i - 1, atA);
      OneMoreExact(states, events, i - 1, atA);
    }
  }

  /** Both connections work, and nothing is on its way. */
  predicate Idle(x: Side, y: Side, xy: seq<byte>, yx: seq<byte>) {
    !x.broken && !y.broken && !x.ended && !y.ended && xy == y.raw == [] && yx == x.raw == []
  }

  /** Once the other end has taken every byte and its updates are back, the window is the initial one
      less what was charged beyond the payloads.  So it is whole if every write was exact, and, short
      of an overcharge of 2^32 bytes, only if. */
  lemma WindowWholeAgain(states: seq<Net>, events: seq<(bool, Event)>, i: nat, atA: bool)
    requires Run(states, events) && i < |states|
    requires var n := states[i]; var x, y := End(n, atA), End(n, !atA); Idle(x, y, Wire(n, atA), Wire(n, !atA))
    ensures var x := End(states[i], atA);
            && Available(x) == Wrap32(DEFAULT_WINDOW_SIZE - x.overcharge)
            && (AllExact(states, events, i, atA) ==> Available(x) == DEFAULT_WINDOW_SIZE)
            && (x.overcharge < TWO_TO_THE_32 && Available(x) == DEFAULT_WINDOW_SIZE ==> AllExact(states, events, i, atA))
  {
    Reached(states, events, i, atA);
    OverchargeOfRun(states, events, i, atA);
    var n := states[i];
    var x, y := End(n, atA), End(n, !atA);
    NothingCarries();
    assert y.raw + (Wire(n, atA) + x.unsent) == [] && x.raw + (Wire(n, !atA) + y.unsent) == [];
    WholeOrNot(x.overcharge);
  }

  lemma WholeOrNot(overcharge: int)
    requires 0 <= overcharge
    ensures Wrap32(DEFAULT_WINDOW_SIZE - overcharge) == DEFAULT_WINDOW_SIZE <==> Wrap32(overcharge) == 0
    ensures overcharge < TWO_TO_THE_32 && Wrap32(overcharge) == 0 ==> overcharge == 0
  {
  }

  // The transports that there are

  /** As `newHTTP3Transport` makes it: it can stream, and has prepared a HEADERS frame. */
  predicate Made(s: Sender) {
    s.streams && s.headersFrame.Some?
  }

  /** What the headers have cost. */
  function HeadersCharge(s: Sender): nat {
    if s.sentHeaders then |Prepared(s)| else 0
  }

  /** The payload of a later zero-copy write, which is charged a second time. */
  function ChargedTwice(n: Net, e: Event): nat {
    if e.Wrote? && RouteOf(n.a.sender, e.p) == LaterZeroCopy then |e.p| else 0
  }

  /** All such payloads of the first `i` events. */
  function AllTwice(states: seq<Net>, events: seq<(bool, Event)>, i: nat, atA: bool): nat
    requires i <= |events| && |states| == |events| + 1
  {
    if i == 0 then 0
    else
      AllTwice(states, events, i - 1, atA)
      + (if events[i - 1].0 == atA then ChargedTwice(From(states[i - 1], atA), events[i - 1].1) else 0)
  }

  lemma MadeStep(n: Net, n': Net, e: Event)
    requires SideStep(n, n', e) && Made(n.a.sender) && !n'.a.broken
    ensures !n.a.broken && Made(n'.a.sender)
    ensures n'.a.overcharge - HeadersCharge(n'.a.sender)
            == n.a.overcharge - HeadersCharge(n.a.sender) + ChargedTwice(n, e)
  {
  }

  /** A transport has overcharged itself by its headers and by every payload of a later zero-copy
      write, and by nothing else. */
  lemma {:induction false} OverchargeIs(states: seq<Net>, events: seq<(bool, Event)>, i: nat, atA: bool)
    requires Run(states, events) && i < |states|
    requires Made(End(states[0], atA).sender) && !End(states[i], atA).broken
    ensures var x := End(states[i], atA);
            Made(x.sender) && x.overcharge == HeadersCharge(x.sender) + AllTwice(states, events, i, atA)
    decreases i
  {
    if i > 0 {
      var (who, e) := events[i - 1];
      var n, n' := states[i - 1], states[i];
      assert Step(n, states[i - 1 + 1], who, e);
      StaysBroken(n, n', who, e, atA);
      OverchargeIs(states, events, i - 1, atA);
      hide SideStep, AllTwice;
      if who == atA {
        MadeStep(From(n, atA), From(n', atA), e);
      }
      OneMoreTwice(states, events, i, atA);
    }
  }

  lemma OneMoreTwice(states: seq<Net>, events: seq<(bool, Event)>, i: nat, atA: bool)
    requires 0 < i <= |events| && |states| == |events| + 1
    ensures AllTwice(states, events, i, atA)
            == AllTwice(states, events, i - 1, atA)
               + (if events[i - 1].0 == atA then ChargedTwice(From(states[i - 1], atA), events[i - 1].1) else 0)
  {
  }

  /** A step of the other end changes nothing here, and no step mends a connection. */
  lemma StaysBroken(n: Net, n': Net, who: bool, e: Event, atA: bool)
    requires Step(n, n', who, e)
    ensures who != atA ==> End(n', atA) == End(n, atA)
    ensures End(n, atA).broken ==> End(n', atA).broken
  {
  }

  /** So, once the other end has taken every byte and its updates are back, the window is short of
      just that; short of an overcharge of 2^32 bytes, it is whole only if no headers have gone out. */
  lemma WindowIs(states: seq<Net>, events: seq<(bool, Event)>, i: nat, atA: bool)
    requires Run(states, events) && i < |states| && Made(End(states[0], atA).sender)
    requires var n := states[i]; var x, y := End(n, atA), End(n, !atA); Idle(x, y, Wire(n, atA), Wire(n, !atA))
    ensures var x, twice := End(states[i], atA), AllTwice(states, events, i, atA);
            && Available(x) == Wrap32(DEFAULT_WINDOW_SIZE - HeadersCharge(x.sender) - twice)
            && (Available(x) == DEFAULT_WINDOW_SIZE <==> Wrap32(HeadersCharge(x.sender) + twice) == 0)
  {
    hide Step, AllExact, AllTwice, HeadersCharge;
    WindowWholeAgain(states, events, i, atA);
    OverchargeIs(states, events, i, atA);
    WholeOrNot(HeadersCharge(End(states[i], atA).sender) + AllTwice(states, events, i, atA));
  }

  // What the checks of a write prove

  /** The window at check `i`. */
  function WindowAt(t: Trace, i: nat): nat
    requires Followed(t) && i < |t.ats|
  {
    assert Passed(t, i);
    Polls(t.rx, t.ks[..t.ats[i]]).window
  }

  function Final(t: Trace): nat {
    Polls(t.rx, t.ks).window
  }

  lemma AdmittedFits(window: nat, charged: nat, needed: nat)
    requires Admits(window, charged, needed) && charged <= window && needed < TWO_TO_THE_32
    ensures charged + needed <= window
  {
  }

  /** A check that starts below the window ends below it. */
  lemma CheckFits(t: Trace, i: nat)
    requires Followed(t) && i < |t.checks| && t.checks[i].needed < TWO_TO_THE_32
    requires t.charged + t.checks[i].used <= WindowAt(t, i)
    ensures t.charged + t.checks[i].used + t.checks[i].needed <= WindowAt(t, i) <= Final(t)
  {
    assert Passed(t, i);
    AdmittedFits(WindowAt(t, i), t.charged + t.checks[i].used, t.checks[i].needed);
    PollsGrow(t.rx, t.ks, t.ats[i], |t.ks|);
    assert t.ks[..|t.ks|] == t.ks;
  }

  lemma FirstCheckFits(t: Trace)
    requires Followed(t) && t.checks != [] && t.checks[0].used == 0 && t.checks[0].needed < TWO_TO_THE_32
    requires t.charged <= t.rx.window
    ensures t.charged + t.checks[0].needed <= Final(t)
  {
    assert Passed(t, 0);
    PollsGrow(t.rx, t.ks, 0, t.ats[0]);
    assert t.ks[..0] == [];
    CheckFits(t, 0);
  }

  /** Chunk by chunk: what check `j` admits ends after the bytes of chunk `j`. */
  lemma {:induction false} ChunkEnds(used: nat, n: nat, j: nat)
    requires j < |ChunkChecks(used, n)|
    ensures var c := ChunkChecks(used, n)[j];
            c.used == used + j * ZERO_COPY_CHUNK && c.needed == Min(n - j * ZERO_COPY_CHUNK, ZERO_COPY_CHUNK)
            && c.needed > 0
    decreases j
  {
    if j > 0 {
      var k := Min(n, ZERO_COPY_CHUNK);
      assert ChunkChecks(used, n)[j] == ChunkChecks(used + k, n - k)[j - 1];
      ChunkEnds(used + k, n - k, j - 1);
    }
  }

  lemma {:induction false} ChunksFit(t: Trace, n: nat, j: nat)
    requires Followed(t) && t.checks <= ChunkChecks(0, n) && j < |t.checks| && t.charged <= t.rx.window
    ensures t.charged + t.checks[j].used + t.checks[j].needed <= WindowAt(t, j) <= Final(t)
    decreases j
  {
    assert Passed(t, j);
    ChunkEnds(0, n, j);
    if j == 0 {
      PollsGrow(t.rx, t.ks, 0, t.ats[0]);
      assert t.ks[..0] == [];
    } else {
      ChunksFit(t, n, j - 1);
      ChunkEnds(0, n, j - 1);
      assert t.ats[j - 1] <= t.ats[j];
      PollsGrow(t.rx, t.ks, t.ats[j - 1], t.ats[j]);
    }
    CheckFits(t, j);
  }

  lemma {:induction false} FrontLength(p: seq<byte>, j: nat)
    ensures |Data(Front(p, j))| == Min(j * ZERO_COPY_CHUNK, |p|)
    ensures |ChunkChecks(0, |p|)| == |DataFrames(p, ZERO_COPY_CHUNK)|
    decreases j
  {
    SameCount(0, p);
    if j == 0 {
      assert Front(p, 0) == [];
    } else if p != [] {
      var k := Min(|p|, ZERO_COPY_CHUNK);
      FrontLength(p[k..], j - 1);
      FirstOfFront(p, j);
      DataAppend([Frame(DATA, p[..k])], Front(p[k..], j - 1));
      assert |Data([Frame(DATA, p[..k])])| == k;
    }
  }

  lemma FirstOfFront(p: seq<byte>, j: nat)
    requires p != [] && j > 0
    ensures var k := Min(|p|, ZERO_COPY_CHUNK); Front(p, j) == [Frame(DATA, p[..k])] + Front(p[k..], j - 1)
  {
  }

  lemma {:induction false} SameCount(used: nat, p: seq<byte>)
    ensures |ChunkChecks(used, |p|)| == |DataFrames(p, ZERO_COPY_CHUNK)|
    decreases |p|
  {
    if p != [] {
      var k := Min(|p|, ZERO_COPY_CHUNK);
      SameCount(used + k, p[k..]);
    }
  }

  /** The bytes that `i` checks of a later zero-copy write have admitted. */
  lemma LaterFits(t: Trace, p: seq<byte>, i: nat)
    requires Followed(t) && i <= |ChunkChecks(0, |p|)| && t.checks == ChunkChecks(0, |p|)[..i] && t.charged <= t.rx.window
    ensures t.charged + Min(i * ZERO_COPY_CHUNK, |p|) <= Final(t)
    ensures i == |ChunkChecks(0, |p|)| ==> t.charged + |p| <= Final(t)
  {
    if i == 0 {
      PollsGrow(t.rx, t.ks, 0, |t.ks|);
      assert t.ks[..0] == [] && t.ks[..|t.ks|] == t.ks;
    } else {
      ChunksFit(t, |p|, i - 1);
      ChunkEnds(0, |p|, i - 1);
    }
    if i == |ChunkChecks(0, |p|)| {
      AllChunks(0, |p|);
    }
  }

  lemma {:induction false} AllChunks(used: nat, n: nat)
    ensures |ChunkChecks(used, n)| * ZERO_COPY_CHUNK >= n
    decreases n
  {
    if n > 0 {
      var k := Min(n, ZERO_COPY_CHUNK);
      AllChunks(used + k, n - k);
    }
  }

  // Underflow

  /** The size handed to a window check fits its 32-bit parameter. */
  predicate Sized(s: Sender, p: seq<byte>) {
    |p| + |Prepared(s)| < TWO_TO_THE_32
  }

  /** Where a write that starts within its window leaves it.  The three routes that check all they
      charge stay within; a later zero-copy write checks its payload once and charges it twice, and
      the fallback checks nothing. */
  lemma WriteWithinWindow(n: Net, n': Net, p: seq<byte>, path: seq<byte>, ks: seq<nat>, ats: seq<nat>)
    requires SideStep(n, n', Wrote(p, path, ks, ats)) && n.a.charged <= n.a.window && Sized(n.a.sender, p)
    ensures match RouteOf(n.a.sender, p)
            case LaterZeroCopy =>
              && n'.a.charged <= n'.a.window + |p|
              && (n'.a.charged > n'.a.window <==> 2 * |p| > n'.a.window - n.a.charged)
            case FirstFallback => n'.a.charged > n'.a.window <==> |Obfuscated(path, p)| > n'.a.window - n.a.charged
            case _ => n'.a.charged <= n'.a.window
  {
    var s, t := n.a.sender, TraceOf(n, ks, ats, ChecksOf(n.a.sender, p));
    match RouteOf(s, p)
    case LaterZeroCopy =>
      assert t.checks == t.checks[..|t.checks|];
      LaterFits(t, p, |t.checks|);
    case FirstFallback =>
    case _ => FirstCheckFits(t);
  }

  lemma PartWithinWindow(n: Net, n': Net, p: seq<byte>, ks: seq<nat>, ats: seq<nat>, i: nat)
    requires SideStep(n, n', TimedOut(p, ks, ats, i)) && n.a.charged <= n.a.window && Sized(n.a.sender, p)
    ensures n'.a.charged <= n'.a.window
  {
    var s := n.a.sender;
    var t := TraceOf(n, ks, ats, ChecksOf(s, p)[..i]);
    PollsGrow(t.rx, t.ks, 0, |t.ks|);
    assert t.ks[..0] == [] && t.ks[..|t.ks|] == t.ks;
    if RouteOf(s, p) == LaterZeroCopy {
      LaterFits(t, p, i);
      FrontLength(p, i);
    } else if RouteOf(s, p) == FirstZeroCopy && i > 0 {
      FirstCheckFits(t);
      FrontLength(p, i - 1);
    }
  }

  /** When more has been charged than the window has, the subtraction wraps and the check lets almost
      anything through. */
  lemma UnderflowOpensWindow(x: Side)
    requires x.window < x.charged < x.window + TWO_TO_THE_32
    ensures Available(x) == TWO_TO_THE_32 - (x.charged - x.window)
  {
  }

  /** An event after which the end is still within its window. */
  predicate Safe(n: Net, e: Event) {
    match e
    case Wrote(p, _, _, _) =>
      && Sized(n.a.sender, p) && RouteOf(n.a.sender, p) != FirstFallback
      && (RouteOf(n.a.sender, p) == LaterZeroCopy ==> p == [])
    case TimedOut(p, _, _, _) => Sized(n.a.sender, p)
    case Broke(_, _, _, _, _, _) => false
    case _ => true
  }

  lemma SafeStep(n: Net, n': Net, e: Event)
    requires SideStep(n, n', e) && Safe(n, e) && n.a.charged <= n.a.window
    ensures n'.a.charged <= n'.a.window
  {
    match e
    case Wrote(p, path, ks, ats) => WriteWithinWindow(n, n', p, path, ks, ats);
    case TimedOut(p, ks, ats, i) => PartWithinWindow(n, n', p, ks, ats, i);
    case DidPoll(k) =>
      PollsGrow(Receiving(n), [k], 0, 1);
      assert [k][..0] == [] && [k][..1] == [k];
    case DidRead(cap, skipped, out, got, sent) =>
    case Dropped(k) =>
  }

  /** A run of such events: what is charged and not given back never exceeds the window, and the
      32-bit difference is the difference. */
  lemma {:induction false} WithinWindow(states: seq<Net>, events: seq<(bool, Event)>, i: nat, atA: bool)
    requires Run(states, events) && i < |states|
    requires forall j :: 0 <= j < i && events[j].0 == atA ==> Safe(From(states[j], atA), events[j].1)
    ensures var x := End(states[i], atA);
            && x.charged <= x.window
            && (x.window < TWO_TO_THE_32 ==> Available(x) == x.window - x.charged)
    decreases i
  {
    hide Sized;
    if i > 0 {
      WithinWindow(states, events, i - 1, atA);
      var (who, e) := events[i - 1];
      assert Step(states[i - 1], states[i - 1 + 1], who, e);
      if who == atA {
        SafeStep(From(states[i - 1], atA), From(states[i], atA), e);
      } else {
        OtherEndLoses(From(states[i - 1], who), From(states[i], who), e);
      }
    }
  }

  /** In such a run no more than the initial window is ever on its way. */
  lemma AtMostAWindowInFlight(states: seq<Net>, events: seq<(bool, Event)>, i: nat, atA: bool)
    requires Run(states, events) && i < |states|
    requires forall j :: 0 <= j < i && events[j].0 == atA ==> Safe(From(states[j], atA), events[j].1)
    requires !End(states[i], atA).broken
    ensures var x, y := End(states[i], atA), End(states[i], !atA);
            |x.written| <= DEFAULT_WINDOW_SIZE + y.lost + |y.returned| + |y.readBuffer|
  {
    WithinWindow(states, events, i, atA);
    Reached(states, events, i, atA);
    OverchargeOfRun(states, events, i, atA);
  }

  // A run in which the check is disabled

  function Zeros(n: nat): (z: seq<byte>)
    ensures |z| == n
  {
    seq(n, i => 0)
  }

  /** A new transport, with HEADERS payload `h`. */
  function NewTransport(h: seq<byte>): Side
    requires |h| < TWO_TO_THE_16
  {
    Side([], [], DEFAULT_WINDOW_SIZE, 0, Sender(false, Some(HeadersBytes(h)), true), [], [], 0, 0, false, [], false, [])
  }

  /** The payload of a first write that leaves a window of one byte. */
  function AlmostAll(h: seq<byte>): seq<byte>
    requires |h| < TWO_TO_THE_16
  {
    Zeros(DEFAULT_WINDOW_SIZE - 1 - |HeadersBytes(h)|)
  }

  /** Two writes of a new transport, nothing read: the first leaves one byte of window, the second is
      one byte long, passes the check, is charged twice, and leaves the check open for all but one of
      2^32 bytes. */
  lemma CheckDisabled(h: seq<byte>, path: seq<byte>) returns (states: seq<Net>, events: seq<(bool, Event)>)
    requires |h| < TWO_TO_THE_16 && |path| < TWO_TO_THE_16
    ensures Run(states, events) && states[0] == Net(NewTransport(h), NewTransport(h), [], [])
    ensures events == [(true, Wrote(AlmostAll(h), path, [], [0])), (true, Wrote([0], path, [0], [1]))]
    ensures Available(states[1].a) == 1 && Available(states[2].a) == TWO_TO_THE_32 - 1
  {
    hide WireBytes, HeadersBytes;
    var n0 := Net(NewTransport(h), NewTransport(h), [], []);
    var n1 := AfterWrite(n0, AlmostAll(h), path);
    var n2 := AfterWrite(n1, [0], path);
    FirstStep(n0, h, path);
    OneByteStep(n1, path);
    states, events := [n0, n1, n2], [(true, Wrote(AlmostAll(h), path, [], [0])), (true, Wrote([0], path, [0], [1]))];
    assert Step(states[0], states[1], events[0].0, events[0].1);
    assert Step(states[1], states[2], events[1].0, events[1].1);
  }

  lemma FirstStep(n: Net, h: seq<byte>, path: seq<byte>)
    requires |h| < TWO_TO_THE_16 && |path| < TWO_TO_THE_16 && n.a == NewTransport(h)
    ensures SideStep(n, AfterWrite(n, AlmostAll(h), path), Wrote(AlmostAll(h), path, [], [0]))
    ensures AfterWrite(n, AlmostAll(h), path).a.charged == DEFAULT_WINDOW_SIZE - 1
  {
    var p := AlmostAll(h);
    var t := TraceOf(n, [], [0], ChecksOf(n.a.sender, p));
    assert RouteOf(n.a.sender, p) == FirstStream;
    assert t.checks == [Check(0, DEFAULT_WINDOW_SIZE - 1)];
    assert Passed(t, 0);
  }

  lemma OneByteStep(n: Net, path: seq<byte>)
    requires n.a.sender.sentHeaders && !n.a.broken && |path| < TWO_TO_THE_16
    requires n.a.window == n.a.charged + 1
    ensures SideStep(n, AfterWrite(n, [0], path), Wrote([0], path, [0], [1]))
  {
    var t := TraceOf(n, [0], [1], ChecksOf(n.a.sender, [0]));
    assert ChunkChecks(1, 0) == [];
    assert t.checks == [Check(0, 1)];
    assert t.ks[..1] == [0] && [0][..0] == [];
    assert Polls(t.rx, [0]) == t.rx;
    assert Passed(t, 0);
  }
}
