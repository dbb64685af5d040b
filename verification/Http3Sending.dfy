/** What a write of the HTTP/3-style transport puts on the wire, what it counts, and which window
    checks it makes on the way.  Http3Transport proves its methods against these. */
module Http3Sending {
  import opened Bytes
  import opened Http3Frames
  import opened Http3Codec
  import opened Http3Receive

  const DEFAULT_WINDOW_SIZE: uint32 := 104857600
  const STREAM_WRITE_THRESHOLD: nat := 65536

  // What a write puts on the wire

  /** What a transport knows when it writes: whether the HEADERS frame has gone out, the frame
      prepared for that, and whether the obfuscator can stream. */
  datatype Sender = Sender(sentHeaders: bool, headersFrame: Option<seq<byte>>, streams: bool)

  datatype Route = FirstStream | FirstZeroCopy | FirstFallback | LaterStream | LaterZeroCopy

  function RouteOf(s: Sender, p: seq<byte>): Route {
    if s.streams && |p| > STREAM_WRITE_THRESHOLD then (if s.sentHeaders then LaterStream else FirstStream)
    else if s.sentHeaders then LaterZeroCopy
    else if s.headersFrame.Some? then FirstZeroCopy
    else FirstFallback
  }

  function Prepared(s: Sender): seq<byte> {
    if s.headersFrame.Some? then s.headersFrame.value else []
  }

  /** The bytes of a successful write; `path` is the HEADERS payload that the obfuscator makes
      up from a random path when it is called. */
  function WireBytes(s: Sender, p: seq<byte>, path: seq<byte>): seq<byte> {
    match RouteOf(s, p)
    case FirstStream => Prepared(s) + Obfuscated(path, p)
    case FirstZeroCopy => Prepared(s) + Serialise(DataFrames(p, ZERO_COPY_CHUNK))
    case FirstFallback => Obfuscated(path, p)
    case LaterStream => Obfuscated(path, p)
    case LaterZeroCopy => Serialise(DataFrames(p, ZERO_COPY_CHUNK))
  }

  /** What a successful write adds to `sentBytes`.  A later zero-copy write counts its payload
      in `writeDataFrameZeroCopy` and once more in `Write`. */
  function Charge(s: Sender, p: seq<byte>, path: seq<byte>): nat {
    match RouteOf(s, p)
    case FirstStream => |Prepared(s)| + |p|
    case FirstZeroCopy => |Prepared(s)| + |p|
    case FirstFallback => |Obfuscated(path, p)|
    case LaterStream => |p|
    case LaterZeroCopy => 2 * |p|
  }

  /** A first streamed write without a prepared frame does not set `hasSentHeaders`. */
  function SentHeadersAfter(s: Sender, p: seq<byte>): bool {
    s.sentHeaders || RouteOf(s, p) != FirstStream || s.headersFrame.Some?
  }

  // The window checks of a write

  /** `waitForWindow(needed)` lets a transport pass, in the 32-bit words it computes with. */
  predicate Admits(window: int, charged: int, needed: nat) {
    Wrap32(needed) <= Wrap32(window - charged)
  }

  /** The difference of the two counters is the same in 32-bit words. */
  lemma WordsDiffer(window: int, charged: int)
    ensures Wrap32(Wrap32(window) - Wrap32(charged)) == Wrap32(window - charged)
  {
    var c: int := Wrap32(charged);
    WrapTwice(window, -c);
    var q := charged / TWO_TO_THE_32;
    assert charged == q * TWO_TO_THE_32 + c;
    WrapPeriod(window - c, -q);
    assert window - charged == window - c + -q * TWO_TO_THE_32;
  }

  /** A check for `needed` bytes when the write has already counted `used`. */
  datatype Check = Check(used: nat, needed: nat)

  /** One for each DATA frame of a zero-copy write of `n` bytes. */
  function ChunkChecks(used: nat, n: nat): seq<Check>
    decreases n
  {
    if n == 0 then []
    else var k := Min(n, ZERO_COPY_CHUNK); [Check(used, k)] + ChunkChecks(used + k, n - k)
  }

  /** One for headers and data together, then one for each DATA frame. */
  function FirstChecks(h: nat, n: nat): seq<Check> {
    [Check(0, h + n)] + ChunkChecks(h, n)
  }

  /** The checks of a whole write, in order.  The fallback makes none. */
  function ChecksOf(s: Sender, p: seq<byte>): seq<Check> {
    match RouteOf(s, p)
    case FirstStream => [Check(0, |p| + |Prepared(s)|)]
    case FirstZeroCopy => FirstChecks(|Prepared(s)|, |p|)
    case FirstFallback => []
    case LaterStream => [Check(0, |p|)]
    case LaterZeroCopy => ChunkChecks(0, |p|)
  }

  /** A write so far: what it started from, how many polls it makes before anything else, the bytes that
      each poll took, and the checks passed, each after as many polls as `ats` says. */
  datatype Trace = Trace(rx: Rx, charged: nat, begins: nat, ks: seq<nat>, ats: seq<nat>, checks: seq<Check>)

  /** What check `c` finds after `k` polls. */
  predicate AdmittedAt(t: Trace, k: nat, c: Check)
    requires k <= |t.ks|
  {
    Admits(Polls(t.rx, t.ks[..k]).window, t.charged + c.used, c.needed)
  }

  /** When check `i` is made for the first time: where the one before it has passed. */
  function Start(t: Trace, i: nat): nat
    requires i <= |t.ats|
  {
    if i == 0 then t.begins else t.ats[i - 1]
  }

  /** Check `c`, made again after every poll from `start` on, has not passed before `end`. */
  predicate InVain(t: Trace, start: nat, end: nat, c: Check)
    requires end <= |t.ks|
  {
    forall k :: start <= k < end ==> !AdmittedAt(t, k, c)
  }

  /** The check passed where the trace says, and not before. */
  predicate Passed(t: Trace, i: nat)
    requires i < |t.ats| && i < |t.checks|
  {
    && Start(t, i) <= t.ats[i] <= |t.ks|
    && InVain(t, Start(t, i), t.ats[i], t.checks[i])
    && AdmittedAt(t, t.ats[i], t.checks[i])
  }

  predicate Followed(t: Trace) {
    && |t.ats| == |t.checks|
    && (forall i :: 0 <= i < |t.ats| ==> Passed(t, i))
    && (forall i, j :: 0 <= i < j < |t.ats| ==> t.ats[i] <= t.ats[j])
  }

  /** It has not polled since its last check. */
  predicate Prompt(t: Trace) {
    Start(t, |t.ats|) == |t.ks|
  }

  /** It has polled `patience` times since, and check `c` has not passed yet. */
  predicate Waited(t: Trace, c: Check, patience: nat) {
    && |t.ks| == Start(t, |t.ats|) + patience
    && InVain(t, Start(t, |t.ats|), |t.ks|, c) && !AdmittedAt(t, |t.ks|, c)
  }

  /** However patient it has been. */
  predicate HasWaited(t: Trace, c: Check) {
    Start(t, |t.ats|) <= |t.ks| && Waited(t, c, |t.ks| - Start(t, |t.ats|))
  }

  /** `t` is the same write earlier on. */
  predicate Continues(t: Trace, t': Trace) {
    t'.rx == t.rx && t'.charged == t.charged && t'.begins == t.begins && t.ks <= t'.ks && t.checks <= t'.checks
  }

  lemma FollowedPolls(t: Trace, js: seq<nat>)
    requires Followed(t)
    ensures Followed(t.(ks := t.ks + js)) && Continues(t, t.(ks := t.ks + js))
  {
    hide AdmittedAt;
    var t' := t.(ks := t.ks + js);
    forall i | 0 <= i < |t.ats| ensures Passed(t', i) {
      assert Passed(t, i);
      forall k | 0 <= k <= t.ats[i] ensures AdmittedAt(t', k, t.checks[i]) == AdmittedAt(t, k, t.checks[i]) {
        AdmittedEarlier(t, t', k, t.checks[i]);
      }
    }
  }

  lemma AdmittedEarlier(t: Trace, t': Trace, k: nat, c: Check)
    requires Continues(t, t') && k <= |t.ks|
    ensures AdmittedAt(t', k, c) == AdmittedAt(t, k, c)
  {
    hide Admits, Polls;
    assert t'.ks[..k] == t.ks[..k];
  }

  lemma WaitBegins(t: Trace, c: Check)
    requires Prompt(t)
    ensures Start(t, |t.ats|) <= |t.ks| && InVain(t, Start(t, |t.ats|), |t.ks|, c)
  {
  }

  /** One poll more in vain. */
  lemma StillInVain(t: Trace, t': Trace, c: Check)
    requires Followed(t) && Continues(t, t') && |t'.ks| == |t.ks| + 1 && t'.ats == t.ats
    requires Start(t, |t.ats|) <= |t.ks| && InVain(t, Start(t, |t.ats|), |t.ks|, c) && !AdmittedAt(t, |t.ks|, c)
    ensures Start(t', |t'.ats|) == Start(t, |t.ats|) <= |t'.ks| && InVain(t', Start(t', |t'.ats|), |t'.ks|, c)
  {
    hide AdmittedAt;
    forall k | 0 <= k <= |t.ks| ensures AdmittedAt(t', k, c) == AdmittedAt(t, k, c) {
      AdmittedEarlier(t, t', k, c);
    }
  }

  /** The trace after one more check. */
  function Then(t: Trace, c: Check): Trace {
    t.(ats := t.ats + [|t.ks|], checks := t.checks + [c])
  }

  lemma FollowedCheck(t: Trace, c: Check)
    requires Followed(t) && AdmittedAt(t, |t.ks|, c)
    requires Start(t, |t.ats|) <= |t.ks| && InVain(t, Start(t, |t.ats|), |t.ks|, c)
    ensures Followed(Then(t, c)) && Continues(t, Then(t, c)) && Prompt(Then(t, c))
  {
    hide AdmittedAt;
    var t' := Then(t, c);
    forall k, d | 0 <= k <= |t.ks| ensures AdmittedAt(t', k, d) == AdmittedAt(t, k, d) {
      AdmittedEarlier(t, t', k, d);
    }
    forall i | 0 <= i < |t'.ats| ensures Passed(t', i) {
      if i < |t.ats| {
        assert Passed(t, i);
      }
    }
    forall i, j | 0 <= i < j < |t'.ats| ensures t'.ats[i] <= t'.ats[j] {
      assert i < |t.ats| && Passed(t, i);
    }
  }

  // A zero-copy write chunk by chunk

  /** The DATA frame of a zero-copy write that starts at `offset`. */
  function ChunkFrame(data: seq<byte>, offset: nat): seq<byte>
    requires offset < |data|
  {
    var n := Min(|data| - offset, ZERO_COPY_CHUNK);
    [DATA, Low(n / 0x100), Low(n)] + data[offset..offset + n]
  }

  /** The first `j` DATA frames of a zero-copy write. */
  function Front(p: seq<byte>, j: nat): seq<Frame> {
    var fs := DataFrames(p, ZERO_COPY_CHUNK);
    if j <= |fs| then fs[..j] else fs
  }

  /** `offset` bytes of `p` have gone out in `j` frames. */
  predicate Progress(p: seq<byte>, offset: nat, j: nat) {
    var fs := DataFrames(p, ZERO_COPY_CHUNK);
    && offset <= |p| && j <= |fs| && fs[j..] == DataFrames(p[offset..], ZERO_COPY_CHUNK)
    && Data(fs[..j]) == p[..offset]
  }

  /** The first DATA frame of what is left of `p`. */
  lemma FirstOfRest(p: seq<byte>, offset: nat)
    requires offset < |p|
    ensures var k := Min(|p| - offset, ZERO_COPY_CHUNK);
            DataFrames(p[offset..], ZERO_COPY_CHUNK)
            == [Frame(DATA, p[offset..offset + k])] + DataFrames(p[offset + k..], ZERO_COPY_CHUNK)
  {
    var k := Min(|p| - offset, ZERO_COPY_CHUNK);
    var rest := p[offset..];
    assert rest[..k] == p[offset..offset + k] && rest[k..] == p[offset + k..];
  }

  lemma NextProgress(p: seq<byte>, offset: nat, j: nat)
    requires Progress(p, offset, j) && offset < |p|
    ensures var k := Min(|p| - offset, ZERO_COPY_CHUNK);
            && Progress(p, offset + k, j + 1)
            && Serialise(Front(p, j + 1)) == Serialise(Front(p, j)) + ChunkFrame(p, offset)
            && (Serialise(Front(p, j)) + ChunkFrame(p, offset)) + Serialise(DataFrames(p[offset + k..], ZERO_COPY_CHUNK))
               == Serialise(DataFrames(p, ZERO_COPY_CHUNK))
  {
    var k := Min(|p| - offset, ZERO_COPY_CHUNK);
    FirstOfRest(p, offset);
    OneFrameMore(DataFrames(p, ZERO_COPY_CHUNK), j, Frame(DATA, p[offset..offset + k]),
                 DataFrames(p[offset + k..], ZERO_COPY_CHUNK));
    ChunkIsFrame(p, offset);
    TakeMore(p, offset, k);
  }

  lemma ChunkIsFrame(p: seq<byte>, offset: nat)
    requires offset < |p|
    ensures var k := Min(|p| - offset, ZERO_COPY_CHUNK);
            Encode(Frame(DATA, p[offset..offset + k])) == ChunkFrame(p, offset)
  {
  }

  lemma TakeMore(p: seq<byte>, offset: nat, k: nat)
    requires offset + k <= |p|
    ensures p[..offset + k] == p[..offset] + p[offset..offset + k]
  {
  }

  lemma OneFrameMore(fs: seq<Frame>, j: nat, f: Frame, later: seq<Frame>)
    requires j <= |fs| && fs[j..] == [f] + later
    ensures j < |fs| && fs[..j + 1] == fs[..j] + [f] && fs[j + 1..] == later
    ensures Serialise(fs[..j + 1]) == Serialise(fs[..j]) + Encode(f)
    ensures (Serialise(fs[..j]) + Encode(f)) + Serialise(later) == Serialise(fs)
    ensures f.kind == DATA ==> Data(fs[..j + 1]) == Data(fs[..j]) + f.payload
  {
    assert fs[j] == f && fs[..j + 1] == fs[..j] + [f] && fs[j + 1..] == fs[j..][1..] == later;
    DataAppend(fs[..j], [f]);
    AppendNothing(f.payload);
    assert Data([f]) == (if f.kind == DATA then f.payload else []) + Data([]);
    assert Serialise([f]) == Encode(f) + Serialise([]);
    AppendNothing(Encode(f));
    SerialiseAppend(fs[..j], [f]);
    SerialiseAppend(fs[..j + 1], later);
    SplitAt(fs, j + 1);
  }

  /** The same for its checks. */
  predicate CheckProgress(used: nat, n: nat, offset: nat, j: nat) {
    var cs := ChunkChecks(used, n);
    offset <= n && j <= |cs| && cs[j..] == ChunkChecks(used + offset, n - offset)
  }

  lemma NextCheck(earlier: seq<Check>, used: nat, n: nat, offset: nat, j: nat)
    requires CheckProgress(used, n, offset, j) && offset < n
    ensures var k := Min(n - offset, ZERO_COPY_CHUNK); var cs := ChunkChecks(used, n);
            && CheckProgress(used, n, offset + k, j + 1)
            && cs[j] == Check(used + offset, k)
            && (earlier + cs[..j]) + [Check(used + offset, k)] == earlier + cs[..j + 1]
  {
    var cs := ChunkChecks(used, n);
    assert cs[j] == cs[j..][0] && cs[j + 1..] == cs[j..][1..];
  }

  /** A zero-copy write of `p` after `offset` bytes in `j` frames: what it has sent, and its checks
      behind `earlier` ones. */
  predicate SoFar(p: seq<byte>, offset: nat, j: nat, used: nat, earlier: seq<Check>, sent: seq<byte>, t: Trace) {
    && Progress(p, offset, j) && CheckProgress(used, |p|, offset, j)
    && sent == Serialise(Front(p, j)) && t.checks == earlier + ChunkChecks(used, |p|)[..j]
  }

  lemma SoFarStarts(p: seq<byte>, used: nat, t: Trace)
    ensures SoFar(p, 0, 0, used, t.checks, [], t)
  {
    assert p[0..] == p && p[..0] == [];
    AppendNothing(t.checks);
    assert ChunkChecks(used, |p|)[..0] == [];
  }

  lemma SoFarMore(p: seq<byte>, offset: nat, j: nat, used: nat, earlier: seq<Check>, sent: seq<byte>, t: Trace, t': Trace)
    requires SoFar(p, offset, j, used, earlier, sent, t) && offset < |p|
    requires var k := Min(|p| - offset, ZERO_COPY_CHUNK); t'.checks == t.checks + [Check(used + offset, k)]
    ensures var k := Min(|p| - offset, ZERO_COPY_CHUNK);
            SoFar(p, offset + k, j + 1, used, earlier, sent + ChunkFrame(p, offset), t')
  {
    NextProgress(p, offset, j);
    NextCheck(earlier, used, |p|, offset, j);
  }

  /** What is still to be sent of it, in front of which the next chunk stands. */
  lemma SoFarLeft(p: seq<byte>, offset: nat, j: nat, used: nat, earlier: seq<Check>, sent: seq<byte>, t: Trace)
    requires SoFar(p, offset, j, used, earlier, sent, t) && offset < |p|
    ensures var k := Min(|p| - offset, ZERO_COPY_CHUNK);
            && (sent + ChunkFrame(p, offset)) + Serialise(DataFrames(p[offset + k..], ZERO_COPY_CHUNK))
               == Serialise(DataFrames(p, ZERO_COPY_CHUNK))
            && j < |ChunkChecks(used, |p|)| && ChunkChecks(used, |p|)[j].needed == k
  {
    NextProgress(p, offset, j);
    NextCheck(earlier, used, |p|, offset, j);
  }

  /** It has given up in front of DATA frame `j`. */
  predicate GaveUp(p: seq<byte>, j: nat, used: nat, earlier: seq<Check>, sent: seq<byte>, t: Trace, patience: nat) {
    var cs := ChunkChecks(used, |p|);
    && j < |cs| && t.checks == earlier + cs[..j] && Waited(t, cs[j], patience)
    && sent == Serialise(Front(p, j))
  }

  lemma SoFarStops(p: seq<byte>, offset: nat, j: nat, used: nat, earlier: seq<Check>, sent: seq<byte>, t: Trace, t': Trace,
                   patience: nat)
    requires SoFar(p, offset, j, used, earlier, sent, t) && offset < |p| && t'.checks == t.checks
    requires Waited(t', Check(used + offset, Min(|p| - offset, ZERO_COPY_CHUNK)), patience)
    ensures GaveUp(p, j, used, earlier, sent, t', patience) && |Data(Front(p, j))| == offset
  {
    hide Waited;
    NextCheck(earlier, used, |p|, offset, j);
  }

  lemma SoFarEnds(p: seq<byte>, j: nat, used: nat, earlier: seq<Check>, sent: seq<byte>, t: Trace)
    requires SoFar(p, |p|, j, used, earlier, sent, t)
    ensures sent == Serialise(DataFrames(p, ZERO_COPY_CHUNK)) && t.checks == earlier + ChunkChecks(used, |p|)
  {
    var fs, cs := DataFrames(p, ZERO_COPY_CHUNK), ChunkChecks(used, |p|);
    assert p[|p|..] == [];
    assert fs[j..] == [] && cs[j..] == [];
    assert fs[..j] == fs && cs[..j] == cs;
  }

  // A write that gives up waiting after `i` of its checks

  function PartSent(s: Sender, p: seq<byte>, i: nat): seq<byte> {
    if RouteOf(s, p) == LaterZeroCopy then Serialise(Front(p, i))
    else if RouteOf(s, p) == FirstZeroCopy && i > 0 then Prepared(s) + Serialise(Front(p, i - 1))
    else []
  }

  function PartData(s: Sender, p: seq<byte>, i: nat): seq<byte> {
    if RouteOf(s, p) == LaterZeroCopy then Data(Front(p, i))
    else if RouteOf(s, p) == FirstZeroCopy && i > 0 then Data(Front(p, i - 1))
    else []
  }

  /** What it has counted: here, the zero-copy data only once. */
  function PartCharge(s: Sender, p: seq<byte>, i: nat): nat {
    |PartData(s, p, i)| + (if RouteOf(s, p) == FirstZeroCopy && i > 0 then |Prepared(s)| else 0)
  }

  function SentHeadersPart(s: Sender, p: seq<byte>, i: nat): bool {
    s.sentHeaders || (RouteOf(s, p) == FirstZeroCopy && i > 0)
  }

  // What the routes come to

  lemma FirstBytes(s: Sender, p: seq<byte>, path: seq<byte>)
    requires RouteOf(s, p) == FirstZeroCopy
    ensures WireBytes(s, p, path) == Prepared(s) + Serialise(DataFrames(p, ZERO_COPY_CHUNK))
  {
  }

  lemma FirstCounts(s: Sender, p: seq<byte>, path: seq<byte>)
    requires RouteOf(s, p) == FirstZeroCopy
    ensures Charge(s, p, path) == |Prepared(s)| + |p| && SentHeadersAfter(s, p)
  {
  }

  lemma FirstChecked(s: Sender, p: seq<byte>)
    requires RouteOf(s, p) == FirstZeroCopy
    ensures ChecksOf(s, p) == FirstChecks(|Prepared(s)|, |p|)
  {
  }

  /** A first write that stops in front of its headers. */
  lemma FirstUnbegun(s: Sender, p: seq<byte>)
    requires RouteOf(s, p) == FirstZeroCopy
    ensures [] < ChecksOf(s, p) && ChecksOf(s, p)[0] == Check(0, |Prepared(s)| + |p|)
    ensures PartSent(s, p, 0) == [] && PartCharge(s, p, 0) == 0 && SentHeadersPart(s, p, 0) == s.sentHeaders
  {
  }

  /** A first write that stops in front of DATA frame `j`. */
  lemma FirstStopped(s: Sender, p: seq<byte>, t: Trace, j: nat, sent: seq<byte>, patience: nat)
    requires RouteOf(s, p) == FirstZeroCopy
    requires GaveUp(p, j, |Prepared(s)|, [Check(0, |Prepared(s)| + |p|)], sent, t, patience)
    ensures t.checks < ChecksOf(s, p) && |t.checks| == j + 1
    ensures Waited(t, ChecksOf(s, p)[j + 1], patience)
    ensures PartSent(s, p, j + 1) == Prepared(s) + sent
    ensures PartCharge(s, p, j + 1) == |Prepared(s)| + |Data(Front(p, j))| && SentHeadersPart(s, p, j + 1)
  {
  }

  lemma StreamRoute(s: Sender, p: seq<byte>, path: seq<byte>)
    requires s.streams && |p| > STREAM_WRITE_THRESHOLD
    ensures var prefix := if s.sentHeaders then [] else Prepared(s);
            && WireBytes(s, p, path) == prefix + Obfuscated(path, p)
            && Charge(s, p, path) == |prefix| + |p| && ChecksOf(s, p) == [Check(0, |p| + |prefix|)]
            && SentHeadersAfter(s, p) == (s.sentHeaders || s.headersFrame.Some?)
            && PartSent(s, p, 0) == [] && PartCharge(s, p, 0) == 0 && SentHeadersPart(s, p, 0) == s.sentHeaders
  {
    AppendNothing(Obfuscated(path, p));
  }

  lemma LaterRoute(s: Sender, p: seq<byte>, path: seq<byte>)
    requires RouteOf(s, p) == LaterZeroCopy
    ensures WireBytes(s, p, path) == Serialise(DataFrames(p, ZERO_COPY_CHUNK)) && Charge(s, p, path) == 2 * |p|
    ensures SentHeadersAfter(s, p) && ChecksOf(s, p) == ChunkChecks(0, |p|) && s.sentHeaders
    ensures forall i: nat :: PartSent(s, p, i) == Serialise(Front(p, i)) && PartCharge(s, p, i) == |Data(Front(p, i))|
                             && SentHeadersPart(s, p, i)
  {
  }

  lemma FallbackRoute(s: Sender, p: seq<byte>, path: seq<byte>)
    requires RouteOf(s, p) == FirstFallback
    ensures WireBytes(s, p, path) == Obfuscated(path, p) && Charge(s, p, path) == |Obfuscated(path, p)|
    ensures ChecksOf(s, p) == [] && SentHeadersAfter(s, p)
  {
  }
}
