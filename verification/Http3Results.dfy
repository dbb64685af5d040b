/** What holds in every state of every run of two HTTP/3-style transports: the byte streams. */
module Http3Results {
  import opened Bytes
  import opened Http3Frames
  import opened Http3Codec
  import opened Http3Receive
  import opened Http3Sending
  import opened Http3Run

  /** What is on its way to the other end. */
  function Wire(n: Net, atA: bool): seq<byte> {
    if atA then n.ab else n.ba
  }

  lemma Reached(states: seq<Net>, events: seq<(bool, Event)>, i: nat, atA: bool)
    requires Run(states, events) && i < |states|
    ensures var n := states[i]; var x, y := End(n, atA), End(n, !atA);
            && Flow(x, y, Behind(y, Wire(n, atA)) + x.unsent, Behind(x, Wire(n, !atA)) + y.unsent)
            && Flow(y, x, Behind(x, Wire(n, !atA)) + y.unsent, Behind(y, Wire(n, atA)) + x.unsent)
            && SoundSender(x.sender)
  {
    RunKeepsInv(states, events, i);
  }

  /** The payloads that the last piece of a connection completed, and that no read returns. */
  function Missed(y: Side): seq<byte> {
    if y.ended then Data(Frames(Tail(y.raw) + y.dropped)) else []
  }

  /** What `y` has returned is a prefix of what `x` has written, as long as no read has lost a payload;
      and once everything has been delivered and read, the two are equal exactly if none has and the
      connection did not return the end of a payload together with an error. */
  lemma StreamPreserved(states: seq<Net>, events: seq<(bool, Event)>, i: nat, atA: bool)
    requires Run(states, events) && i < |states|
    ensures var n := states[i]; var x, y := End(n, atA), End(n, !atA);
            && (y.lost == 0 ==> y.returned <= x.written)
            && (!x.broken && Wire(n, atA) == Data(Frames(y.raw)) == y.readBuffer == [] ==>
                  (y.returned == x.written <==> y.lost == 0 && Missed(y) == []))
  {
    hide Data, Credit, Frames, Whole;
    Reached(states, events, i, atA);
    var n := states[i];
    var x, y := End(n, atA), End(n, !atA);
    var coming := Data(Frames(y.raw + (Behind(y, Wire(n, atA)) + x.unsent)));
    Assoc(y.returned, y.readBuffer, coming);
    if !x.broken && Wire(n, atA) == Data(Frames(y.raw)) == y.readBuffer == [] {
      assert coming == Missed(y) by {
        NothingBehind(y);
        AppendNothing(Behind(y, []));
      }
      AppendNothing(y.returned);
      AppendNothing(y.returned + []);
    }
  }

  /** With no payload in `raw` and nothing on the wire, all that is coming is what was missed. */
  lemma NothingBehind(y: Side)
    requires Data(Frames(y.raw)) == []
    ensures Data(Frames(y.raw + Behind(y, []))) == Missed(y)
  {
    AppendNothing(y.raw);
    AppendNothing(y.dropped);
    ReadInPieces(y.raw, y.dropped);
    DataAppend(Frames(y.raw), Frames(Tail(y.raw) + y.dropped));
    AppendNothing(Missed(y));
  }

  /** Bytes are lost when a payload would have fitted and the WINDOW_UPDATE frame is not sent, and when
      the connection returns the end of a payload together with an error. */
  predicate Loses(n': Net, atA: bool, who: bool, e: Event) {
    && who == atA
    && ((e.DidRead? && e.out.UpdateNotSent? && End(n', atA).readBuffer == []) || (e.Dropped? && Missed(End(n', atA)) != []))
  }

  /** This has happened in the first `i` steps. */
  predicate HasLost(states: seq<Net>, events: seq<(bool, Event)>, i: nat, atA: bool)
    requires i <= |events| && |states| == |events| + 1
  {
    exists j :: 0 <= j < i && Loses(states[j + 1], atA, events[j].0, events[j].1)
  }

  lemma LosesNow(states: seq<Net>, events: seq<(bool, Event)>, i: nat, atA: bool)
    requires i < |events| && |states| == |events| + 1
    ensures HasLost(states, events, i + 1, atA)
            <==> HasLost(states, events, i, atA) || Loses(states[i + 1], atA, events[i].0, events[i].1)
  {
    hide Loses;
    if HasLost(states, events, i, atA) {
      var j :| 0 <= j < i && Loses(states[j + 1], atA, events[j].0, events[j].1);
    }
  }

  /** Bytes are lost in these two ways and in no other. */
  lemma {:induction false} LostBytes(states: seq<Net>, events: seq<(bool, Event)>, i: nat, atA: bool)
    requires Run(states, events) && i < |states|
    ensures End(states[i], atA).lost > 0 || Missed(End(states[i], atA)) != [] <==> HasLost(states, events, i, atA)
    decreases i
  {
    hide Missed, Loses, Step, HasLost;
    if i == 0 {
      NothingLost(states, events, atA);
    } else {
      LostBytes(states, events, i - 1, atA);
      LostNow(states, events, i - 1, atA);
      LosesNow(states, events, i - 1, atA);
      assert states[i - 1 + 1] == states[i];
    }
  }

  lemma NothingLost(states: seq<Net>, events: seq<(bool, Event)>, atA: bool)
    requires Run(states, events)
    ensures End(states[0], atA).lost == 0 && Missed(End(states[0], atA)) == [] && !HasLost(states, events, 0, atA)
  {
  }

  lemma LostNow(states: seq<Net>, events: seq<(bool, Event)>, i: nat, atA: bool)
    requires Run(states, events) && i < |events|
    ensures var x, x' := End(states[i], atA), End(states[i + 1], atA);
            x'.lost > 0 || Missed(x') != [] <==>
            x.lost > 0 || Missed(x) != [] || Loses(states[i + 1], atA, events[i].0, events[i].1)
  {
    hide Missed, SideStep, Flow, SoundSender;
    RunKeepsInv(states, events, i);
    var (who, e) := events[i];
    assert Step(states[i], states[i + 1], who, e);
    if who == atA {
      LostByStep(From(states[i], atA), From(states[i + 1], atA), e);
      MissedByStep(From(states[i], atA), From(states[i + 1], atA), e);
    } else {
      OtherEndLoses(From(states[i], who), From(states[i + 1], who), e);
    }
  }

  lemma OtherEndLoses(n: Net, n': Net, e: Event)
    requires SideStep(n, n', e)
    ensures n'.b == n.b
  {
  }

  lemma LostByStep(n: Net, n': Net, e: Event)
    requires Inv(n) && SideStep(n, n', e)
    ensures n'.a.lost >= n.a.lost
    ensures n'.a.lost > n.a.lost <==> e.DidRead? && e.out.UpdateNotSent? && n'.a.readBuffer == []
  {
    hide Inv, ReadStep, AfterWrite, AfterBroken, AfterPart;
    if e.DidRead? {
      LostByRead(n, n', e.cap, e.skipped, e.out, e.got, e.sent);
    } else {
      LostOtherwise(n, n', e);
    }
  }

  lemma LostOtherwise(n: Net, n': Net, e: Event)
    requires SideStep(n, n', e) && !e.DidRead?
    ensures n'.a.lost == n.a.lost
  {
  }

  lemma LostByRead(n: Net, n': Net, cap: nat, skipped: nat, out: ReadOutcome, got: seq<byte>, sent: seq<byte>)
    requires Inv(n) && ReadStep(n, n', cap, skipped, out, got, sent)
    ensures n'.a.lost >= n.a.lost
    ensures n'.a.lost > n.a.lost <==> out.UpdateNotSent? && n'.a.readBuffer == []
  {
    if n.a.readBuffer == [] {
      ReadTakesComing(n, n', cap, skipped, out, got, sent);
      hide Behind, Skip, UpdateFrame, Flow, Frames, Data, Credit, CanBreak;
    }
  }

  // What was missed stays so

  lemma MissedByStep(n: Net, n': Net, e: Event)
    requires SideStep(n, n', e)
    ensures e.Dropped? ==> Missed(n.a) == []
    ensures !e.Dropped? ==> Missed(n'.a) == Missed(n.a)
  {
    if n.a.ended {
      StaysEnded(n, n', e);
      if e.DidRead? {
        ReadKeepsTail(n, n', e.cap, e.skipped, e.out, e.got, e.sent);
      } else {
        PollsKeepRaw(n, n', e);
      }
    } else if !e.Dropped? {
      NotEnded(n, n', e);
    }
  }

  lemma StaysEnded(n: Net, n': Net, e: Event)
    requires SideStep(n, n', e) && n.a.ended
    ensures n'.a.ended && n'.a.dropped == n.a.dropped && n'.ba == n.ba && !e.Dropped?
  {
  }

  lemma NotEnded(n: Net, n': Net, e: Event)
    requires SideStep(n, n', e) && !n.a.ended && !e.Dropped?
    ensures !n'.a.ended
  {
  }

  lemma PollsKeepRaw(n: Net, n': Net, e: Event)
    requires SideStep(n, n', e) && n.a.ended && !e.DidRead?
    ensures n'.a.raw == n.a.raw
  {
    match e
    case Wrote(p, path, ks, ats) => NothingPolled(Receiving(n), ks);
    case TimedOut(p, ks, ats, i) => NothingPolled(Receiving(n), ks);
    case Broke(p, path, ks, sent, sender, charged) => NothingPolled(Receiving(n), ks);
    case DidPoll(k) => NothingPolled(Receiving(n), [k]);
    case Dropped(k) =>
  }

  /** Polls that take nothing change nothing. */
  lemma {:induction false} NothingPolled(s: Rx, ks: seq<nat>)
    ensures |Polls(s, ks).incoming| <= |s.incoming|
    ensures |Polls(s, ks).incoming| == |s.incoming| ==> Polls(s, ks) == s
    decreases |ks|
  {
    if ks != [] {
      NothingPolled(s, ks[..|ks| - 1]);
    }
  }

  lemma ReadKeepsTail(n: Net, n': Net, cap: nat, skipped: nat, out: ReadOutcome, got: seq<byte>, sent: seq<byte>)
    requires ReadStep(n, n', cap, skipped, out, got, sent) && n.a.ended
    requires n'.a.ended && n'.a.dropped == n.a.dropped && n'.ba == n.ba
    ensures Tail(n'.a.raw) == Tail(n.a.raw)
  {
    if n.a.readBuffer == [] {
      var z := ToA(n);
      var left := Skip(n.a.raw + z, skipped).value.left;
      assert ToA(n') == z;
      SkippedShrinks(n.a.raw + z, skipped);
      if out.Received? || out.UpdateNotSent? {
        var kept := SkipWithin(n.a.raw, z, skipped);
        RestWithin(kept, z);
        SameFront(Rest(kept), n'.a.raw, z);
      } else {
        var kept := SkipWithin(n.a.raw, z, skipped);
        SameFront(kept, n'.a.raw, z);
      }
    }
  }

  lemma SameFront<T>(a: seq<T>, b: seq<T>, z: seq<T>)
    ensures a + z == b + z ==> a == b
  {
    if a + z == b + z {
      assert a == (a + z)[..|a|] && b == (b + z)[..|b|];
    }
  }

  lemma {:induction false} SkippedShrinks(b: seq<byte>, k: nat)
    requires Skip(b, k).Some?
    ensures |Skip(b, k).value.left| <= |b|
    decreases k
  {
    if k > 0 {
      SkippedShrinks(Rest(b), k - 1);
    }
  }

  /** A frame that ends in front of `z`. */
  lemma RestWithin(b: seq<byte>, z: seq<byte>)
    requires HasFrame(b + z) && |Rest(b + z)| >= |z|
    ensures HasFrame(b) && Rest(b + z) == Rest(b) + z && Tail(Rest(b)) == Tail(b)
  {
  }

  /** Frames skipped in front of `z` leave the incomplete frame before it. */
  lemma {:induction false} SkipWithin(b: seq<byte>, z: seq<byte>, k: nat) returns (kept: seq<byte>)
    requires Skip(b + z, k).Some? && |Skip(b + z, k).value.left| >= |z|
    ensures Skip(b + z, k).value.left == kept + z && Tail(kept) == Tail(b)
    decreases k
  {
    if k == 0 {
      kept := b;
    } else {
      SkippedShrinks(Rest(b + z), k - 1);
      RestWithin(b, z);
      kept := SkipWithin(Rest(b), z, k - 1);
    }
  }

  /** In every run no read and no poll meets a frame it rejects, and a read that succeeds with
      room for a byte returns at least one. */
  lemma ReadsNeverFault(states: seq<Net>, events: seq<(bool, Event)>, i: nat)
    requires Run(states, events) && i < |events| && events[i].1.DidRead?
    ensures !events[i].1.out.BadFrame?
    ensures events[i].1.out.Received? && events[i].1.cap > 0 ==> |events[i].1.got| > 0
  {
    RunKeepsInv(states, events, i);
    var (atA, e) := events[i];
    StepKeepsInv(states[i], states[i + 1], atA, e);
    var n, n' := From(states[i], atA), From(states[i + 1], atA);
    if n.a.readBuffer == [] {
      ReadTakesComing(n, n', e.cap, e.skipped, e.out, e.got, e.sent);
    }
  }

  /** In every run a read that has a whole DATA frame at hand, behind nothing but frames that it skips,
      takes it, whatever its connection does: it ends with the payload, unless the window update cannot
      be sent. */
  lemma FrameAtHandIsTaken(states: seq<Net>, events: seq<(bool, Event)>, i: nat)
    requires Run(states, events) && i < |events| && events[i].1.DidRead?
    requires var x := End(states[i], events[i].0); x.readBuffer == [] && Ready(x.raw)
    ensures var e := events[i].1;
            if e.out.Received? then e.cap > 0 ==> |e.got| > 0 else e.out.UpdateNotSent?
  {
    ReadsNeverFault(states, events, i);
    var (atA, e) := events[i];
    assert Step(states[i], states[i + 1], atA, e);
    var n, n' := From(states[i], atA), From(states[i + 1], atA);
    if e.out.ConnFailed? {
      StillAtHand(n.a.raw, ToA(n), e.skipped, n'.a.raw, ToA(n'));
    }
  }

  lemma StillAtHand(raw: seq<byte>, coming: seq<byte>, skipped: nat, raw': seq<byte>, coming': seq<byte>)
    requires Ready(raw) && Skip(raw + coming, skipped).Some? && Skip(raw + coming, skipped).value.left == raw' + coming'
    requires |coming'| <= |coming|
    ensures HasFrame(raw')
  {
    ReadyHolds(raw, skipped, coming);
    SkipLonger(raw, skipped, coming);
    var left := Skip(raw, skipped).value.left;
    assert left + coming == raw' + coming';
    assert |left| <= |raw'| && raw'[..|left|] == left by {
      assert (raw' + coming')[..|left|] == left;
    }
    assert raw' == left + raw'[|left|..];
    HeadOfLonger(left, raw'[|left|..]);
  }

  lemma PollsNeverFault(states: seq<Net>, events: seq<(bool, Event)>, i: nat, atA: bool, k: nat)
    requires Run(states, events) && i < |states|
    requires k <= |Behind(End(states[i], atA), Wire(states[i], !atA))|
    ensures var x := End(states[i], atA); Filter(x.raw + Behind(x, Wire(states[i], !atA))[..k]).fault.None?
  {
    var n := From(states[i], atA);
    var coming := ToA(n);
    RunKeepsInv(states, events, i);
    SplitAt(coming, k);
    Assoc(coming[..k], coming[k..], n.b.unsent);
    Assoc(n.a.raw, coming[..k], coming[k..] + n.b.unsent);
    SoundNeverFaults(n.a.raw + coming[..k], coming[k..] + n.b.unsent);
  }
}
