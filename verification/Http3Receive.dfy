/** What the receive side of the HTTP/3-style transport does to its bytes, as functions:
    skipping frames in front of a read, and the WINDOW_UPDATE filter with its effect on the
    send window.  Http3Transport proves its methods against these; Http3Run builds on them. */
module Http3Receive {
  import opened Bytes
  import opened Http3Frames

  datatype Fault = UnknownType | BadUpdate

  // Skipping (the loop of `Read`)

  /** Frames that `Read` takes out of the way without returning data. */
  predicate Skippable(b: seq<byte>) {
    HasFrame(b) && (b[0] == HEADERS || (b[0] == WINDOW_UPDATE && FrameSize(b) == 7))
  }

  datatype Skipped = Skipped(left: seq<byte>, credit: nat)

  /** The bytes left, and the window increments collected, after skipping `n` frames. */
  function Skip(b: seq<byte>, n: nat): Option<Skipped>
    decreases n
  {
    if n == 0 then Some(Skipped(b, 0))
    else if !Skippable(b) then None
    else
      match Skip(Rest(b), n - 1)
      case Some(s) => Some(Skipped(s.left, Increment(Head(b)) + s.credit))
      case None => None
  }

  lemma {:induction false} SkipOneMore(b: seq<byte>, n: nat)
    requires Skip(b, n).Some? && Skippable(Skip(b, n).value.left)
    ensures var s := Skip(b, n).value;
            Skip(b, n + 1) == Some(Skipped(Rest(s.left), s.credit + Increment(Head(s.left))))
    decreases n
  {
    if n > 0 {
      SkipOneMore(Rest(b), n - 1);
    }
  }

  /** A frame that `Read` does not skip is in front, or behind whole frames that it does: it can go on
      without its connection. */
  predicate Ready(b: seq<byte>)
    decreases |b|
  {
    HasFrame(b) && (Skippable(b) ==> Ready(Rest(b)))
  }

  lemma {:induction false} SkipReady(b: seq<byte>, n: nat)
    requires Skip(b, n).Some?
    ensures Ready(b) <==> Ready(Skip(b, n).value.left)
    decreases n
  {
    if n > 0 {
      SkipReady(Rest(b), n - 1);
    }
  }

  /** What is ready stays so, and skipping never goes beyond it, whatever else is coming. */
  lemma {:induction false} ReadyHolds(b: seq<byte>, n: nat, later: seq<byte>)
    requires Ready(b) && Skip(b + later, n).Some?
    ensures Skip(b, n).Some? && Ready(Skip(b, n).value.left)
    decreases n
  {
    if n > 0 {
      HeadOfLonger(b, later);
      ReadyHolds(Rest(b), n - 1, later);
    }
  }

  /** Skipping loses no data byte and hands every increment over. */
  lemma {:induction false} SkipConserves(b: seq<byte>, n: nat)
    requires Skip(b, n).Some?
    ensures var s := Skip(b, n).value;
            && Data(Frames(s.left)) == Data(Frames(b))
            && Tail(s.left) == Tail(b)
            && Credit(Frames(b)) == s.credit + Credit(Frames(s.left))
            && (AllSound(Frames(b)) ==> AllSound(Frames(s.left)))
    decreases n
  {
    if n > 0 {
      SkipConserves(Rest(b), n - 1);
      var fs := Frames(b);
      assert fs == [Head(b)] + Frames(Rest(b)) && fs[1..] == Frames(Rest(b));
      assert [] + Data(fs[1..]) == Data(fs[1..]);
      assert AllSound(fs) ==> AllSound(fs[1..]);
    }
  }

  // Filtering (`processIncomingFrames`)

  /** Outcome of one scan: the frames kept, the unread rest, the sum of the increments taken
      out, and the fault that stopped the scan, if any. */
  datatype Filtered = Filtered(kept: seq<byte>, rest: seq<byte>, credit: nat, fault: Option<Fault>)

  function Filter(b: seq<byte>): Filtered
    decreases |b|
  {
    if !HasFrame(b) then Filtered([], b, 0, None)
    else if b[0] == WINDOW_UPDATE then
      if FrameSize(b) != 7 then Filtered([], b, 0, Some(BadUpdate))
      else
        var f := Filter(Rest(b));
        f.(credit := Increment(Head(b)) + f.credit)
    else if b[0] == DATA || b[0] == HEADERS then
      var f := Filter(Rest(b));
      f.(kept := b[..FrameSize(b)] + f.kept)
    else Filtered([], b, 0, Some(UnknownType))
  }

  lemma {:induction false} FilterShrinks(b: seq<byte>)
    ensures |Filter(b).kept| + |Filter(b).rest| <= |b|
    decreases |b|
  {
    if HasFrame(b) {
      FilterShrinks(Rest(b));
    }
  }

  /** The buffer after the filter.  A fault leaves the kept frames in front of the rest of the
      old contents, at the old length. */
  function Compacted(b: seq<byte>): seq<byte> {
    var f := Filter(b);
    FilterShrinks(b);
    f.kept + (if f.fault.None? then f.rest else b[|f.kept|..])
  }

  /** A frame that the filter lets pass or takes out without a fault. */
  predicate Accepted(f: Frame) {
    f.kind == DATA || f.kind == HEADERS || (f.kind == WINDOW_UPDATE && |f.payload| == 4)
  }

  predicate AllAccepted(fs: seq<Frame>) {
    forall i :: 0 <= i < |fs| ==> Accepted(fs[i])
  }

  /** The filter in terms of the frames: it succeeds iff every complete frame is acceptable, and
      then keeps the DATA and HEADERS frames in their order, followed by the incomplete tail,
      and collects exactly the increments of the frames it takes out. */
  lemma {:induction false} FilterMeaning(b: seq<byte>)
    ensures Filter(b).fault.None? <==> AllAccepted(Frames(b))
    ensures Filter(b).fault.None? ==>
              && Filter(b).kept == Serialise(Kept(Frames(b)))
              && Filter(b).rest == Tail(b)
              && Filter(b).credit == Credit(Frames(b))
    decreases |b|
  {
    if HasFrame(b) {
      FilterMeaning(Rest(b));
      var fs := Frames(b);
      FirstOfAll(fs, Head(b), Frames(Rest(b)));
      if b[0] == DATA || b[0] == HEADERS {
        ReadThenEncode(b);
        KeptFirst(Head(b), Frames(Rest(b)));
      } else if b[0] == WINDOW_UPDATE {
        assert [] + Kept(fs[1..]) == Kept(fs[1..]);
      }
    }
  }

  /** How many frames stand in front of the first one that is not acceptable. */
  function Leading(fs: seq<Frame>): (n: nat)
    ensures n <= |fs| && AllAccepted(fs[..n]) && (n < |fs| ==> !Accepted(fs[n]))
  {
    if fs == [] || !Accepted(fs[0]) then 0
    else
      assert forall n :: 0 < n <= |fs| ==> fs[..n] == [fs[0]] + fs[1..][..n - 1];
      1 + Leading(fs[1..])
  }

  /** With a fault or without: the filter deals with the frames in front of it as if nothing else were there,
      leaves the rest, and tells what was wrong. */
  lemma {:induction false} FilterStops(b: seq<byte>)
    ensures Stopped(Filter(b), b, Frames(b), Leading(Frames(b)))
    decreases |b|
  {
    hide Stopped, Leading, Serialise, Kept, Credit;
    if HasFrame(b) && Accepted(Head(b)) {
      FilterStops(Rest(b));
      var fs, rest := Frames(b), Frames(Rest(b));
      LeadingMore(Head(b), rest);
      OneMoreTaken(b, Filter(Rest(b)), rest, Leading(rest));
    } else {
      NoneTaken(b);
    }
  }

  /** What the filter is to make of `b`, whose first `n` frames it takes. */
  predicate Stopped(f: Filtered, b: seq<byte>, fs: seq<Frame>, n: nat) {
    && n <= |fs|
    && f.kept == Serialise(Kept(fs[..n])) && f.credit == Credit(fs[..n]) && Serialise(fs[..n]) + f.rest == b
    && (f.fault.Some? <==> n < |fs|)
    && (n < |fs| ==> f.fault == Some(if fs[n].kind == WINDOW_UPDATE then BadUpdate else UnknownType))
  }

  lemma NoneTaken(b: seq<byte>)
    requires !HasFrame(b) || !Accepted(Head(b))
    ensures Stopped(Filter(b), b, Frames(b), Leading(Frames(b)))
  {
  }

  lemma LeadingMore(f: Frame, gs: seq<Frame>)
    requires Accepted(f)
    ensures Leading([f] + gs) == 1 + Leading(gs)
  {
    assert ([f] + gs)[1..] == gs;
  }

  lemma OneMoreTaken(b: seq<byte>, g: Filtered, gs: seq<Frame>, n: nat)
    requires HasFrame(b) && Accepted(Head(b)) && Stopped(g, Rest(b), gs, n)
    ensures Stopped(if b[0] == WINDOW_UPDATE then g.(credit := Increment(Head(b)) + g.credit)
                    else g.(kept := b[..FrameSize(b)] + g.kept), b, [Head(b)] + gs, n + 1)
  {
    hide Leading, Accepted, Encode;
    var f, fs := Head(b), [Head(b)] + gs;
    assert fs[..n + 1] == [f] + gs[..n] && ([f] + gs[..n])[1..] == gs[..n];
    assert n < |gs| ==> fs[n + 1] == gs[n];
    ReadThenEncode(b);
    Assoc(Encode(f), Serialise(gs[..n]), g.rest);
    if f.kind == WINDOW_UPDATE {
      assert [] + Kept(gs[..n]) == Kept(gs[..n]);
    } else {
      KeptFirst(f, gs[..n]);
    }
  }

  lemma FirstOfAll(fs: seq<Frame>, f: Frame, gs: seq<Frame>)
    requires fs == [f] + gs
    ensures fs[0] == f && fs[1..] == gs
    ensures AllAccepted(fs) <==> Accepted(f) && AllAccepted(gs)
  {
    if AllAccepted(fs) {
      assert Accepted(fs[0]);
      forall i | 0 <= i < |gs| ensures Accepted(gs[i]) {
        assert gs[i] == fs[i + 1];
      }
    }
  }

  lemma KeptFirst(f: Frame, gs: seq<Frame>)
    requires f.kind != WINDOW_UPDATE
    ensures Serialise(Kept([f] + gs)) == Encode(f) + Serialise(Kept(gs))
  {
    var fs := [f] + gs;
    assert fs[1..] == gs;
    assert Kept(fs) == [f] + Kept(gs);
    assert ([f] + Kept(gs))[1..] == Kept(gs);
  }

  // The part of an endpoint that `processIncomingFrames` works on

  /** `window` is the send window without wrap-around; the transport's field holds it modulo
      2^32. */
  datatype Rx = Rx(raw: seq<byte>, incoming: seq<byte>, window: nat)

  /** One call that takes `k` bytes off the connection; none at all when `k` is 0. */
  function Poll(s: Rx, k: nat): Rx {
    if k == 0 || k > |s.incoming| then s
    else
      var b := s.raw + s.incoming[..k];
      Rx(Compacted(b), s.incoming[k..], s.window + Filter(b).credit)
  }

  function Polls(s: Rx, ks: seq<nat>): Rx
    decreases |ks|
  {
    if ks == [] then s else Poll(Polls(s, ks[..|ks| - 1]), ks[|ks| - 1])
  }

  lemma PollsOneMore(s: Rx, ks: seq<nat>, k: nat)
    ensures Polls(s, ks + [k]) == Poll(Polls(s, ks), k)
  {
    assert (ks + [k])[..|ks|] == ks;
  }

  lemma {:induction false} PollsTwice(s: Rx, ks: seq<nat>, js: seq<nat>)
    ensures Polls(s, ks + js) == Polls(Polls(s, ks), js)
    decreases |js|
  {
    if js == [] {
      assert ks + js == ks;
    } else {
      var init := js[..|js| - 1];
      PollsTwice(s, ks, init);
      assert (ks + js)[..|ks + js| - 1] == ks + init;
    }
  }

  /** All bytes that have reached this end or are on their way to it. */
  function Pending(s: Rx): seq<byte> {
    s.raw + s.incoming
  }

  /** `c` with window `v` stands for the same data as `b` with window `w`: only WINDOW_UPDATE
      frames have moved, from the pending bytes into the window. */
  predicate SameStream(b: seq<byte>, w: nat, c: seq<byte>, v: nat) {
    && Data(Frames(c)) == Data(Frames(b))
    && Tail(c) == Tail(b)
    && v + Credit(Frames(c)) == w + Credit(Frames(b))
    && AllSound(Frames(c))
  }

  /** Parsing after the filter gives what parsing before it would have given, whatever arrives
      later. */
  lemma {:induction false} FilterKeepsTheStream(b: seq<byte>, later: seq<byte>)
    requires Filter(b).fault.None?
    ensures Data(Frames(Compacted(b) + later)) == Data(Frames(b + later))
    ensures Tail(Compacted(b) + later) == Tail(b + later)
    ensures Credit(Frames(b + later)) == Filter(b).credit + Credit(Frames(Compacted(b) + later))
    ensures AllSound(Frames(b + later)) ==> AllSound(Frames(Compacted(b) + later))
  {
    var fs := Frames(b);
    var gs := Frames(Tail(b) + later);
    FilterMeaning(b);
    ReadThenSerialise(b);
    KeptCarriesTheData(fs);
    ReadInPieces(b, later);
    Assoc(Serialise(Kept(fs)), Tail(b), later);
    SerialiseThenRead(Kept(fs), Tail(b) + later);
    DataAppend(fs, gs);
    DataAppend(Kept(fs), gs);
    CreditAppend(fs, gs);
    CreditAppend(Kept(fs), gs);
    if AllSound(fs + gs) {
      SoundParts(fs, gs);
      SoundTogether(Kept(fs), gs);
    }
  }

  lemma SoundParts(fs: seq<Frame>, gs: seq<Frame>)
    requires AllSound(fs + gs)
    ensures AllSound(fs) && AllSound(gs)
  {
    forall i | 0 <= i < |fs| ensures Sound(fs[i]) {
      assert (fs + gs)[i] == fs[i];
    }
    forall i | 0 <= i < |gs| ensures Sound(gs[i]) {
      assert (fs + gs)[|fs| + i] == gs[i];
    }
  }

  lemma SoundTogether(fs: seq<Frame>, gs: seq<Frame>)
    requires AllSound(fs) && AllSound(gs)
    ensures AllSound(fs + gs)
  {
  }

  /** With an honest peer no poll ever meets a fault. */
  lemma SoundNeverFaults(b: seq<byte>, later: seq<byte>)
    requires AllSound(Frames(b + later))
    ensures Filter(b).fault.None?
  {
    ReadInPieces(b, later);
    SoundParts(Frames(b), Frames(Tail(b) + later));
    FilterMeaning(b);
    assert forall f :: Sound(f) ==> Accepted(f);
  }

  lemma FilterConserves(b: seq<byte>, later: seq<byte>, w: nat)
    requires AllSound(Frames(b + later))
    ensures SameStream(b + later, w, Compacted(b) + later, w + Filter(b).credit)
  {
    SoundNeverFaults(b, later);
    FilterKeepsTheStream(b, later);
  }

  lemma PollConserves(s: Rx, k: nat, later: seq<byte>)
    requires AllSound(Frames(Pending(s) + later))
    ensures var t := Poll(s, k); SameStream(Pending(s) + later, s.window, Pending(t) + later, t.window)
  {
    if 0 < k <= |s.incoming| {
      var b, rest := s.raw + s.incoming[..k], s.incoming[k..];
      SplitAt(s.incoming, k);
      Assoc(s.raw, s.incoming[..k], rest);
      Assoc(b, rest, later);
      FilterConserves(b, rest + later, s.window);
      Assoc(Compacted(b), rest, later);
    }
  }

  /** Any number of polls only moves WINDOW_UPDATE frames, from the pending bytes into the window,
      whatever comes `later`. */
  lemma {:induction false} PollsConserve(s: Rx, ks: seq<nat>, later: seq<byte>)
    requires AllSound(Frames(Pending(s) + later))
    ensures var t := Polls(s, ks); SameStream(Pending(s) + later, s.window, Pending(t) + later, t.window)
    decreases |ks|
  {
    if ks != [] {
      PollsConserve(s, ks[..|ks| - 1], later);
      PollConserves(Polls(s, ks[..|ks| - 1]), ks[|ks| - 1], later);
    }
  }

  /** Polls never take window away. */
  lemma {:induction false} PollsGrow(s: Rx, ks: seq<nat>, i: nat, j: nat)
    requires i <= j <= |ks|
    ensures Polls(s, ks[..i]).window <= Polls(s, ks[..j]).window
    decreases j - i
  {
    if i < j {
      PollsGrow(s, ks, i, j - 1);
      assert ks[..j][..j - 1] == ks[..j - 1];
    }
  }

  /** More bytes behind do not change what is skipped in front. */
  lemma {:induction false} SkipLonger(b: seq<byte>, n: nat, later: seq<byte>)
    requires Skip(b, n).Some?
    ensures var s := Skip(b, n).value; Skip(b + later, n) == Some(Skipped(s.left + later, s.credit))
    decreases n
  {
    if n > 0 {
      HeadOfLonger(b, later);
      SkipLonger(Rest(b), n - 1, later);
    }
  }

  // What a read does

  function UpdateFrame(increment: uint32): seq<byte> {
    Encode(Frame(WINDOW_UPDATE, Be32(increment)))
  }

  datatype ReadOutcome = Received | Closed | ConnFailed | UpdateNotSent | BadFrame(fault: Fault)

  /** One `Read` on an open transport whose `readBuffer` is empty.  `b` is everything pending
      before it and `c` everything pending after it; `m` is what is left of `b` once `skipped`
      frames are out of the way. */
  predicate ReadEffect(b: seq<byte>, c: seq<byte>, skipped: nat, cap: nat,
                       out: ReadOutcome, got: seq<byte>, buffered: seq<byte>) {
    && Skip(b, skipped).Some?
    && var m := Skip(b, skipped).value.left;
       match out
       case Received =>
         && HasFrame(m) && m[0] == DATA && c == Rest(m)
         && got + buffered == Head(m).payload && |got| == Min(|Head(m).payload|, cap)
       case UpdateNotSent =>
         && HasFrame(m) && m[0] == DATA && c == Rest(m) && got == []
         && buffered == (if |Head(m).payload| <= cap then [] else Head(m).payload)
       case ConnFailed => c == m && got == [] && buffered == []
       case BadFrame(f) =>
         && c == m && got == [] && buffered == [] && HasFrame(m) && !Skippable(m) && m[0] != DATA
         && f == (if m[0] == WINDOW_UPDATE then BadUpdate else UnknownType)
       case Closed => false
  }
}
