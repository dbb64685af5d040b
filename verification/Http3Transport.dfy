/** The HTTP/3-style transport of internal/protocol/zop/http3.go: an object with a raw buffer
    that is read, filtered and shifted in place.  Each method is proved against the functions
    of Http3Receive and Http3Codec. */
module Http3Transport {
  import opened Bytes
  import opened Http3Frames
  import opened Http3Codec
  import opened Http3Receive
  import opened Http3Sending
  import opened Connections

  const MAX_RAW_BUFFER_SIZE: nat := 104857600

  datatype PollOutcome = Polled | PollFailed | PollFault(fault: Fault)

  /** What a poll makes of the answer to its one read, and of the fault its scan has met. */
  function PollOf(r: ReadResult, fault: Option<Fault>): PollOutcome {
    match r
    case Timeout => Polled
    case Failed => PollFailed
    case Last(_, timeout) => if timeout then Polled else PollFailed
    case Read(_) => if fault.Some? then PollFault(fault.value) else Polled
  }

  datatype WriteOutcome = Written | WriteClosed | WindowTimeout | SendFailed

  /** Whether the WINDOW_UPDATE frame for the DATA frame just taken is on the wire. */
  ghost predicate UpdateEffect(before: seq<byte>, after: seq<byte>, b: seq<byte>, skipped: nat, out: ReadOutcome)
    requires Skip(b, skipped).Some?
    requires out.Received? || out.UpdateNotSent? ==> HasFrame(Skip(b, skipped).value.left)
  {
    var m := Skip(b, skipped).value.left;
    if out.Received? then after == before + UpdateFrame(|Head(m).payload|)
    else if out.UpdateNotSent? then exists s :: s <= UpdateFrame(|Head(m).payload|) && after == before + s
    else after == before
  }

  lemma NothingReturned(b: seq<byte>, skipped: nat, cap: nat, out: ReadOutcome, raw: seq<byte>, coming: seq<byte>,
                        outgoing: seq<byte>)
    requires Skip(b, skipped).Some? && Skip(b, skipped).value.left == raw + coming
    requires out.ConnFailed? || (var m := raw + coming;
               && out.BadFrame? && HasFrame(m) && m[0] != DATA && !Skippable(m)
               && out.fault == (if m[0] == WINDOW_UPDATE then BadUpdate else UnknownType))
    ensures ReadEffect(b, raw + coming, skipped, cap, out, [], []) && UpdateEffect(outgoing, outgoing, b, skipped, out)
  {
  }

  /** The DATA frame in front of `raw` has been taken. */
  lemma DataReturned(b: seq<byte>, skipped: nat, cap: nat, out: ReadOutcome, raw: seq<byte>, coming: seq<byte>,
                     got: seq<byte>, buffered: seq<byte>, before: seq<byte>, after: seq<byte>)
    requires Skip(b, skipped).Some? && Skip(b, skipped).value.left == raw + coming
    requires HasFrame(raw) && raw[0] == DATA && (out.Received? || out.UpdateNotSent?)
    requires var payload := Head(raw).payload;
             if out.Received? then
               && got + buffered == payload && |got| == Min(|payload|, cap) && after == before + UpdateFrame(|payload|)
             else
               && got == [] && buffered == (if |payload| <= cap then [] else payload)
               && exists s :: s <= UpdateFrame(|payload|) && after == before + s
    ensures ReadEffect(b, Rest(raw) + coming, skipped, cap, out, got, buffered)
    ensures UpdateEffect(before, after, b, skipped, out)
  {
    hide Skip, UpdateFrame;
    HeadOfLonger(raw, coming);
  }

  // What a read has asked its connection

  predicate AllRead(answers: seq<ReadResult>) {
    forall i :: 0 <= i < |answers| ==> answers[i].Read?
  }

  /** It has asked only while it could not go on with `b` and what had been answered, and an error was
      the last answer. */
  predicate AskedFor(b: seq<byte>, answers: seq<ReadResult>) {
    forall i :: 0 <= i < |answers| ==> AllRead(answers[..i]) && !Ready(b + BytesOf(answers[..i]))
  }

  /** It has asked for exactly what it needed, and failed exactly if it met an error. */
  predicate Asked(b: seq<byte>, answers: seq<ReadResult>, failed: bool) {
    AskedFor(b, answers) && (failed <==> !AllRead(answers)) && (!failed ==> Ready(b + BytesOf(answers)))
  }

  /** The polls `ks` are what the answers since the first `asked` gave. */
  predicate OnRecord(answers: seq<ReadResult>, asked: nat, ks: seq<nat>) {
    |answers| == asked + |ks| && forall i :: 0 <= i < |ks| ==> ks[i] == Taken(answers[asked + i])
  }

  lemma OneMoreOnRecord(answers: seq<ReadResult>, answers': seq<ReadResult>, asked: nat, ks: seq<nat>, k: nat)
    requires OnRecord(answers, asked, ks) && |answers'| == |answers| + 1 && answers <= answers'
    requires k == Taken(answers'[|answers|])
    ensures OnRecord(answers', asked, ks + [k])
  {
  }

  lemma NotReady(b: seq<byte>, n: nat)
    requires Skip(b, n).Some? && !HasFrame(Skip(b, n).value.left)
    ensures !Ready(b)
  {
    SkipReady(b, n);
  }

  lemma NothingAsked(b: seq<byte>)
    ensures AskedFor(b, []) && b + BytesOf([]) == b
  {
  }

  lemma AskMore(b: seq<byte>, answers: seq<ReadResult>, r: ReadResult)
    requires AskedFor(b, answers) && AllRead(answers) && !Ready(b + BytesOf(answers))
    ensures AskedFor(b, answers + [r]) && (AllRead(answers + [r]) <==> r.Read?)
  {
    hide Ready, BytesOf;
    var more := answers + [r];
    forall i | 0 <= i < |more| ensures AllRead(more[..i]) && !Ready(b + BytesOf(more[..i])) {
      assert more[..i] == answers[..i];
      assert answers[..|answers|] == answers;
    }
    assert more[|answers|] == r;
  }

  lemma AnswerTaken(b: seq<byte>, answers: seq<ReadResult>, skipped: nat, r: ReadResult)
    requires Skip(b + BytesOf(answers), skipped).Some?
    ensures var s := Skip(b + BytesOf(answers), skipped).value;
            Skip(b + BytesOf(answers + [r]), skipped)
            == Some(s.(left := s.left + (if r.Read? then r.bytes else [])))
  {
    BytesMore(answers, r);
    var got := if r.Read? then r.bytes else [];
    Assoc(b, BytesOf(answers), got);
    SkipLonger(b + BytesOf(answers), skipped, got);
  }

  function Moved(s: seq<byte>, dst: nat, src: nat, n: nat): seq<byte>
    requires dst <= src && src + n <= |s|
  {
    s[..dst] + s[src..src + n] + s[dst + n..]
  }

  lemma MovedPrefix(s: seq<byte>, dst: nat, src: nat, n: nat, len: nat)
    requires dst <= src && src + n <= len <= |s|
    ensures Moved(s, dst, src, n)[..len] == Moved(s[..len], dst, src, n)
  {
    TakeOfAppend(s[..dst] + s[src..src + n], s[dst + n..], len);
    assert s[..len][..dst] == s[..dst] && s[..len][src..src + n] == s[src..src + n];
    assert s[..len][dst + n..] == s[dst + n..][..len - (dst + n)];
  }

  lemma SliceOfPrefix(s: seq<byte>, len: nat, i: nat, j: nat)
    requires i <= j <= len <= |s|
    ensures s[..len][i..j] == s[i..j]
  {
  }

  /** The array after `i` bytes have been moved, one at a time. */
  function MovedSoFar(s: seq<byte>, dst: nat, src: nat, i: nat): (t: seq<byte>)
    requires dst <= src && src + i <= |s|
    ensures |t| == |s|
  {
    if i == 0 then s else MovedSoFar(s, dst, src, i - 1)[dst + i - 1 := s[src + i - 1]]
  }

  /** No byte is overwritten before it has been moved. */
  lemma {:induction false} StillThere(s: seq<byte>, dst: nat, src: nat, i: nat, j: nat)
    requires dst <= src && src + i <= |s| && dst + i <= j < |s|
    ensures MovedSoFar(s, dst, src, i)[j] == s[j]
  {
    if i > 0 {
      StillThere(s, dst, src, i - 1, j);
    }
  }

  lemma {:induction false} ByteByByte(s: seq<byte>, dst: nat, src: nat, n: nat)
    requires dst <= src && src + n <= |s|
    ensures MovedSoFar(s, dst, src, n) == Moved(s, dst, src, n)
  {
    if n == 0 {
      assert s[src..src + n] == [];
      AppendNothing(s[..dst]);
      SplitAt(s, dst);
      assert Moved(s, dst, src, n) == s[..dst] + s[dst..];
    } else {
      ByteByByte(s, dst, src, n - 1);
      var was, now := Moved(s, dst, src, n - 1), Moved(s, dst, src, n);
      assert |was| == |now| == |s|;
      assert was[..dst + n - 1] == now[..dst + n - 1] && was[dst + n..] == now[dst + n..];
      assert now[dst + n - 1] == s[src + n - 1];
      assert now == was[dst + n - 1 := s[src + n - 1]];
    }
  }

  /** Moves `n` bytes from `src` down to `dst` inside one array, as Go's `copy` does. */
  method MoveDown(a: array<byte>, dst: nat, src: nat, n: nat)
    requires dst <= src && src + n <= a.Length
    modifies a
    ensures a[..] == old(Moved(a[..], dst, src, n))
  {
    ghost var was := a[..];
    var i := 0;
    while i < n
      invariant 0 <= i <= n && a[..] == MovedSoFar(was, dst, src, i)
    {
      StillThere(was, dst, src, i, src + i);
      CopyOne(a, dst + i, src + i);
      i := i + 1;
    }
    ByteByByte(was, dst, src, n);
  }

  /** One byte of it. */
  method CopyOne(a: array<byte>, to: nat, from: nat)
    requires to <= from < a.Length
    modifies a
    ensures a[..] == old(a[..])[to := old(a[..])[from]]
  {
    a[to] := a[from];
  }

  class Transport {
    const conn: Conn
    const streams: bool
    var closed: bool
    var raw: array<byte>
    var rawLen: nat
    var readBuffer: seq<byte>
    var hasSentHeaders: bool
    var headersFrame: Option<seq<byte>>
    var sentBytes: uint32
    var windowSize: uint32
    ghost var charged: nat  // `sentBytes` without wrap-around
    ghost var window: nat   // `windowSize` without wrap-around
    ghost var asked: nat    // how many reads of its connection had been answered when its last write began

    ghost predicate Valid()
      reads this, raw
    {
      rawLen <= raw.Length && windowSize == Wrap32(window) && sentBytes == Wrap32(charged)
    }

    /** `rawBuffer`. */
    ghost function Raw(): seq<byte>
      reads this, raw
      requires Valid()
    {
      raw[..rawLen]
    }

    ghost function Receiving(): Rx
      reads this, raw, conn
      requires Valid()
    {
      Rx(Raw(), conn.Coming(), window)
    }

    ghost function Sending(): Sender
      reads this
    {
      Sender(hasSentHeaders, headersFrame, streams)
    }

    constructor (conn: Conn, streams: bool, headers: Option<seq<byte>>)
      ensures Valid() && fresh(raw) && !closed && !hasSentHeaders && readBuffer == [] && Raw() == []
      ensures this.conn == conn && this.streams == streams
      ensures charged == 0 && window == DEFAULT_WINDOW_SIZE
      ensures headersFrame == (if headers.Some? then Some(HeadersBytes(headers.value)) else None)
    {
      this.conn, this.streams := conn, streams;
      closed, readBuffer, hasSentHeaders := false, [], false;
      raw := new byte[65536];
      rawLen, sentBytes, windowSize := 0, 0, DEFAULT_WINDOW_SIZE;
      charged, window := 0, DEFAULT_WINDOW_SIZE;
      headersFrame := if headers.Some? then Some(HeadersBytes(headers.value)) else None;
    }

    /** Appends to `rawBuffer`, moving to a larger buffer when the capacity is exceeded. */
    method Append(d: seq<byte>)
      requires Valid()
      modifies this`raw, this`rawLen, raw
      ensures Valid() && (raw == old(raw) || fresh(raw))
      ensures Raw() == old(Raw()) + d
      ensures var needed := old(rawLen) + |d|;
              if needed <= old(raw.Length) then raw == old(raw) else raw.Length == (if needed < 65536 then 65536 else needed)
    {
      if raw.Length < rawLen + |d| {
        var newSize := rawLen + |d|;
        if newSize < 65536 {
          newSize := 65536;
        }
        Reallocate(newSize);
      }
      ghost var before, into := Raw(), raw;
      var i := 0;
      while i < |d|
        invariant 0 <= i <= |d| && rawLen + |d| <= raw.Length
        invariant rawLen == old(rawLen) && raw == into
        invariant raw[..rawLen + i] == before + d[..i]
      {
        raw[rawLen + i] := d[i];
        i := i + 1;
      }
      rawLen := rawLen + |d|;
      assert d[..|d|] == d;
    }

    method Reallocate(size: nat)
      requires Valid() && rawLen <= size
      modifies this`raw
      ensures Valid() && fresh(raw) && raw.Length == size && Raw() == old(Raw())
    {
      var buf := new byte[size];
      var i := 0;
      while i < rawLen
        invariant 0 <= i <= rawLen <= raw.Length && raw == old(raw) && rawLen == old(rawLen)
        invariant buf[..i] == raw[..i] && raw[..] == old(raw[..])
      {
        buf[i] := raw[i];
        i := i + 1;
      }
      raw := buf;
    }

    /** Takes the complete frame at the front out of `rawBuffer`. */
    method DropFrame()
      requires Valid() && HasFrame(Raw())
      modifies this`rawLen, raw
      ensures Valid() && Raw() == Rest(old(Raw()))
    {
      var end := 3 + FromBe16(raw[1], raw[2]) as int;
      var remaining := rawLen - end;
      if remaining > 0 {
        MovedPrefix(raw[..], 0, end, remaining, rawLen);
        MoveDown(raw, 0, end, remaining);
      }
      rawLen := remaining;
    }

    /** `handleWindowUpdateFrame`. */
    method HandleWindowUpdate(payload: seq<byte>) returns (ok: bool)
      requires Valid()
      modifies this`windowSize, this`window
      ensures Valid() && (ok <==> |payload| == 4)
      ensures window == old(window) + (if ok then FromBe32(payload) else 0)
    {
      if |payload| != 4 {
        return false;
      }
      WrapTwice(window, FromBe32(payload));
      windowSize := Wrap32(windowSize + FromBe32(payload));
      window := window + FromBe32(payload);
      return true;
    }

    /** The scan of `processIncomingFrames`: removes the WINDOW_UPDATE frames in place. */
    method FilterRaw() returns (fault: Option<Fault>)
      requires Valid()
      modifies this`rawLen, this`windowSize, this`window, raw
      ensures Valid() && fault == Filter(old(Raw())).fault
      ensures Raw() == Compacted(old(Raw()))
      ensures window == old(window) + Filter(old(Raw())).credit
    {
      ghost var b := Raw();
      ghost var kept, credit: nat := [], 0;
      var readIdx: nat, writeIdx: nat := 0, 0;
      assert b[0..] == b && [] + Filter(b).kept == Filter(b).kept;
      var more := true;
      while more && readIdx < rawLen
        invariant Scanning(b, readIdx, writeIdx, kept, credit)
        invariant window == old(window) + credit && (!more ==> !HasFrame(b[readIdx..]))
        decreases more, |b| - readIdx
      {
        more, fault, readIdx, writeIdx, kept, credit := ScanNext(readIdx, writeIdx, kept, b, credit);
        if fault.Some? {
          return;
        }
      }
      CleanScan(b, readIdx, kept, credit);
      KeepTail(readIdx, writeIdx, kept, b);
      fault := None;
    }

    /** One round of that loop: stops in front of an incomplete frame. */
    method ScanNext(readIdx: nat, writeIdx: nat, ghost kept: seq<byte>, ghost b: seq<byte>, ghost credit: nat)
      returns (more: bool, fault: Option<Fault>, nextRead: nat, nextWrite: nat,
               ghost nextKept: seq<byte>, ghost nextCredit: nat)
      requires Scanning(b, readIdx, writeIdx, kept, credit) && readIdx < rawLen
      modifies this`windowSize, this`window, raw
      ensures Valid() && window == old(window) + nextCredit - credit
      ensures fault.None? ==>
                && Scanning(b, nextRead, nextWrite, nextKept, nextCredit)
                && (if more then nextRead > readIdx else !HasFrame(b[nextRead..]))
      ensures fault.Some? ==> Raw() == Compacted(b) && Filter(b).fault == fault && Filter(b).credit == nextCredit
    {
      more, fault, nextRead, nextWrite, nextKept, nextCredit := false, None, readIdx, writeIdx, kept, credit;
      if rawLen - readIdx < 3 {
        return;
      }
      FrameAt(kept, b, readIdx, Raw());
      var frameEnd := readIdx + 3 + FromBe16(raw[readIdx + 1], raw[readIdx + 2]) as int;
      if frameEnd > rawLen {
        return;
      }
      nextWrite, fault, nextKept, nextCredit := ScanFrame(readIdx, writeIdx, frameEnd, kept, b, credit);
      more, nextRead := true, frameEnd;
    }

    /** The loop of the scan: `b` is the buffer it started with, `kept` what it has kept so far
        and `credit` the increments it has handed over. */
    ghost predicate Scanning(b: seq<byte>, readIdx: nat, writeIdx: nat, kept: seq<byte>, credit: nat)
      reads this, raw
    {
      && Valid() && |kept| == writeIdx <= readIdx <= rawLen == |b|
      && Raw() == kept + b[writeIdx..]
      && ScanState(b, readIdx, kept, credit)
    }

    /** What the scan does with the complete frame `rawBuffer[readIdx:frameEnd]`. */
    method ScanFrame(readIdx: nat, writeIdx: nat, frameEnd: nat,
                     ghost kept: seq<byte>, ghost b: seq<byte>, ghost credit: nat)
      returns (nextWrite: nat, fault: Option<Fault>, ghost nextKept: seq<byte>, ghost nextCredit: nat)
      requires Scanning(b, readIdx, writeIdx, kept, credit)
      requires HasFrame(b[readIdx..]) && frameEnd == readIdx + FrameSize(b[readIdx..])
      modifies this`windowSize, this`window, raw
      ensures Valid() && window == old(window) + nextCredit - credit
      ensures fault.None? ==> Scanning(b, frameEnd, nextWrite, nextKept, nextCredit)
      ensures fault.Some? ==> Raw() == Compacted(b) && Filter(b).fault == fault && Filter(b).credit == nextCredit
    {
      nextWrite, nextKept, nextCredit, fault := writeIdx, kept, credit, None;
      FrameAt(kept, b, readIdx, Raw());
      var frameType := raw[readIdx];
      if frameType == WINDOW_UPDATE {
        var ok := UpdateAt(readIdx + 3, frameEnd);
        if !ok {
          FaultyScan(b, readIdx, kept, credit);
          fault := Some(BadUpdate);
        } else {
          ScanUpdate(b, readIdx, frameEnd, kept, credit);
          nextCredit := credit + Increment(Head(b[readIdx..]));
        }
      } else if frameType == DATA || frameType == HEADERS {
        ScanKept(b, readIdx, frameEnd, kept, credit);
        KeepFrame(readIdx, writeIdx, frameEnd, kept, b);
        nextKept := kept + b[readIdx..frameEnd];
        nextWrite := writeIdx + (frameEnd - readIdx);
      } else {
        FaultyScan(b, readIdx, kept, credit);
        fault := Some(UnknownType);
      }
    }

    /** Moves what the scan has not read behind the kept frames, and cuts the buffer there. */
    method KeepTail(readIdx: nat, writeIdx: nat, ghost kept: seq<byte>, ghost b: seq<byte>)
      requires Valid() && |kept| == writeIdx <= readIdx <= rawLen == |b|
      requires Raw() == kept + b[writeIdx..]
      modifies this`rawLen, raw
      ensures Valid() && Raw() == kept + b[readIdx..]
    {
      var end := writeIdx;
      if readIdx < rawLen {
        KeepFrame(readIdx, writeIdx, rawLen, kept, b);
        end := writeIdx + (rawLen - readIdx);
      }
      assert b[readIdx..rawLen] == b[readIdx..];
      PrefixOfAppend(kept + b[readIdx..], b[end..]);
      assert raw[..end] == Raw()[..end];
      rawLen := end;
    }

    /** Hands the payload `rawBuffer[start:end]` to `handleWindowUpdateFrame`. */
    method UpdateAt(start: nat, end: nat) returns (ok: bool)
      requires Valid() && start <= end <= rawLen
      modifies this`windowSize, this`window
      ensures Valid() && (ok <==> end - start == 4)
      ensures window == old(window) + (if ok then FromBe32(Raw()[start..end]) else 0)
    {
      var payload := raw[start..end];
      assert payload == raw[..rawLen][start..end];
      ok := HandleWindowUpdate(payload);
    }

    /** Moves `raw[readIdx..end]` down to `writeIdx`, when that is a different place. */
    method KeepFrame(readIdx: nat, writeIdx: nat, end: nat, ghost kept: seq<byte>, ghost b: seq<byte>)
      requires Valid() && |kept| == writeIdx <= readIdx <= end <= rawLen == |b|
      requires Raw() == kept + b[writeIdx..]
      modifies raw
      ensures writeIdx + (end - readIdx) <= rawLen
      ensures Raw() == (kept + b[readIdx..end]) + b[writeIdx + (end - readIdx)..]
    {
      MovedKept(kept, b, readIdx, end);
      if writeIdx != readIdx {
        ghost var all := raw[..];
        MoveDown(raw, writeIdx, readIdx, end - readIdx);
        MovedPrefix(all, writeIdx, readIdx, end - readIdx, rawLen);
        assert raw[..rawLen] == raw[..][..rawLen] && all[..rawLen] == old(Raw());
      }
    }

    /** `processIncomingFrames`: reads once from the connection and filters.  `k` is the number
        of bytes taken off the connection. */
    method ProcessIncomingFrames() returns (out: PollOutcome, ghost k: nat)
      requires Valid()
      modifies this`raw, this`rawLen, this`windowSize, this`window, raw
      modifies conn`incoming, conn`ended, conn`dropped, conn`answers
      ensures Valid() && (raw == old(raw) || fresh(raw))
      ensures conn.Later()
      ensures |conn.answers| == |old(conn.answers)| + 1
      ensures k > 0 && !out.PollFault? ==> raw.Length <= 65536 || raw.Length / 4 <= rawLen
      ensures k <= 4096 && k <= |old(conn.Coming())| && Receiving() == Poll(old(Receiving()), k)
      ensures var r := conn.answers[|old(conn.answers)|];
              && k == Taken(r)
              && out == PollOf(r, if k == 0 then None else Filter(old(Raw()) + old(conn.Coming())[..k]).fault)
    {
      hide Compacted, Raw;
      k := 0;
      var r := conn.Receive(4096);
      match r
      case Timeout => out := Polled;
      case Failed => out := PollFailed;
      case Last(_, timeout) =>
        // the bytes that came with the error are not looked at
        out := if timeout then Polled else PollFailed;
      case Read(tmp) =>
        k := |tmp|;
        assert tmp == old(conn.Coming())[..k];
        Append(tmp);
        var fault := FilterRaw();
        out := if fault.Some? then PollFault(fault.value) else Polled;
        if raw.Length > 65536 && rawLen < raw.Length / 4 {
          Reallocate(rawLen * 2);
        }
    }

    /** `Read`: returns the payload of the next DATA frame, or its first bytes with the rest kept
        in `readBuffer`. */
    method Read(p: array<byte>) returns (n: nat, out: ReadOutcome, ghost skipped: nat)
      requires Valid() && p != raw
      modifies this`raw, this`rawLen, this`readBuffer, this`windowSize, this`window, raw, conn, p
      ensures Valid() && (raw == old(raw) || fresh(raw)) && n <= p.Length
      ensures conn.Later()
      ensures old(closed) ==>
                out.Closed? && n == 0 && Receiving() == old(Receiving()) && conn.outgoing == old(conn.outgoing)
                && readBuffer == old(readBuffer) && conn.Answered() == []
      ensures !old(closed) && old(readBuffer) != [] ==>
                && out.Received? && n == Min(p.Length, |old(readBuffer)|)
                && p[..n] + readBuffer == old(readBuffer)
                && Receiving() == old(Receiving()) && conn.outgoing == old(conn.outgoing) && conn.Answered() == []
      ensures !old(closed) && old(readBuffer) == [] ==>
                && ReadEffect(old(Pending(Receiving())), Pending(Receiving()), skipped, p.Length, out, p[..n], readBuffer)
                && window == old(window) + Skip(old(Pending(Receiving())), skipped).value.credit
                && UpdateEffect(old(conn.outgoing), conn.outgoing, old(Pending(Receiving())), skipped, out)
                && Asked(old(Raw()), conn.Answered(), out.ConnFailed?) && (out.ConnFailed? ==> !HasFrame(Raw()))
      ensures conn.refused == old(conn.refused) + (if out.UpdateNotSent? then 1 else 0)
    {
      if closed {
        return 0, Closed, 0;
      }
      if |readBuffer| > 0 {
        n := TakeBuffered(p);
        return n, Received, 0;
      }
      n, out, skipped := ReadNext(p);
    }

    /** `Read` with an empty `readBuffer`: finds the next DATA frame and takes it. */
    method ReadNext(p: array<byte>) returns (n: nat, out: ReadOutcome, ghost skipped: nat)
      requires Valid() && p != raw && readBuffer == []
      modifies this`raw, this`rawLen, this`readBuffer, this`windowSize, this`window, raw, conn, p
      ensures Valid() && (raw == old(raw) || fresh(raw)) && n <= p.Length
      ensures conn.Later()
      ensures ReadEffect(old(Pending(Receiving())), Pending(Receiving()), skipped, p.Length, out, p[..n], readBuffer)
      ensures window == old(window) + Skip(old(Pending(Receiving())), skipped).value.credit
      ensures UpdateEffect(old(conn.outgoing), conn.outgoing, old(Pending(Receiving())), skipped, out)
      ensures Asked(old(Raw()), conn.Answered(), out.ConnFailed?) && (out.ConnFailed? ==> !HasFrame(Raw()))
      ensures conn.refused == old(conn.refused) + (if out.UpdateNotSent? then 1 else 0)
    {
      hide Asked, Skip, ReadEffect, UpdateEffect, UpdateFrame;
      n := 0;
      ghost var b := Pending(Receiving());
      var failure;
      failure, skipped := Advance();
      if failure.Some? {
        NothingReturned(b, skipped, p.Length, failure.value, Raw(), conn.Coming(), conn.outgoing);
        return 0, failure.value, skipped;
      }
      ghost var raw0, outgoing := Raw(), conn.outgoing;
      n, out := TakeData(p);
      DataReturned(b, skipped, p.Length, out, raw0, conn.Coming(), p[..n], readBuffer, outgoing, conn.outgoing);
    }

    /** The loop of `Read` up to a DATA frame in front.  Its wait for a full `rawBuffer` is never
        reached: with no complete frame in front, the buffer is far below its limit. */
    method Advance() returns (failure: Option<ReadOutcome>, ghost skipped: nat)
      requires Valid()
      modifies this`raw, this`rawLen, this`windowSize, this`window, raw,
               conn`incoming, conn`ended, conn`dropped, conn`answers
      ensures Valid() && (raw == old(raw) || fresh(raw))
      ensures conn.Later()
      ensures Skipping(old(Pending(Receiving())), skipped, old(window)) && Arrived(failure)
      ensures Asked(old(Raw()), conn.Answered(), failure == Some(ConnFailed))
    {
      hide Receiving, Skipping, Taking, Arrived, AskedFor, AllRead, Asked, Pending, BytesOf;
      skipped, failure := 0, None;
      ghost var b, c, w := Pending(Receiving()), Raw(), window;
      ghost var asked: seq<ReadResult> := [];
      var done := false;
      NothingAsked(c);
      NothingTaken(c, w);
      while !done
        invariant Valid() && (raw == old(raw) || fresh(raw)) && Skipping(b, skipped, w)
        invariant conn.Later() && conn.Answered() == asked
        invariant AskedFor(c, asked) && Taking(c, asked, skipped, w)
        invariant done ==> Arrived(failure) && (failure == Some(ConnFailed) <==> !AllRead(asked))
        invariant !done ==> AllRead(asked)
        decreases if done then 0 else 1, |Pending(Receiving())|, |conn.Coming()|
      {
        ghost var before := conn.answers;
        done, failure, skipped := Round(b, c, asked, skipped, w);
        asked := asked + conn.answers[|before|..];
      }
      ArrivedReady(c, asked, skipped, failure, w);
    }

    /** How the loop ends: with a DATA frame in front, with a failure of the connection while there is
        no frame, or with a frame that is bad where it stands. */
    ghost predicate Arrived(failure: Option<ReadOutcome>)
      reads this, raw, conn
      requires Valid()
    {
      match failure
      case None => HasFrame(Raw()) && raw[0] == DATA
      case Some(out) =>
        var m := Pending(Receiving());
        || (out.ConnFailed? && !HasFrame(Raw()))
        || (&& out.BadFrame? && HasFrame(Raw()) && HasFrame(m) && m[0] != DATA && !Skippable(m)
            && out.fault == (if m[0] == WINDOW_UPDATE then BadUpdate else UnknownType))
    }

    /** The loop of `Read`: of `b` and what the connection has answered so far, `skipped` frames have been
        taken. */
    ghost predicate Taking(b: seq<byte>, answers: seq<ReadResult>, skipped: nat, w: nat)
      reads this, raw
      requires Valid()
    {
      w <= window && Skip(b + BytesOf(answers), skipped) == Some(Skipped(Raw(), window - w))
    }

    lemma NothingTaken(b: seq<byte>, w: nat)
      requires Valid() && b == Raw() && w == window
      ensures Taking(b, [], 0, w) && AllRead([]) && Skipping(Pending(Receiving()), 0, w)
    {
      AppendNothing(b);
    }

    lemma ArrivedReady(b: seq<byte>, answers: seq<ReadResult>, skipped: nat, failure: Option<ReadOutcome>, w: nat)
      requires Valid() && Taking(b, answers, skipped, w) && Arrived(failure) && AskedFor(b, answers)
      requires failure == Some(ConnFailed) <==> !AllRead(answers)
      ensures Asked(b, answers, failure == Some(ConnFailed))
    {
      hide AskedFor, AllRead;
      SkipReady(b + BytesOf(answers), skipped);
      if HasFrame(Raw()) {
        HeadOfLonger(Raw(), conn.Coming());
      }
    }

    /** One round of that loop. */
    method Round(ghost b: seq<byte>, ghost c: seq<byte>, ghost asked: seq<ReadResult>, ghost skipped: nat, ghost w: nat)
      returns (done: bool, failure: Option<ReadOutcome>, ghost more: nat)
      requires Valid() && Skipping(b, skipped, w) && Taking(c, asked, skipped, w) && AskedFor(c, asked) && AllRead(asked)
      modifies this`raw, this`rawLen, this`windowSize, this`window, raw,
               conn`incoming, conn`ended, conn`dropped, conn`answers
      ensures Valid() && (raw == old(raw) || fresh(raw)) && Skipping(b, more, w)
      ensures conn.Later()
      ensures AskedFor(c, asked + conn.Answered()) && Taking(c, asked + conn.Answered(), more, w)
      ensures done ==> Arrived(failure) && (failure == Some(ConnFailed) <==> !AllRead(asked + conn.Answered()))
      ensures !done ==> AllRead(asked + conn.Answered())
      ensures !done ==> || |Pending(Receiving())| < |old(Pending(Receiving()))|
                        || (Pending(Receiving()) == old(Pending(Receiving())) && |conn.Coming()| < |old(conn.Coming())|)
    {
      hide BytesOf, Receiving, AskedFor, AllRead, Skip, Taking;
      failure, more := None, skipped;
      if rawLen >= 3 && rawLen >= 3 + FromBe16(raw[1], raw[2]) as int {
        AppendNothing(asked);
        done, failure, more := AtHand(b, c, asked, skipped, w);
        assert conn.Answered() == [];
        return;
      }
      assert rawLen < MAX_RAW_BUFFER_SIZE;
      var ok := FetchMore(c, asked, skipped, w);
      done := !ok;
      if done {
        failure := Some(ConnFailed);
      }
    }

    /** With a whole frame in front it does not ask: it takes the frame, skips it, or fails. */
    method AtHand(ghost b: seq<byte>, ghost c: seq<byte>, ghost asked: seq<ReadResult>, ghost skipped: nat, ghost w: nat)
      returns (done: bool, failure: Option<ReadOutcome>, ghost more: nat)
      requires Valid() && Skipping(b, skipped, w) && Taking(c, asked, skipped, w) && HasFrame(Raw())
      modifies this`raw, this`rawLen, this`windowSize, this`window, raw
      ensures Valid() && (raw == old(raw) || fresh(raw)) && Skipping(b, more, w) && Taking(c, asked, more, w)
      ensures done ==> Arrived(failure) && failure != Some(ConnFailed)
      ensures !done ==> |Pending(Receiving())| < |old(Pending(Receiving()))|
    {
      hide BytesOf, Receiving, Skip;
      failure, more := None, skipped;
      if raw[0] == DATA {
        return true, None, skipped;
      }
      var fault := SkipFrame(b, skipped, w);
      if fault.Some? {
        return true, Some(BadFrame(fault.value)), skipped;
      }
      SkipOneMore(c + BytesOf(asked), skipped);
      return false, None, skipped + 1;
    }

    /** Its other half: with no whole frame in front, it has to ask. */
    method FetchMore(ghost c: seq<byte>, ghost asked: seq<ReadResult>, ghost skipped: nat, ghost w: nat)
      returns (ok: bool)
      requires Valid() && Taking(c, asked, skipped, w) && AskedFor(c, asked) && AllRead(asked) && !HasFrame(Raw())
      modifies this`raw, this`rawLen, raw, conn`incoming, conn`ended, conn`dropped, conn`answers
      ensures Valid() && (raw == old(raw) || fresh(raw)) && Pending(Receiving()) == old(Pending(Receiving()))
      ensures conn.Later()
      ensures AskedFor(c, asked + conn.Answered()) && Taking(c, asked + conn.Answered(), skipped, w)
      ensures ok == AllRead(asked + conn.Answered()) && (ok ==> |conn.Coming()| < |old(conn.Coming())|)
      ensures !ok ==> Raw() == old(Raw())
    {
      hide Ready, Skip, AskedFor, AllRead, BytesOf, HasFrame, Pending;
      NotReady(c + BytesOf(asked), skipped);
      ok := Fetch();
      ghost var r := conn.Answered()[0];
      assert conn.Answered() == [r];
      AskMore(c, asked, r);
      AnswerTaken(c, asked, skipped, r);
    }

    /** One read from the connection into `rawBuffer`. */
    method Fetch() returns (ok: bool)
      requires Valid()
      modifies this`raw, this`rawLen, raw, conn`incoming, conn`ended, conn`dropped, conn`answers
      ensures Valid() && (raw == old(raw) || fresh(raw)) && Pending(Receiving()) == old(Pending(Receiving()))
      ensures conn.Later()
      ensures |conn.Answered()| == 1 && ok == conn.Answered()[0].Read? && Taken(conn.Answered()[0]) <= 65536
      ensures Raw() == old(Raw()) + (if ok then conn.Answered()[0].bytes else [])
      ensures ok ==> |conn.Coming()| < |old(conn.Coming())|
    {
      var r := conn.Receive(65536);
      if r.Read? {
        Assoc(Raw(), r.bytes, conn.incoming);
        Append(r.bytes);
      } else {
        AppendNothing(Raw());
      }
      ok := r.Read?;
    }

    /** The loop of `Read`: `b` was pending, with window `w`, before `skipped` frames were taken. */
    ghost predicate Skipping(b: seq<byte>, skipped: nat, w: nat)
      reads this, raw, conn
      requires Valid()
    {
      w <= window && Skip(b, skipped) == Some(Skipped(Pending(Receiving()), window - w))
    }

    /** The HEADERS, WINDOW_UPDATE and unknown branches of `Read`. */
    method SkipFrame(ghost b: seq<byte>, ghost skipped: nat, ghost w: nat) returns (fault: Option<Fault>)
      requires Valid() && Skipping(b, skipped, w) && HasFrame(Raw()) && raw[0] != DATA
      modifies this`rawLen, this`windowSize, this`window, raw
      ensures Valid()
      ensures fault.None? ==> Skipping(b, skipped + 1, w) && |Pending(Receiving())| < |old(Pending(Receiving()))|
      ensures fault.None? ==>
                && Skippable(old(Raw())) && Raw() == Rest(old(Raw()))
                && window == old(window) + Increment(Head(old(Raw())))
      ensures fault.Some? ==> Raw() == old(Raw()) && window == old(window)
      ensures fault.Some? ==>
                && Skipping(b, skipped, w)
                && var m := Pending(Receiving());
                   HasFrame(m) && m[0] != DATA && !Skippable(m)
                   && fault.value == (if m[0] == WINDOW_UPDATE then BadUpdate else UnknownType)
    {
      hide Skip;
      HeadOfLonger(Raw(), conn.Coming());
      var frameType := raw[0];
      if frameType == WINDOW_UPDATE {
        var payload := FrontPayload();
        var ok := HandleWindowUpdate(payload);
        if !ok {
          return Some(BadUpdate);
        }
      } else if frameType != HEADERS {
        return Some(UnknownType);
      }
      SkipOneMore(b, skipped);
      DropFrame();
      fault := None;
    }

    /** `rawBuffer[3 : 3+length]`. */
    method FrontPayload() returns (payload: seq<byte>)
      requires Valid() && HasFrame(Raw())
      ensures payload == Head(Raw()).payload
    {
      var end := 3 + FromBe16(raw[1], raw[2]) as int;
      payload := raw[3..end];
      SliceOfPrefix(raw[..], rawLen, 3, end);
    }

    /** Copies from `readBuffer` to the caller. */
    method TakeBuffered(p: array<byte>) returns (n: nat)
      modifies this`readBuffer, p
      ensures n == Min(p.Length, |old(readBuffer)|)
      ensures p[..n] + readBuffer == old(readBuffer)
    {
      n := Min(p.Length, |readBuffer|);
      CopyOut(p, readBuffer[..n]);
      readBuffer := readBuffer[n..];
    }

    /** The DATA branch of `Read`: a payload that fits goes straight to the caller, a longer one
        through `readBuffer`; the frame's length goes back to the peer as credit. */
    method TakeData(p: array<byte>) returns (n: nat, out: ReadOutcome)
      requires Valid() && p != raw && readBuffer == [] && HasFrame(Raw()) && Raw()[0] == DATA
      modifies this`rawLen, this`readBuffer, raw, conn`outgoing, conn`refused, p
      ensures Valid() && n <= p.Length && Raw() == Rest(old(Raw()))
      ensures out.Received? || out.UpdateNotSent?
      ensures conn.refused == old(conn.refused) + (if out.UpdateNotSent? then 1 else 0)
      ensures var payload := old(Head(Raw()).payload);
              if out.Received? then
                && p[..n] + readBuffer == payload && n == Min(|payload|, p.Length)
                && conn.outgoing == old(conn.outgoing) + UpdateFrame(|payload|)
              else
                && n == 0 && readBuffer == (if |payload| <= p.Length then [] else payload)
                && exists s :: s <= UpdateFrame(|payload|) && conn.outgoing == old(conn.outgoing) + s
    {
      var length := FromBe16(raw[1], raw[2]);
      var payload := FrontPayload();
      var direct := |payload| <= p.Length;
      if direct {
        CopyOut(p, payload);
        n := |payload|;
        AppendNothing(payload);
      } else {
        readBuffer := readBuffer + payload;
      }
      DropFrame();
      var frame := CreateWindowUpdateFrame(length);
      ghost var outgoing := conn.outgoing;
      var ok := conn.Send(frame);
      if !ok {
        PartOf(outgoing, frame, conn.outgoing);
        return 0, UpdateNotSent;
      }
      if !direct {
        n := TakeBuffered(p);
      }
      out := Received;
    }

    /** `sentBytes.Add(n)`. */
    method CountSent(n: nat)
      requires Valid()
      modifies this`sentBytes, this`charged
      ensures Valid() && charged == old(charged) + n
    {
      WrapTwice(charged, n);
      sentBytes := Wrap32(sentBytes + n);
      charged := charged + n;
    }

    /** The write whose trace is `t` has come this far, having counted `used` bytes. */
    ghost predicate On(t: Trace, used: nat)
      reads this, raw, conn
      requires Valid()
    {
      Polling(t) && charged == t.charged + used
    }

    /** All it has asked its connection since it began are the polls of its trace. */
    ghost predicate Polling(t: Trace)
      reads this, raw, conn
      requires Valid()
    {
      && Followed(t) && Receiving() == Polls(t.rx, t.ks)
      && OnRecord(conn.answers, asked, t.ks)
    }

    /** `waitForWindow`; the timeout allows `patience` polls. */
    method WaitForWindow(needed: nat, patience: nat, ghost t: Trace, ghost used: nat) returns (ok: bool, ghost t': Trace)
      requires Valid() && On(t, used) && Prompt(t)
      modifies this`raw, this`rawLen, this`windowSize, this`window, raw,
               conn`incoming, conn`ended, conn`dropped, conn`answers
      ensures Valid() && (raw == old(raw) || fresh(raw)) && On(t', used) && Continues(t, t')
      ensures conn.Later()
      ensures t'.checks == t.checks + (if ok then [Check(used, needed)] else [])
      ensures if ok then Prompt(t') else Waited(t', Check(used, needed), patience)
    {
      hide Polls, Admits, Followed, InVain, Start;
      t' := t;
      assert t.checks + [] == t.checks;
      var polls := 0;
      WaitBegins(t, Check(used, needed));
      while true
        invariant Valid() && (raw == old(raw) || fresh(raw)) && polls <= patience && conn.Later()
        invariant On(t', used) && Continues(t, t') && t'.checks == t.checks && |t'.ks| == |t.ks| + polls
        invariant t'.ats == t.ats && Start(t', |t'.ats|) == Start(t, |t.ats|) <= |t'.ks|
        invariant InVain(t', Start(t', |t'.ats|), |t'.ks|, Check(used, needed))
        decreases patience - polls
      {
        ok := WindowAdmits(needed);
        assert ok == AdmittedAt(t', |t'.ks|, Check(used, needed)) by { assert t'.ks[..|t'.ks|] == t'.ks; }
        if ok {
          FollowedCheck(t', Check(used, needed));
          t' := Then(t', Check(used, needed));
          return true, t';
        }
        if polls == patience {
          return false, t';
        }
        ghost var before := t';
        t' := PollAgain(t', used);
        StillInVain(before, t', Check(used, needed));
        polls := polls + 1;
      }
    }

    /** `needed <= window - sent`, in 32-bit words. */
    method WindowAdmits(needed: nat) returns (ok: bool)
      requires Valid()
      ensures ok <==> Admits(window, charged, needed)
    {
      WordsDiffer(window, charged);
      ok := Wrap32(needed) <= Wrap32(windowSize - sentBytes);
    }

    /** One poll inside a write; its error is ignored. */
    method PollAgain(ghost t: Trace, ghost used: nat) returns (ghost t': Trace)
      requires Valid() && On(t, used)
      modifies this`raw, this`rawLen, this`windowSize, this`window, raw
      modifies conn`incoming, conn`ended, conn`dropped, conn`answers
      ensures Valid() && (raw == old(raw) || fresh(raw)) && On(t', used) && Continues(t, t')
      ensures conn.Later()
      ensures t'.checks == t.checks && t'.ats == t.ats && |t'.ks| == |t.ks| + 1
    {
      hide OnRecord, Polls, Poll, Followed;
      ghost var k, answers := 0, conn.answers;
      var out;
      out, k := ProcessIncomingFrames();
      OneMoreOnRecord(answers, conn.answers, asked, t.ks, k);
      PollsOneMore(t.rx, t.ks, k);
      FollowedPolls(t, [k]);
      t' := t.(ks := t.ks + [k]);
    }

    /** `writeDataFrameZeroCopy`; `j` DATA frames, `sent`, have gone out when it gives up waiting. */
    method WriteDataFrames(data: seq<byte>, patience: nat, ghost t: Trace, ghost used: nat)
      returns (out: WriteOutcome, ghost t': Trace, ghost j: nat, ghost sent: seq<byte>)
      requires Valid() && On(t, used) && Prompt(t)
      modifies this`raw, this`rawLen, this`windowSize, this`window, this`sentBytes, this`charged, raw, conn
      ensures Valid() && (raw == old(raw) || fresh(raw)) && Continues(t, t')
      ensures conn.Later()
      ensures Polling(t')
      ensures out == Written || out == WindowTimeout || out == SendFailed
      ensures conn.refused == old(conn.refused) + (if out == SendFailed then 1 else 0)
      ensures out == Written ==>
                && conn.outgoing == old(conn.outgoing) + Serialise(DataFrames(data, ZERO_COPY_CHUNK))
                && t'.checks == t.checks + ChunkChecks(used, |data|) && On(t', used + |data|) && Prompt(t')
      ensures out == WindowTimeout ==>
                && conn.outgoing == old(conn.outgoing) + sent && On(t', used + |Data(Front(data, j))|)
                && GaveUp(data, j, used, t.checks, sent, t', patience)
      ensures out == SendFailed ==>
                exists s :: s <= Serialise(DataFrames(data, ZERO_COPY_CHUNK)) && conn.outgoing == old(conn.outgoing) + s
    {
      hide Admits, Receiving, Encode, SoFar, Wrap32, Front, Polling, Polls, Valid;
      ghost var start := conn.outgoing;
      t', j, sent := t, 0, [];
      var offset := 0;
      SoFarStarts(data, used, t);
      AppendNothing(start);
      while offset < |data|
        invariant Valid() && (raw == old(raw) || fresh(raw)) && 0 <= offset <= |data| && conn.Later()
        invariant On(t', used + offset) && Prompt(t') && Continues(t, t') && conn.outgoing == start + sent
        invariant conn.refused == old(conn.refused)
        invariant SoFar(data, offset, j, used, t.checks, sent, t')
      {
        var chunkSize;
        chunkSize, out, t' := WriteNext(data, offset, patience, start, j, sent, t.checks, t', used);
        if out != Written {
          return;
        }
        sent := sent + ChunkFrame(data, offset);
        offset, j := offset + chunkSize, j + 1;
      }
      SoFarEnds(data, j, used, t.checks, sent, t');
      out := Written;
    }

    /** One pass of its loop, as part of the whole. */
    method WriteNext(data: seq<byte>, offset: nat, patience: nat, ghost start: seq<byte>, ghost j: nat,
                     ghost sent: seq<byte>, ghost earlier: seq<Check>, ghost t: Trace, ghost used: nat)
      returns (chunkSize: nat, out: WriteOutcome, ghost t': Trace)
      requires Valid() && offset < |data| && On(t, used + offset) && Prompt(t) && conn.outgoing == start + sent
      requires SoFar(data, offset, j, used, earlier, sent, t)
      modifies this`raw, this`rawLen, this`windowSize, this`window, this`sentBytes, this`charged, raw, conn
      ensures Valid() && (raw == old(raw) || fresh(raw)) && Continues(t, t')
      ensures conn.Later()
      ensures Polling(t')
      ensures chunkSize == Min(|data| - offset, ZERO_COPY_CHUNK)
      ensures out == Written || out == WindowTimeout || out == SendFailed
      ensures conn.refused == old(conn.refused) + (if out == SendFailed then 1 else 0)
      ensures out == Written ==>
                && conn.outgoing == start + (sent + ChunkFrame(data, offset))
                && On(t', used + offset + chunkSize) && Prompt(t')
                && SoFar(data, offset + chunkSize, j + 1, used, earlier, sent + ChunkFrame(data, offset), t')
      ensures out == WindowTimeout ==>
                && conn.outgoing == start + sent && On(t', used + |Data(Front(data, j))|)
                && GaveUp(data, j, used, earlier, sent, t', patience)
      ensures out == SendFailed ==>
                exists s :: s <= Serialise(DataFrames(data, ZERO_COPY_CHUNK)) && conn.outgoing == start + s
    {
      hide Serialise, DataFrames;
      SoFarLeft(data, offset, j, used, earlier, sent, t);
      ghost var later := Serialise(DataFrames(data[offset + Min(|data| - offset, ZERO_COPY_CHUNK)..], ZERO_COPY_CHUNK));
      chunkSize, out, t' := WriteChunk(data, offset, patience, start, sent, later, t, used);
      if out == Written {
        SoFarMore(data, offset, j, used, earlier, sent, t, t');
      } else if out == WindowTimeout {
        SoFarStops(data, offset, j, used, earlier, sent, t, t', patience);
      }
    }

    /** The pass itself: waits for window, then sends one DATA frame. */
    method WriteChunk(data: seq<byte>, offset: nat, patience: nat, ghost start: seq<byte>, ghost sent: seq<byte>,
                      ghost later: seq<byte>, ghost t: Trace, ghost used: nat)
      returns (chunkSize: nat, out: WriteOutcome, ghost t': Trace)
      requires Valid() && offset < |data| && On(t, used + offset) && Prompt(t) && conn.outgoing == start + sent
      modifies this`raw, this`rawLen, this`windowSize, this`window, this`sentBytes, this`charged, raw, conn
      ensures Valid() && (raw == old(raw) || fresh(raw)) && Continues(t, t')
      ensures conn.Later()
      ensures Polling(t')
      ensures chunkSize == Min(|data| - offset, ZERO_COPY_CHUNK)
      ensures out == Written || out == WindowTimeout || out == SendFailed
      ensures conn.refused == old(conn.refused) + (if out == SendFailed then 1 else 0)
      ensures out == Written ==>
                && conn.outgoing == start + (sent + ChunkFrame(data, offset))
                && t'.checks == t.checks + [Check(used + offset, chunkSize)]
                && On(t', used + offset + chunkSize) && Prompt(t')
      ensures out == WindowTimeout ==>
                && conn.outgoing == old(conn.outgoing) && t'.checks == t.checks && On(t', used + offset)
                && Waited(t', Check(used + offset, chunkSize), patience)
      ensures out == SendFailed ==>
                exists s :: s <= sent + ChunkFrame(data, offset) + later && conn.outgoing == start + s
    {
      hide Polls, Followed, Valid, Waited;
      chunkSize := |data| - offset;
      if chunkSize > ZERO_COPY_CHUNK {
        chunkSize := ZERO_COPY_CHUNK;
      }
      var ok;
      ok, t' := WaitForWindow(chunkSize, patience, t, used + offset);
      if !ok {
        AppendNothing(t.checks);
        return chunkSize, WindowTimeout, t';
      }
      var frame := [DATA, Low(chunkSize / 0x100), Low(chunkSize)] + data[offset..offset + chunkSize];
      ok := SendPiece(frame, start, sent, later, sent + ChunkFrame(data, offset) + later);
      if !ok {
        return chunkSize, SendFailed, t';
      }
      CountSent(chunkSize);
      out := Written;
    }

    /** Sends the next piece of the `all` that is to follow `start` on the wire. */
    method SendPiece(piece: seq<byte>, ghost start: seq<byte>, ghost sent: seq<byte>, ghost later: seq<byte>,
                     ghost all: seq<byte>)
      returns (ok: bool)
      requires conn.outgoing == start + sent && (sent + piece) + later == all
      modifies conn`outgoing, conn`refused
      ensures conn.refused == old(conn.refused) + (if ok then 0 else 1)
      ensures ok ==> conn.outgoing == start + (sent + piece)
      ensures !ok ==> exists s :: s <= all && conn.outgoing == start + s
    {
      ok := conn.Send(piece);
      Assoc(start, sent, piece);
      if !ok {
        Assoc(sent, piece, later);
        SomePrefix(start, sent, piece, later, conn.outgoing, all);
      }
    }

    /** `Write`; `path` is the HEADERS payload the obfuscator makes up, `patience` bounds every
        wait for window, and `t` is the trace of its polls and window checks. */
    method Write(p: seq<byte>, path: seq<byte>, patience: nat)
      returns (n: nat, out: WriteOutcome, ghost t: Trace)
      requires Valid()
      modifies this`raw, this`rawLen, this`windowSize, this`window, this`sentBytes, this`charged,
               this`hasSentHeaders, this`asked, raw, conn
      ensures Valid() && (raw == old(raw) || fresh(raw))
      ensures conn.Later()
      ensures Polling(t) && asked == |old(conn.answers)| && t.begins == (if old(hasSentHeaders) then 1 else 0)
      ensures t.rx == old(Receiving()) && t.charged == old(charged) && (out != Written ==> n == 0)
      ensures old(closed) ==> out == WriteClosed && t.ks == [] && conn.outgoing == old(conn.outgoing)
      ensures !old(closed) ==> out != WriteClosed
      ensures conn.refused == old(conn.refused) + (if out == SendFailed then 1 else 0)
      ensures out == Written ==> n == |p| && HasWritten(old(Sending()), old(conn.outgoing), p, path, t)
      ensures out == WindowTimeout ==> HasStopped(old(Sending()), old(conn.outgoing), p, t, patience)
      ensures out == SendFailed ==>
                exists s :: s <= WireBytes(old(Sending()), p, path) && conn.outgoing == old(conn.outgoing) + s
    {
      hide Polls, Followed, HasWritten, HasStopped, WireBytes, Wrap32;
      asked := |conn.answers|;
      t := Trace(Receiving(), charged, if hasSentHeaders then 1 else 0, [], [], []);
      Begun(t);
      if closed {
        return 0, WriteClosed, t;
      }
      if hasSentHeaders {
        t := PollAgain(t, 0);
      }
      out, t := Dispatch(p, path, patience, t);
      n := if out == Written then |p| else 0;
    }

    lemma Begun(t: Trace)
      requires Valid() && t.rx == Receiving() && t.charged == charged && t.ks == [] && t.ats == [] && t.checks == []
      requires asked == |conn.answers|
      ensures On(t, 0)
    {
    }

    /** The write `t` is complete: every check of its route passed before what it let through was
        sent, and this is what was sent and counted. */
    ghost predicate HasWritten(was: Sender, outgoing: seq<byte>, p: seq<byte>, path: seq<byte>, t: Trace)
      reads this, raw, conn
      requires Valid()
    {
      && On(t, Charge(was, p, path)) && Prompt(t) && t.checks == ChecksOf(was, p)
      && conn.outgoing == outgoing + WireBytes(was, p, path)
      && hasSentHeaders == SentHeadersAfter(was, p)
    }

    /** The write `t` has given up in front of the first check that did not pass in time, with whole
        frames sent. */
    ghost predicate HasStopped(was: Sender, outgoing: seq<byte>, p: seq<byte>, t: Trace, patience: nat)
      reads this, raw, conn
      requires Valid()
    {
      var i := |t.checks|;
      && On(t, PartCharge(was, p, i)) && t.checks < ChecksOf(was, p)
      && Waited(t, ChecksOf(was, p)[i], patience)
      && conn.outgoing == outgoing + PartSent(was, p, i)
      && hasSentHeaders == SentHeadersPart(was, p, i)
    }

    /** The three routes of `Write`. */
    method Dispatch(p: seq<byte>, path: seq<byte>, patience: nat, ghost t: Trace)
      returns (out: WriteOutcome, ghost t': Trace)
      requires Valid() && On(t, 0) && t.checks == [] && Prompt(t)
      modifies this`raw, this`rawLen, this`windowSize, this`window, this`sentBytes, this`charged,
               this`hasSentHeaders, raw, conn
      ensures Valid() && (raw == old(raw) || fresh(raw)) && t'.rx == t.rx && t'.charged == t.charged && t'.begins == t.begins
      ensures conn.Later()
      ensures Polling(t')
      ensures out != WriteClosed
      ensures conn.refused == old(conn.refused) + (if out == SendFailed then 1 else 0)
      ensures out == Written ==> HasWritten(old(Sending()), old(conn.outgoing), p, path, t')
      ensures out == WindowTimeout ==> HasStopped(old(Sending()), old(conn.outgoing), p, t', patience)
      ensures out == SendFailed ==>
                exists s :: s <= WireBytes(old(Sending()), p, path) && conn.outgoing == old(conn.outgoing) + s
    {
      hide Obfuscated, Polls, Wrap32;
      ghost var was, outgoing := Sending(), conn.outgoing;
      AppendNothing(outgoing);
      if streams && |p| > STREAM_WRITE_THRESHOLD {
        StreamRoute(was, p, path);
        out, t' := StreamWrite(p, path, patience, t);
      } else if hasSentHeaders {
        out, t' := WriteLater(p, path, patience, t);
      } else if headersFrame.Some? {
        out, t' := WritePrepared(p, path, patience, t);
      } else {
        FallbackRoute(was, p, path);
        out := WriteFallback(p, path);
        t' := t;
      }
    }

    /** The first zero-copy write, as one of the routes. */
    method WritePrepared(p: seq<byte>, ghost path: seq<byte>, patience: nat, ghost t: Trace)
      returns (out: WriteOutcome, ghost t': Trace)
      requires Valid() && On(t, 0) && t.checks == [] && Prompt(t) && RouteOf(Sending(), p) == FirstZeroCopy
      modifies this`raw, this`rawLen, this`windowSize, this`window, this`sentBytes, this`charged,
               this`hasSentHeaders, raw, conn
      ensures Valid() && (raw == old(raw) || fresh(raw)) && t'.rx == t.rx && t'.charged == t.charged && t'.begins == t.begins
      ensures conn.Later()
      ensures Polling(t')
      ensures out != WriteClosed
      ensures conn.refused == old(conn.refused) + (if out == SendFailed then 1 else 0)
      ensures out == Written ==> HasWritten(old(Sending()), old(conn.outgoing), p, path, t')
      ensures out == WindowTimeout ==> HasStopped(old(Sending()), old(conn.outgoing), p, t', patience)
      ensures out == SendFailed ==>
                exists s :: s <= WireBytes(old(Sending()), p, path) && conn.outgoing == old(conn.outgoing) + s
    {
      hide Polls, FirstChecks, GaveUp, Front, DataFrames;
      ghost var was, outgoing := Sending(), conn.outgoing;
      ghost var begun, j, sent;
      out, t', begun, j, sent := WriteFirst(p, patience, t);
      if out == Written {
        PreparedWritten(was, outgoing, p, path, t');
      } else if out == SendFailed {
        FirstBytes(was, p, path);
      } else if begun {
        PreparedStopped(was, outgoing, p, t', j, sent, patience);
      } else {
        PreparedNotBegun(was, outgoing, p, t', patience);
      }
    }

    lemma PreparedWritten(was: Sender, outgoing: seq<byte>, p: seq<byte>, path: seq<byte>, t: Trace)
      requires Valid() && RouteOf(was, p) == FirstZeroCopy && On(t, |Prepared(was)| + |p|) && Prompt(t)
      requires conn.outgoing == outgoing + (Prepared(was) + Serialise(DataFrames(p, ZERO_COPY_CHUNK)))
      requires t.checks == FirstChecks(|Prepared(was)|, |p|) && hasSentHeaders
      ensures HasWritten(was, outgoing, p, path, t)
    {
      FirstBytes(was, p, path);
      FirstCounts(was, p, path);
      FirstChecked(was, p);
    }

    lemma PreparedStopped(was: Sender, outgoing: seq<byte>, p: seq<byte>, t: Trace, j: nat, sent: seq<byte>, patience: nat)
      requires Valid() && RouteOf(was, p) == FirstZeroCopy && On(t, |Prepared(was)| + |Data(Front(p, j))|)
      requires conn.outgoing == outgoing + (Prepared(was) + sent) && hasSentHeaders
      requires GaveUp(p, j, |Prepared(was)|, [Check(0, |Prepared(was)| + |p|)], sent, t, patience)
      ensures HasStopped(was, outgoing, p, t, patience)
    {
      FirstStopped(was, p, t, j, sent, patience);
    }

    lemma PreparedNotBegun(was: Sender, outgoing: seq<byte>, p: seq<byte>, t: Trace, patience: nat)
      requires Valid() && RouteOf(was, p) == FirstZeroCopy && On(t, 0) && t.checks == []
      requires conn.outgoing == outgoing && hasSentHeaders == was.sentHeaders
      requires Waited(t, Check(0, |Prepared(was)| + |p|), patience)
      ensures HasStopped(was, outgoing, p, t, patience)
    {
      FirstUnbegun(was, p);
      AppendNothing(outgoing);
    }

    /** A later zero-copy write.  It counts its payload a second time. */
    method WriteLater(p: seq<byte>, ghost path: seq<byte>, patience: nat, ghost t: Trace)
      returns (out: WriteOutcome, ghost t': Trace)
      requires Valid() && On(t, 0) && t.checks == [] && Prompt(t) && RouteOf(Sending(), p) == LaterZeroCopy
      modifies this`raw, this`rawLen, this`windowSize, this`window, this`sentBytes, this`charged, raw, conn
      ensures Valid() && (raw == old(raw) || fresh(raw)) && Continues(t, t')
      ensures conn.Later()
      ensures Polling(t')
      ensures out != WriteClosed
      ensures conn.refused == old(conn.refused) + (if out == SendFailed then 1 else 0)
      ensures out == Written ==> HasWritten(old(Sending()), old(conn.outgoing), p, path, t')
      ensures out == WindowTimeout ==> HasStopped(old(Sending()), old(conn.outgoing), p, t', patience)
      ensures out == SendFailed ==>
                exists s :: s <= WireBytes(old(Sending()), p, path) && conn.outgoing == old(conn.outgoing) + s
    {
      hide WireBytes, Charge, ChecksOf, PartSent, PartCharge, SentHeadersAfter, SentHeadersPart, RouteOf,
           DataFrames, Serialise, Front, Data, Waited, Prompt, Followed, ChunkChecks;
      ghost var j, sent;
      LaterRoute(Sending(), p, path);
      AppendNothing(ChunkChecks(0, |p|));
      out, t', j, sent := WriteDataFrames(p, patience, t, 0);
      if out == Written {
        CountSent(|p|);
      } else if out == WindowTimeout {
        AppendNothing(ChunkChecks(0, |p|)[..j]);
      }
    }

    /** The first zero-copy write: the prepared HEADERS frame, then the data. */
    method WriteFirst(p: seq<byte>, patience: nat, ghost t: Trace)
      returns (out: WriteOutcome, ghost t': Trace, ghost begun: bool, ghost j: nat, ghost sent: seq<byte>)
      requires Valid() && headersFrame.Some? && On(t, 0) && t.checks == [] && Prompt(t)
      modifies this`raw, this`rawLen, this`windowSize, this`window, this`sentBytes, this`charged,
               this`hasSentHeaders, raw, conn
      ensures Valid() && (raw == old(raw) || fresh(raw)) && Continues(t, t')
      ensures conn.Later()
      ensures Polling(t')
      ensures out != WriteClosed
      ensures conn.refused == old(conn.refused) + (if out == SendFailed then 1 else 0)
      ensures var h := headersFrame.value;
              out == Written ==>
                && conn.outgoing == old(conn.outgoing) + (h + Serialise(DataFrames(p, ZERO_COPY_CHUNK)))
                && t'.checks == FirstChecks(|h|, |p|) && On(t', |h| + |p|) && Prompt(t') && hasSentHeaders
      ensures var h := headersFrame.value;
              out == WindowTimeout ==>
                if !begun then
                  && conn.outgoing == old(conn.outgoing) && On(t', 0) && hasSentHeaders == old(hasSentHeaders)
                  && t'.checks == [] && Waited(t', Check(0, |h| + |p|), patience)
                else
                  && conn.outgoing == old(conn.outgoing) + (h + sent) && hasSentHeaders && On(t', |h| + |Data(Front(p, j))|)
                  && GaveUp(p, j, |h|, [Check(0, |h| + |p|)], sent, t', patience)
      ensures var wire := headersFrame.value + Serialise(DataFrames(p, ZERO_COPY_CHUNK));
              out == SendFailed ==> exists s :: s <= wire && conn.outgoing == old(conn.outgoing) + s
    {
      hide Polling, Polls, Data, Serialise, Valid, GaveUp, DataFrames;
      ghost var start, headers, data := conn.outgoing, headersFrame.value, Serialise(DataFrames(p, ZERO_COPY_CHUNK));
      out, t' := Begin(true, |headersFrame.value| + |p|, patience, t, data);
      begun, j, sent := out == Written, 0, [];
      if out == Written {
        out, t', j, sent := WriteDataFrames(p, patience, t', |headers|);
        BehindHeaders(start, headers, data, conn.outgoing);
        Assoc(start, headers, sent);
      }
    }

    /** How a write that waits only once begins: with its window check and, if it is the first and a
        HEADERS frame is prepared, that frame. */
    method Begin(sends: bool, needed: nat, patience: nat, ghost t: Trace, ghost data: seq<byte>)
      returns (out: WriteOutcome, ghost t': Trace)
      requires Valid() && (sends ==> headersFrame.Some?) && On(t, 0) && t.checks == [] && Prompt(t)
      modifies this`raw, this`rawLen, this`windowSize, this`window, this`sentBytes, this`charged,
               this`hasSentHeaders, raw, conn
      ensures Valid() && (raw == old(raw) || fresh(raw)) && Continues(t, t') && out != WriteClosed
      ensures conn.refused == old(conn.refused) + (if out == SendFailed then 1 else 0)
      ensures conn.Later()
      ensures Polling(t')
      ensures var prefix := if sends then headersFrame.value else [];
              && (out == Written ==>
                    && conn.outgoing == old(conn.outgoing) + prefix && On(t', |prefix|) && Prompt(t')
                    && t'.checks == [Check(0, needed)]
                    && hasSentHeaders == (old(hasSentHeaders) || sends))
              && (out == WindowTimeout ==>
                    && conn.outgoing == old(conn.outgoing) && On(t', 0) && t'.checks == []
                    && hasSentHeaders == old(hasSentHeaders) && Waited(t', Check(0, needed), patience))
              && (out == SendFailed ==> exists s :: s <= prefix + data && conn.outgoing == old(conn.outgoing) + s)
    {
      hide Polls, Prompt, Waited, Followed;
      AppendNothing(conn.outgoing);
      var ok;
      ok, t' := WaitForWindow(needed, patience, t, 0);
      if !ok {
        return WindowTimeout, t';
      }
      if sends {
        AppendNothing(headersFrame.value);
        ok := SendPiece(headersFrame.value, conn.outgoing, [], data, headersFrame.value + data);
        if !ok {
          return SendFailed, t';
        }
        CountSent(|headersFrame.value|);
        hasSentHeaders := true;
      }
      out := Written;
    }

    /** The first write when no HEADERS frame is prepared. */
    method WriteFallback(p: seq<byte>, path: seq<byte>) returns (out: WriteOutcome)
      requires Valid()
      modifies this`sentBytes, this`charged, this`hasSentHeaders, conn`outgoing, conn`refused
      ensures Valid() && (out == Written || out == SendFailed)
      ensures conn.refused == old(conn.refused) + (if out == SendFailed then 1 else 0)
      ensures if out == Written then
                && conn.outgoing == old(conn.outgoing) + Obfuscated(path, p) && hasSentHeaders
                && charged == old(charged) + |Obfuscated(path, p)|
              else exists s :: s <= Obfuscated(path, p) && conn.outgoing == old(conn.outgoing) + s
    {
      ghost var start := conn.outgoing;
      var obfuscated := Obfuscate(path, p);
      hasSentHeaders := true;
      var ok := conn.Send(obfuscated);
      if !ok {
        PartOf(start, obfuscated, conn.outgoing);
        return SendFailed;
      }
      CountSent(|obfuscated|);
      out := Written;
    }

    /** `streamWrite`. */
    method StreamWrite(p: seq<byte>, path: seq<byte>, patience: nat, ghost t: Trace)
      returns (out: WriteOutcome, ghost t': Trace)
      requires Valid() && On(t, 0) && t.checks == [] && Prompt(t)
      modifies this`raw, this`rawLen, this`windowSize, this`window, this`sentBytes, this`charged,
               this`hasSentHeaders, raw, conn
      ensures Valid() && (raw == old(raw) || fresh(raw)) && Continues(t, t')
      ensures conn.Later()
      ensures Polling(t')
      ensures out != WriteClosed
      ensures conn.refused == old(conn.refused) + (if out == SendFailed then 1 else 0)
      ensures var prefix := if old(hasSentHeaders) then [] else Prepared(old(Sending()));
              && (out == Written ==>
                    && conn.outgoing == old(conn.outgoing) + (prefix + Obfuscated(path, p))
                    && On(t', |prefix| + |p|) && Prompt(t') && t'.checks == [Check(0, |p| + |prefix|)]
                    && hasSentHeaders == (old(hasSentHeaders) || headersFrame.Some?))
              && (out == WindowTimeout ==>
                    && conn.outgoing == old(conn.outgoing) && On(t', 0) && t'.checks == []
                    && hasSentHeaders == old(hasSentHeaders) && Waited(t', Check(0, |p| + |prefix|), patience))
              && (out == SendFailed ==>
                    exists s :: s <= prefix + Obfuscated(path, p) && conn.outgoing == old(conn.outgoing) + s)
    {
      hide Obfuscated, Admits, Polls, InVain, Valid, Followed;
      ghost var start := conn.outgoing;
      var sends := !hasSentHeaders && headersFrame.Some?;
      var prefix := if sends then headersFrame.value else [];
      out, t' := Begin(sends, |p| + |prefix|, patience, t, Obfuscated(path, p));
      if out == Written {
        var written, ok := StreamObfuscate(path, p, conn);
        BehindHeaders(start, prefix, Obfuscated(path, p), conn.outgoing);
        if !ok {
          return SendFailed, t';
        }
        CountSent(written);
      }
    }
  }

  lemma BehindHeaders(start: seq<byte>, headers: seq<byte>, data: seq<byte>, outgoing: seq<byte>)
    ensures outgoing == (start + headers) + data ==> outgoing == start + (headers + data)
    ensures (exists s :: s <= data && outgoing == (start + headers) + s) ==>
              exists s :: s <= headers + data && outgoing == start + s
  {
    Assoc(start, headers, data);
    if s :| s <= data && outgoing == (start + headers) + s {
      assert headers + s <= headers + data;
      Assoc(start, headers, s);
      assert outgoing == start + (headers + s);
    }
  }

  method CopyOut(p: array<byte>, s: seq<byte>)
    requires |s| <= p.Length
    modifies p
    ensures p[..|s|] == s
  {
    var i := 0;
    while i < |s|
      invariant 0 <= i <= |s| && p[..i] == s[..i]
    {
      p[i] := s[i];
      i := i + 1;
    }
  }

  /** `createWindowUpdateFrame`. */
  method CreateWindowUpdateFrame(increment: uint32) returns (frame: seq<byte>)
    ensures frame == UpdateFrame(increment)
  {
    var buf := new byte[7];
    buf[0], buf[1], buf[2] := WINDOW_UPDATE, 0, 4;
    buf[3], buf[4] := Low(increment / 0x100_0000), Low(increment / 0x1_0000);
    buf[5], buf[6] := Low(increment / 0x100), Low(increment);
    frame := buf[..];
  }

  lemma PartOf(before: seq<byte>, piece: seq<byte>, after: seq<byte>)
    requires exists k: nat :: k <= |piece| && after == before + piece[..k]
    ensures exists s :: s <= piece && after == before + s
  {
    var k: nat :| k <= |piece| && after == before + piece[..k];
    assert piece[..k] <= piece;
  }

  lemma MovedKept(kept: seq<byte>, b: seq<byte>, readIdx: nat, end: nat)
    requires |kept| <= readIdx <= end <= |b|
    ensures Moved(kept + b[|kept|..], |kept|, readIdx, end - readIdx)
            == (kept + b[readIdx..end]) + b[|kept| + (end - readIdx)..]
    ensures |kept| == readIdx ==>
              kept + b[|kept|..] == (kept + b[readIdx..end]) + b[|kept| + (end - readIdx)..]
  {
    var s := kept + b[|kept|..];
    assert s[..|kept|] == kept;
    assert s[readIdx..end] == b[readIdx..end];
    assert s[|kept| + (end - readIdx)..] == b[|kept| + (end - readIdx)..];
  }

  /** The bytes at and after the read index are still the old ones. */
  lemma FrameAt(kept: seq<byte>, b: seq<byte>, i: nat, s: seq<byte>)
    requires |kept| <= i && i + 3 <= |b| && s == kept + b[|kept|..]
    ensures s[i] == b[i] == b[i..][0]
    ensures var end := i + 3 + FromBe16(s[i + 1], s[i + 2]) as int;
            && (end <= |b| <==> HasFrame(b[i..]))
            && end == i + FrameSize(b[i..])
            && (end <= |b| ==> s[i + 3..end] == Head(b[i..]).payload && Rest(b[i..]) == b[end..])
  {
    var here := b[i..];
    var end := i + FrameSize(here);
    if end <= |b| {
      assert here[3..FrameSize(here)] == b[i + 3..end] == s[i + 3..end];
    }
  }

  // The state of the scan

  /** The whole filter is what has been done so far followed by the filter of the rest. */
  ghost predicate ScanState(b: seq<byte>, readIdx: nat, kept: seq<byte>, credit: nat)
    requires readIdx <= |b|
  {
    var f := Filter(b[readIdx..]);
    Filter(b) == Filtered(kept + f.kept, f.rest, credit + f.credit, f.fault)
  }

  lemma ScanKept(b: seq<byte>, readIdx: nat, end: nat, kept: seq<byte>, credit: nat)
    requires readIdx <= |b| && ScanState(b, readIdx, kept, credit)
    requires var here := b[readIdx..];
             HasFrame(here) && (here[0] == DATA || here[0] == HEADERS) && end == readIdx + FrameSize(here)
    ensures end <= |b| && ScanState(b, end, kept + b[readIdx..end], credit)
  {
    hide FrameSize, FromBe16;
    var here := b[readIdx..];
    SlicesOf(b, readIdx, FrameSize(here));
    Assoc(kept, b[readIdx..end], Filter(b[end..]).kept);
  }

  lemma SlicesOf(b: seq<byte>, i: nat, n: nat)
    requires i + n <= |b|
    ensures b[i..][..n] == b[i..i + n] && b[i..][n..] == b[i + n..]
  {
  }

  lemma ScanUpdate(b: seq<byte>, readIdx: nat, end: nat, kept: seq<byte>, credit: nat)
    requires readIdx <= |b| && ScanState(b, readIdx, kept, credit)
    requires var here := b[readIdx..];
             HasFrame(here) && here[0] == WINDOW_UPDATE && FrameSize(here) == 7 && end == readIdx + 7
    ensures end <= |b| && ScanState(b, end, kept, credit + Increment(Head(b[readIdx..])))
  {
    assert Rest(b[readIdx..]) == b[end..];
  }

  lemma FaultyScan(b: seq<byte>, readIdx: nat, kept: seq<byte>, credit: nat)
    requires readIdx <= |b| && ScanState(b, readIdx, kept, credit)
    requires var here := b[readIdx..];
             HasFrame(here) && here[0] != DATA && here[0] != HEADERS && (here[0] == WINDOW_UPDATE ==> FrameSize(here) != 7)
    ensures Filter(b).kept == kept && Filter(b).credit == credit
    ensures Filter(b).fault == Some(if b[readIdx] == WINDOW_UPDATE then BadUpdate else UnknownType)
    ensures |kept| <= |b| && Compacted(b) == kept + b[|kept|..]
  {
    assert kept + [] == kept;
    FilterShrinks(b);
  }

  lemma CleanScan(b: seq<byte>, readIdx: nat, kept: seq<byte>, credit: nat)
    requires readIdx <= |b| && ScanState(b, readIdx, kept, credit)
    requires !HasFrame(b[readIdx..])
    ensures Filter(b) == Filtered(kept, b[readIdx..], credit, None)
    ensures Compacted(b) == kept + b[readIdx..]
  {
    assert kept + [] == kept;
  }
}
