/** The methods of Http3Transport take the steps of Http3Run.  Each method below makes one call of
    the transport that is end `a` of a net, and returns the net after the step that the call is. */
module Http3Steps {
  import opened Bytes
  import opened Http3Frames
  import opened Http3Codec
  import opened Http3Receive
  import opened Http3Sending
  import opened Http3Run
  import T = Http3Transport

  /** End `a` of `n` is the transport `t`, whose connection holds all bytes on their way to it. */
  ghost predicate IsEndA(t: T.Transport, n: Net)
    reads t, t.raw, t.conn
  {
    && t.Valid() && !t.closed && !n.a.broken
    && t.Raw() == n.a.raw && t.readBuffer == n.a.readBuffer && t.conn.incoming == n.ba
    && t.conn.ended == n.a.ended && (n.a.ended ==> t.conn.dropped == n.a.dropped)
    && t.window == n.a.window && t.charged == n.a.charged && t.Sending() == n.a.sender
  }

  /** What `t` has put on the wire since `was` is what the step from `n` to `n'` puts there. */
  ghost predicate Sends(t: T.Transport, was: seq<byte>, n: Net, n': Net)
    reads t, t.conn
  {
    exists sent :: t.conn.outgoing == was + sent && n'.ab == n.ab + sent
  }

  /** The bytes that a call has left on the wire to `m`, a last piece included. */
  ghost function OnWire(t: T.Transport, m: Net): seq<byte>
    reads t, t.conn
  {
    if m.a.ended then t.conn.incoming else t.conn.Coming()
  }

  /** End `a` of `m` is `t`, except that the connection of `t` may have ended on the way. */
  ghost predicate WasEndA(t: T.Transport, m: Net)
    reads t, t.raw, t.conn
  {
    && t.Valid() && !t.closed && !m.a.broken
    && t.Raw() == m.a.raw && t.readBuffer == m.a.readBuffer && m.ba == OnWire(t, m)
    && t.window == m.a.window && t.charged == m.a.charged && t.Sending() == m.a.sender
    && (m.a.ended ==> t.conn.ended && t.conn.dropped == m.a.dropped)
    && (t.conn.ended && !m.a.ended ==> t.conn.dropped != [])
  }

  /** The net in which the connection of `t` has also ended, if it has. */
  ghost function AndDropped(t: T.Transport, m: Net): Net
    reads t, t.conn
    requires t.conn.ended && !m.a.ended ==> |t.conn.dropped| <= |m.ba|
  {
    if t.conn.ended && !m.a.ended then AfterDrop(m, |t.conn.dropped|) else m
  }

  /** The step from `n` to `m` may be followed by one more, the end of the connection. */
  predicate MayDrop(m: Net, n': Net) {
    n' == m || (1 <= |n'.a.dropped| && SideStep(m, n', Dropped(|n'.a.dropped|)))
  }

  lemma WhereItEnds(t: T.Transport, m: Net) returns (n': Net)
    requires m.ba == OnWire(t, m) && (m.a.ended ==> t.conn.ended && t.conn.dropped == m.a.dropped)
    requires t.conn.ended && !m.a.ended ==> t.conn.dropped != []
    ensures MayDrop(m, n') && n'.ab == m.ab && n'.ba == t.conn.incoming
    ensures WasEndA(t, m) ==> IsEndA(t, n')
    ensures n'.a.raw == m.a.raw && n'.a.window == m.a.window
  {
    n' := AndDropped(t, m);
  }

  /** What the contract of `Read` says of the call, as of a step from `n`. */
  predicate ReadTook(n: Net, m: Net, skipped: nat, cap: nat, out: ReadOutcome, got: seq<byte>, sent: seq<byte>) {
    && n.a.ended == m.a.ended && (n.a.ended ==> m.ba == n.ba && m.a.dropped == n.a.dropped)
    && |m.ba| <= |n.ba| && (out.ConnFailed? ==> !HasFrame(m.a.raw))
    && if n.a.readBuffer != [] then
         && out.Received? && got + m.a.readBuffer == n.a.readBuffer && |got| == Min(cap, |n.a.readBuffer|)
         && m.a.raw == n.a.raw && ToA(m) == ToA(n)
       else
         && !out.Closed? && ReadEffect(n.a.raw + ToA(n), m.a.raw + ToA(m), skipped, cap, out, got, m.a.readBuffer)
         && (out.UpdateNotSent? ==> sent <= UpdateFrame(|Head(Skip(n.a.raw + ToA(n), skipped).value.left).payload|))
  }

  lemma ReadIsStep(n: Net, m: Net, skipped: nat, cap: nat, out: ReadOutcome, got: seq<byte>, sent: seq<byte>)
    requires ReadTook(n, m, skipped, cap, out, got, sent) && !n.a.broken
    requires m == AfterRead(n, m.a.raw, m.a.readBuffer, m.ba, skipped, cap, out, got, sent)
    ensures SideStep(n, m, DidRead(cap, skipped, out, got, sent))
  {
    hide Skip, HasFrame, Head, UpdateFrame, Behind;
  }

  /** The net that a read leaves. */
  lemma ReadLeaves(n: Net, raw: seq<byte>, readBuffer: seq<byte>, wire: seq<byte>, skipped: nat, cap: nat, out: ReadOutcome,
                   got: seq<byte>, sent: seq<byte>)
    returns (m: Net)
    requires n.a.readBuffer == [] ==>
               ReadEffect(n.a.raw + ToA(n), raw + Behind(n.a, wire), skipped, cap, out, got, readBuffer)
    requires n.a.readBuffer != [] ==> raw == n.a.raw && wire == n.ba
    requires n.a.readBuffer == [] && out.UpdateNotSent? ==>
               sent <= UpdateFrame(|Head(Skip(n.a.raw + ToA(n), skipped).value.left).payload|)
    requires n.a.readBuffer == [] && out.Received? ==>
               sent == UpdateFrame(|Head(Skip(n.a.raw + ToA(n), skipped).value.left).payload|)
    requires n.a.readBuffer != [] || (!out.Received? && !out.UpdateNotSent?) ==> sent == []
    ensures n.a.readBuffer == [] ==> Skip(n.a.raw + ToA(n), skipped).Some?
    ensures n.a.readBuffer == [] && (out.Received? || out.UpdateNotSent?) ==>
              HasFrame(Skip(n.a.raw + ToA(n), skipped).value.left)
    ensures m == AfterRead(n, raw, readBuffer, wire, skipped, cap, out, got, sent)
    ensures m.a.raw == raw && m.a.readBuffer == readBuffer && m.ba == wire && m.ab == n.ab + sent
    ensures m.a.ended == n.a.ended && m.a.dropped == n.a.dropped && m.a.sender == n.a.sender && m.a.charged == n.a.charged
    ensures m.a.broken == (n.a.broken || (n.a.readBuffer == [] && out.UpdateNotSent?))
    ensures m.a.window == n.a.window
                          + (if n.a.readBuffer == [] then Skip(n.a.raw + ToA(n), skipped).value.credit else 0)
  {
    hide Skip, UpdateFrame, Behind;
    m := AfterRead(n, raw, readBuffer, wire, skipped, cap, out, got, sent);
    AppendNothing(n.ab);
  }

  method ReadSteps(t: T.Transport, p: array<byte>, ghost n: Net)
    returns (count: nat, out: ReadOutcome, ghost m: Net, ghost n': Net, ghost e: Event)
    requires IsEndA(t, n) && p != t.raw
    modifies t`raw, t`rawLen, t`readBuffer, t`windowSize, t`window, t.raw, t.conn, p
    ensures count <= p.Length
    ensures SideStep(n, m, e) && MayDrop(m, n') && e.DidRead? && e.cap == p.Length && e.out == out && e.got == p[..count]
    ensures Sends(t, old(t.conn.outgoing), n, n')
    ensures !out.UpdateNotSent? ==> IsEndA(t, n')
  {
    hide SideStep, IsEndA, WasEndA, MayDrop;
    count, out, m, e := ReadOnce(t, p, n);
    n' := WhereItEnds(t, m);
  }

  /** The read itself. */
  method ReadOnce(t: T.Transport, p: array<byte>, ghost n: Net)
    returns (count: nat, out: ReadOutcome, ghost m: Net, ghost e: Event)
    requires IsEndA(t, n) && p != t.raw
    modifies t`raw, t`rawLen, t`readBuffer, t`windowSize, t`window, t.raw, t.conn, p
    ensures count <= p.Length
    ensures SideStep(n, m, e) && e.DidRead? && e.cap == p.Length && e.out == out && e.got == p[..count]
    ensures Sends(t, old(t.conn.outgoing), n, m)
    ensures m.ba == OnWire(t, m) && (m.a.ended ==> t.conn.ended && t.conn.dropped == m.a.dropped)
    ensures t.conn.ended && !m.a.ended ==> t.conn.dropped != []
    ensures !out.UpdateNotSent? ==> WasEndA(t, m)
  {
    hide SideStep, AfterRead, ReadEffect, Skip, HasFrame, Head, UpdateFrame, T.UpdateEffect;
    ghost var outgoing := t.conn.outgoing;
    ghost var skipped;
    count, out, skipped := t.Read(p);
    ghost var sent := SentBy(t, outgoing, n, skipped, out);
    e := DidRead(p.Length, skipped, out, p[..count], sent);
    m := ReadLeaves(n, t.Raw(), t.readBuffer, OnWire(t, n), skipped, p.Length, out, p[..count], sent);
    ReadIsStep(n, m, skipped, p.Length, out, p[..count], sent);
    assert t.conn.outgoing == outgoing + sent && m.ab == n.ab + sent;
  }

  /** The bytes that a read has put on the wire. */
  ghost method SentBy(t: T.Transport, was: seq<byte>, n: Net, skipped: nat, out: ReadOutcome) returns (sent: seq<byte>)
    requires n.a.readBuffer != [] ==> out.Received? && t.conn.outgoing == was
    requires n.a.readBuffer == [] ==> Skip(n.a.raw + ToA(n), skipped).Some?
    requires n.a.readBuffer == [] && (out.Received? || out.UpdateNotSent?) ==>
               HasFrame(Skip(n.a.raw + ToA(n), skipped).value.left)
    requires n.a.readBuffer == [] ==> T.UpdateEffect(was, t.conn.outgoing, n.a.raw + ToA(n), skipped, out)
    ensures t.conn.outgoing == was + sent
    ensures n.a.readBuffer == [] && out.Received? ==>
              sent == UpdateFrame(|Head(Skip(n.a.raw + ToA(n), skipped).value.left).payload|)
    ensures n.a.readBuffer == [] && out.UpdateNotSent? ==>
              sent <= UpdateFrame(|Head(Skip(n.a.raw + ToA(n), skipped).value.left).payload|)
    ensures n.a.readBuffer != [] || (!out.Received? && !out.UpdateNotSent?) ==> sent == []
  {
    AppendNothing(was);
    if n.a.readBuffer != [] {
      sent := [];
    } else if out.Received? {
      sent := UpdateFrame(|Head(Skip(n.a.raw + ToA(n), skipped).value.left).payload|);
    } else if out.UpdateNotSent? {
      var took := |Head(Skip(n.a.raw + ToA(n), skipped).value.left).payload|;
      sent :| sent <= UpdateFrame(took) && t.conn.outgoing == was + sent;
    } else {
      sent := [];
    }
  }

  /** A `Write` is a step of the net, however it ends. */
  method WriteSteps(t: T.Transport, p: seq<byte>, path: seq<byte>, patience: nat, ghost n: Net)
    returns (count: nat, out: T.WriteOutcome, ghost m: Net, ghost n': Net, ghost e: Event)
    requires IsEndA(t, n) && |path| < TWO_TO_THE_16
    modifies t`raw, t`rawLen, t`windowSize, t`window, t`sentBytes, t`charged, t`hasSentHeaders, t`asked, t.raw, t.conn
    ensures SideStep(n, m, e) && MayDrop(m, n') && Sends(t, old(t.conn.outgoing), n, n')
    ensures match out
            case Written => e.Wrote? && e.p == p && count == |p| && IsEndA(t, n')
            case WindowTimeout => e.TimedOut? && e.p == p && count == 0 && IsEndA(t, n')
            case SendFailed =>
              && e.Broke? && e.p == p && count == 0
              && t.Valid() && t.Raw() == n'.a.raw && t.conn.incoming == n'.ba && t.window == n'.a.window
            case WriteClosed => false
  {
    hide SideStep, IsEndA, WasEndA, MayDrop;
    count, out, m, e := WriteOnce(t, p, path, patience, n);
    n' := WhereItEnds(t, m);
  }

  /** The write itself. */
  method WriteOnce(t: T.Transport, p: seq<byte>, path: seq<byte>, patience: nat, ghost n: Net)
    returns (count: nat, out: T.WriteOutcome, ghost m: Net, ghost e: Event)
    requires IsEndA(t, n) && |path| < TWO_TO_THE_16
    modifies t`raw, t`rawLen, t`windowSize, t`window, t`sentBytes, t`charged, t`hasSentHeaders, t`asked, t.raw, t.conn
    ensures SideStep(n, m, e) && Sends(t, old(t.conn.outgoing), n, m)
    ensures m.ba == OnWire(t, m) && (m.a.ended ==> t.conn.ended && t.conn.dropped == m.a.dropped)
    ensures t.conn.ended && !m.a.ended ==> t.conn.dropped != []
    ensures match out
            case Written => e.Wrote? && e.p == p && count == |p| && WasEndA(t, m)
            case WindowTimeout => e.TimedOut? && e.p == p && count == 0 && WasEndA(t, m)
            case SendFailed =>
              e.Broke? && e.p == p && count == 0 && t.Valid() && t.Raw() == m.a.raw && t.window == m.a.window
            case WriteClosed => false
  {
    hide WireBytes, PartSent, PartCharge, PartData, Charge, ChecksOf, SentHeadersAfter, SentHeadersPart, Polls;
    ghost var outgoing := t.conn.outgoing;
    ghost var trace;
    count, out, trace := t.Write(p, path, patience);
    assert trace == TraceOf(n, trace.ks, trace.ats, trace.checks);
    if out == T.Written {
      e := Wrote(p, path, trace.ks, trace.ats);
      m := AfterWrite(AfterPolls(n, trace.ks), p, path);
      assert m.ab == n.ab + WireBytes(n.a.sender, p, path);
    } else if out == T.WindowTimeout {
      ghost var i := |trace.checks|;
      assert trace.checks == ChecksOf(n.a.sender, p)[..i];
      e := TimedOut(p, trace.ks, trace.ats, i);
      m := AfterPart(AfterPolls(n, trace.ks), p, i);
      assert m.ab == n.ab + PartSent(n.a.sender, p, i);
    } else {
      ghost var sent :| sent <= WireBytes(n.a.sender, p, path) && t.conn.outgoing == outgoing + sent;
      e := Broke(p, path, trace.ks, sent, t.Sending(), t.charged);
      m := AfterBroken(AfterPolls(n, trace.ks), p, path, sent, t.Sending(), t.charged);
      assert m.ab == n.ab + sent;
    }
  }
}
