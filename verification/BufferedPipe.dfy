/** The `BufferedPipe` objects of internal/transport/bufpipe.go, in pairs: a write goes into the
    buffer of the other end. */
module BufferedPipe {
  import opened Bytes
  import opened PipeProtocol

  datatype Error = EOF | ErrDeadline | ErrPipeClosed | StillWaiting

  const DEFAULT_BUFFER_SIZE: nat := 10 * 1024 * 1024

  class Pipe {
    const bufferSize: nat
    const maxSize: nat
    var buffer: seq<byte>
    var closed: bool
    var peer: Pipe?
    ghost var taken: seq<byte>
    ghost var log: seq<(nat, seq<byte>)>

    constructor (bufferSize: nat)
      ensures Valid() && View() == End(bufferSize, [], false, [], []) && peer == null
    {
      this.bufferSize, maxSize := bufferSize, bufferSize / 4;
      buffer, closed, peer := [], false, null;
      taken, log := [], [];
      new;
      assert taken + buffer == [];
    }

    ghost function View(): End
      reads this`buffer, this`closed, this`taken, this`log
    {
      End(bufferSize, buffer, closed, taken, log)
    }

    ghost predicate Valid()
      reads this`buffer, this`closed, this`taken, this`log
    {
      maxSize == bufferSize / 4 && Conserved(View())
    }

    /** A wait on a condition of this end: the lock is free, and other goroutines may place a chunk
        as other writers, read, and close. */
    method Wait(ghost me: nat)
      requires Valid()
      modifies this`buffer, this`closed, this`taken, this`log
      ensures Valid() && Evolves(old(View()), View()) && PlacedBy(log, me) == old(PlacedBy(log, me))
    {
      var places: bool, drains: bool, closes: bool := *, *, *;
      if places && !closed {
        OtherPlaces(me);
      }
      if drains {
        OtherReads();
      }
      if closes {
        Close();
      }
    }

    method OtherPlaces(ghost me: nat)
      requires Valid() && !closed
      modifies this`buffer, this`log
      ensures Valid() && Evolves(old(View()), View()) && PlacedBy(log, me) == old(PlacedBy(log, me))
    {
      ghost var none: seq<byte> := [];
      assert |none| <= bufferSize - |buffer|;
      var chunk: seq<byte> :| |chunk| <= bufferSize - |buffer|;
      PlaceConserves(View(), me + 1, chunk);
      PlacedSnoc(log, me + 1, chunk);
      buffer, log := buffer + chunk, log + [(me + 1, chunk)];
    }

    method OtherReads()
      requires Valid()
      modifies this`buffer, this`taken
      ensures Valid() && Evolves(old(View()), View())
    {
      var k: nat :| k <= |buffer|;
      TakeConserves(View(), k);
      taken, buffer := taken + buffer[..k], buffer[k..];
    }

    /** `Read` into a buffer of `size` bytes, whose deadline is over after `expires` waits; `looks` is the
        end as it was when each wait began, `at` as the call saw it last. */
    method Read(size: nat, expires: nat, patience: nat)
      returns (b: seq<byte>, err: Option<Error>, ghost looks: seq<End>, ghost at: End)
      requires Valid()
      modifies this`buffer, this`closed, this`taken, this`log
      ensures Valid() && Waits(old(View()), looks, at) && (size == 0 ==> looks == [] && err.None?)
      ensures err.None? ==> View() == Take(at, size) && taken == at.taken + b && |b| == Min(size, |at.buffer|)
      ensures err.None? && size > 0 ==> b != []
      ensures err.Some? ==> b == [] && View() == at && at.buffer == []
      ensures err == Some(EOF) <==> size > 0 && at.buffer == [] && at.closed
      ensures err == Some(ErrDeadline) ==> |looks| == expires
      ensures err == Some(StillWaiting) ==> |looks| == patience
      ensures err != Some(ErrPipeClosed)
    {
      hide Evolves, Conserved;
      at, looks := View(), [];
      if size == 0 {
        assert buffer[0..] == buffer && taken + buffer[..0] == taken;
        return [], None, looks, at;
      }
      var rounds := 0;
      while |buffer| == 0 && !closed
        invariant Valid() && rounds == |looks| <= patience && rounds <= expires
        invariant at == View() && Waits(old(View()), looks, at)
        decreases patience - rounds
      {
        if rounds == expires || rounds == patience {
          return [], Some(if rounds == expires then ErrDeadline else StillWaiting), looks, at;
        }
        Wait(0);
        WaitsMore(old(View()), looks, at, View());
        rounds, looks, at := rounds + 1, looks + [at], View();
      }
      if closed && |buffer| == 0 {
        return [], Some(EOF), looks, at;
      }
      var n := Min(size, |buffer|);
      TakeConserves(View(), size);
      b, err := buffer[..n], None;
      taken, buffer := taken + buffer[..n], buffer[n..];
    }

    /** `Write`, as writer `me`, watched for `patience` passes of its loop, its deadline over from pass
        `expires` on; `looks` is the peer as each pass saw it when it placed its chunk. */
    method Write(b: seq<byte>, ghost me: nat, expires: nat, patience: nat)
      returns (n: nat, err: Option<Error>, ghost looks: seq<End>)
      requires peer != null && peer != this && peer.Valid() && peer.bufferSize == bufferSize && maxSize == bufferSize / 4
      modifies peer`buffer, peer`closed, peer`taken, peer`log
      ensures peer.Valid() && n <= |b| && (err.None? <==> n == |b|)
      ensures PlacedBy(peer.log, me) == old(PlacedBy(peer.log, me)) + b[..n]
      ensures old(peer.closed) && b != [] ==> n == 0 && err == Some(ErrPipeClosed) && peer.View() == old(peer.View())
      ensures Watched(old(peer.View()), looks, b, me, expires) && n == Moved(looks, |b|)
      ensures Ended(AfterLooks(old(peer.View()), looks, b, me), peer.View(), me, |looks|, expires, patience, err)
      ensures !old(peer.closed) && |b| <= Room(old(peer.View())) && bufferSize >= 4 && |b| <= patience ==>
                err.None? && peer.buffer == old(peer.buffer) + b
    {
      hide PlacedBy, Evolves, ChunkSize, Moved, AfterLooks, Watched, Conserved;
      ghost var start := peer.View();
      n, err, looks := WriteAll(b, me, expires, patience);
      FitsEnds(start, looks, b, me, expires, patience, n, err, peer.View());
    }

    method WriteAll(b: seq<byte>, ghost me: nat, expires: nat, patience: nat)
      returns (n: nat, err: Option<Error>, ghost looks: seq<End>)
      requires peer != null && peer != this && peer.Valid() && peer.bufferSize == bufferSize && maxSize == bufferSize / 4
      modifies peer`buffer, peer`closed, peer`taken, peer`log
      ensures peer.Valid() && n <= |b| && (err.None? <==> n == |b|)
      ensures PlacedBy(peer.log, me) == old(PlacedBy(peer.log, me)) + b[..n]
      ensures old(peer.closed) && b != [] ==> n == 0 && err == Some(ErrPipeClosed) && peer.View() == old(peer.View())
      ensures Watched(old(peer.View()), looks, b, me, expires) && n == Moved(looks, |b|)
      ensures Ended(AfterLooks(old(peer.View()), looks, b, me), peer.View(), me, |looks|, expires, patience, err)
    {
      hide PlacedBy, Evolves, ChunkSize, Moved, AfterLooks, Watched, Conserved;
      ghost var start := peer.View();
      n, looks := 0, [];
      NoLooks(start, b, me, expires);
      if b == [] {
        return 0, None, [];
      }
      if peer.closed {
        return 0, Some(ErrPipeClosed), [];
      }
      var passes := 0;
      while n < |b|
        invariant peer.Valid() && n <= |b| && passes == |looks| <= patience && !peer.closed
        invariant PlacedBy(peer.log, me) == PlacedBy(start.log, me) + b[..n]
        invariant Watched(start, looks, b, me, expires) && n == Moved(looks, |b|)
        invariant peer.View() == AfterLooks(start, looks, b, me)
        decreases patience - passes
      {
        if passes == patience {
          return n, Some(StillWaiting), looks;
        }
        ghost var before := peer.View();
        if peer.bufferSize - |peer.buffer| == 0 {
          if passes >= expires {
            return n, Some(ErrDeadline), looks;
          }
          peer.Wait(me);
          if peer.closed {
            return n, Some(ErrPipeClosed), looks;
          }
        }
        ghost var seen := peer.View();
        var k := PlaceChunk(b[n..], me);
        PassIsLook(start, looks, seen, b, me, k, peer.View(), expires);
        ChunkAppends(PlacedBy(start.log, me), b, n, k);
        n, passes, looks := n + k, passes + 1, looks + [seen];
      }
      err := None;
    }

    /** The second half of a pass: the chunk goes into the peer's buffer. */
    method PlaceChunk(rest: seq<byte>, ghost me: nat) returns (k: nat)
      requires peer != null && peer.Valid() && peer.bufferSize == bufferSize && maxSize == bufferSize / 4 && rest != []
      modifies peer`buffer, peer`log
      ensures peer.Valid() && k == ChunkSize(old(peer.View()), |rest|) <= |rest|
      ensures peer.View() == Place(old(peer.View()), me, rest[..k])
      ensures PlacedBy(peer.log, me) == old(PlacedBy(peer.log, me)) + rest[..k]
    {
      k := CutChunk(rest);
      PlaceConserves(peer.View(), me, rest[..k]);
      PlacedSnoc(peer.log, me, rest[..k]);
      peer.buffer := peer.buffer + rest[..k];
      peer.log := peer.log + [(me, rest[..k])];
    }

    method CutChunk(rest: seq<byte>) returns (k: nat)
      requires peer != null && peer.Valid() && peer.bufferSize == bufferSize && maxSize == bufferSize / 4
      ensures k == ChunkSize(peer.View(), |rest|) <= |rest| && k <= Room(peer.View())
    {
      var available := peer.bufferSize - |peer.buffer|;
      var chunk := rest;
      if |chunk| > available {
        chunk := chunk[..available];
      }
      if |chunk| > maxSize {
        chunk := chunk[..maxSize];
      }
      k := |chunk|;
    }

    /** `Close`.  It marks this end and not the other: whoever reads from the peer waits on, and this
        end may still write to it. */
    method Close()
      requires Valid()
      modifies this`closed
      ensures Valid() && View() == old(View()).(closed := true)
      ensures peer != null && peer != this ==> peer.View() == old(peer.View())
    {
      closed := true;
    }
  }

  /** The end was empty and open when each wait of a read began, and between that and the next look others
      have changed it. */
  predicate Waits(start: End, looks: seq<End>, at: End) {
    if looks == [] then at == start
    else
      && Waits(start, looks[..|looks| - 1], looks[|looks| - 1])
      && looks[|looks| - 1].buffer == [] && !looks[|looks| - 1].closed && Evolves(looks[|looks| - 1], at)
  }

  lemma WaitsMore(start: End, looks: seq<End>, at: End, now: End)
    requires Waits(start, looks, at) && at.buffer == [] && !at.closed && Evolves(at, now)
    ensures Waits(start, looks + [at], now)
  {
    assert (looks + [at])[..|looks|] == looks;
  }

  /** How a write can end after `passes` passes, the last of which left the peer as `e`. */
  predicate Ended(e: End, now: End, writer: nat, passes: nat, expires: nat, patience: nat, err: Option<Error>) {
    match err
    case None => now == e
    case Some(ErrPipeClosed) =>
      now.closed && ((e.closed && now == e) || (Room(e) == 0 && passes < expires && EvolvesFor(e, now, writer)))
    case Some(ErrDeadline) => now == e && Room(e) == 0 && passes >= expires
    case Some(StillWaiting) => now == e && passes == patience
    case Some(EOF) => false
  }

  lemma NoLooks(start: End, b: seq<byte>, me: nat, expires: nat)
    ensures Watched(start, [], b, me, expires) && Moved([], |b|) == 0 && AfterLooks(start, [], b, me) == start
    ensures PlacedBy(start.log, me) + b[..0] == PlacedBy(start.log, me)
  {
  }

  /** A write that fits ends well, if it is watched long enough. */
  lemma FitsEnds(start: End, looks: seq<End>, b: seq<byte>, me: nat, expires: nat, patience: nat,
                 n: nat, err: Option<Error>, now: End)
    requires Watched(start, looks, b, me, expires) && n == Moved(looks, |b|) && (err.None? <==> n == |b|)
    requires Ended(AfterLooks(start, looks, b, me), now, me, |looks|, expires, patience, err)
    ensures !start.closed && |b| <= Room(start) && start.size >= 4 && |b| <= patience ==>
              err.None? && now.buffer == start.buffer + b
  {
    hide PlacedBy, Evolves, Moved, AfterLooks, Watched;
    if !start.closed && |b| <= Room(start) && start.size >= 4 && |b| <= patience {
      FitsAtOnce(start, looks, b, me, expires);
      assert b[..|b|] == b;
    }
  }

  /** One pass more: the peer was as `seen`, got `k` bytes, and is as `now`. */
  lemma PassIsLook(start: End, looks: seq<End>, seen: End, b: seq<byte>, me: nat, k: nat, now: End, expires: nat)
    requires Watched(start, looks, b, me, expires) && Moved(looks, |b|) < |b| && !seen.closed
    requires NextLook(AfterLooks(start, looks, b, me), seen, me, |looks|, expires)
    requires var n := Moved(looks, |b|); k == ChunkSize(seen, |b| - n) <= |b| - n && now == Place(seen, me, b[n..][..k])
    ensures Watched(start, looks + [seen], b, me, expires) && Moved(looks + [seen], |b|) == Moved(looks, |b|) + k
    ensures AfterLooks(start, looks + [seen], b, me) == now
  {
    hide PlacedBy, Conserved, Moved, AfterLooks, Watched;
    MovedMore(looks, seen, |b|);
    WatchedMore(start, looks, seen, b, me, expires);
    var n := Moved(looks, |b|);
    assert b[n..][..k] == b[n..n + k];
  }

  lemma ChunkAppends(before: seq<byte>, b: seq<byte>, n: nat, k: nat)
    requires n + k <= |b|
    ensures before + b[..n] + b[n..][..k] == before + b[..n + k]
  {
  }

  /** `NewBufferedPipe`. */
  method NewBufferedPipe(bufferSize: int) returns (a: Pipe, b: Pipe)
    ensures fresh(a) && fresh(b) && a.peer == b && b.peer == a && a != b
    ensures var size := if bufferSize <= 0 then DEFAULT_BUFFER_SIZE else bufferSize;
            && a.Valid() && a.View() == End(size, [], false, [], [])
            && b.Valid() && b.View() == End(size, [], false, [], [])
  {
    var size := if bufferSize <= 0 then DEFAULT_BUFFER_SIZE else bufferSize;
    a := new Pipe(size);
    b := new Pipe(size);
    a.peer := b;
    b.peer := a;
  }
}
