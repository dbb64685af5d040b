/** One direction of the paired pipe of internal/transport/bufpipe.go: any number of writers,
    readers and closes, over all interleavings.  BufferedPipe proves its class against it. */
module PipeProtocol {
  import opened Bytes

  /** One end with its history: the bytes read from it, and the chunks placed into it, each with the
      writer that placed it. */
  datatype End = End(size: nat, buffer: seq<byte>, closed: bool, taken: seq<byte>, log: seq<(nat, seq<byte>)>)

  function Room(e: End): int {
    e.size - |e.buffer|
  }

  /** What one pass of the `Write` loop moves: no more than remains, fits, and a quarter buffer. */
  function ChunkSize(e: End, rest: nat): int {
    Min(Min(rest, Room(e)), e.size / 4)
  }

  function Place(e: End, writer: nat, chunk: seq<byte>): End {
    e.(buffer := e.buffer + chunk, log := e.log + [(writer, chunk)])
  }

  /** `Read` with a buffer of `k` bytes. */
  function Take(e: End, k: nat): End {
    var n := Min(k, |e.buffer|);
    e.(buffer := e.buffer[n..], taken := e.taken + e.buffer[..n])
  }

  function Placed(log: seq<(nat, seq<byte>)>): seq<byte> {
    if log == [] then [] else Placed(log[..|log| - 1]) + log[|log| - 1].1
  }

  /** What one writer has placed. */
  function PlacedBy(log: seq<(nat, seq<byte>)>, writer: nat): seq<byte> {
    if log == [] then []
    else PlacedBy(log[..|log| - 1], writer) + (if log[|log| - 1].0 == writer then log[|log| - 1].1 else [])
  }

  /** Nothing is lost, repeated or reordered, and the buffer stays within its size. */
  predicate Conserved(e: End) {
    Placed(e.log) == e.taken + e.buffer && |e.buffer| <= e.size
  }

  lemma PlacedSnoc(log: seq<(nat, seq<byte>)>, writer: nat, chunk: seq<byte>)
    ensures var log' := log + [(writer, chunk)];
            && Placed(log') == Placed(log) + chunk && PlacedBy(log', writer) == PlacedBy(log, writer) + chunk
            && forall w: nat :: w != writer ==> PlacedBy(log', w) == PlacedBy(log, w)
  {
    var log' := log + [(writer, chunk)];
    assert log'[..|log|] == log;
    forall w: nat | w != writer ensures PlacedBy(log', w) == PlacedBy(log, w) {
      assert PlacedBy(log, w) + [] == PlacedBy(log, w);
    }
  }

  lemma PlaceConserves(e: End, writer: nat, chunk: seq<byte>)
    requires Conserved(e) && |chunk| <= Room(e)
    ensures Conserved(Place(e, writer, chunk))
  {
    PlacedSnoc(e.log, writer, chunk);
    Assoc(e.taken, e.buffer, chunk);
  }

  lemma TakeConserves(e: End, k: nat)
    requires Conserved(e)
    ensures Conserved(Take(e, k))
  {
    var n := Min(k, |e.buffer|);
    SplitAt(e.buffer, n);
    Assoc(e.taken, e.buffer[..n], e.buffer[n..]);
  }

  // Runs

  datatype Status = Running | Finished | PipeClosed | Deadline

  /** A `Write` call: its data, how much of it is placed, and how it stands. */
  datatype Writer = Writer(data: seq<byte>, n: nat, status: Status)

  datatype World = World(e: End, writers: map<nat, Writer>)

  datatype Event =
    | Start(id: nat, data: seq<byte>)
    | Pass(id: nat)
    | TimesOut(id: nat)
    | SeesClosed(id: nat)
    | ReadSome(k: nat)
    | ReadEnds
    | Closes

  predicate Runs(w: World, id: nat) {
    id in w.writers && w.writers[id].status == Running && w.writers[id].n <= |w.writers[id].data|
  }

  /** One pass of the `Write` loop. */
  function AfterPass(w: World, id: nat): World
    requires Runs(w, id) && Room(w.e) >= 0
  {
    var v := w.writers[id];
    var size := ChunkSize(w.e, |v.data| - v.n);
    var n := v.n + size;
    World(Place(w.e, id, v.data[v.n..n]),
          w.writers[id := v.(n := n, status := if n == |v.data| then Finished else Running)])
  }

  predicate Step(w: World, w': World, ev: Event) {
    match ev
    case Start(id, data) =>
      && id !in w.writers
      && w' == w.(writers := w.writers[id := Writer(data, 0,
                    if data == [] then Finished else if w.e.closed then PipeClosed else Running)])
    case Pass(id) => Runs(w, id) && !w.e.closed && Room(w.e) >= 0 && w' == AfterPass(w, id)
    case TimesOut(id) =>
      Runs(w, id) && Room(w.e) == 0 && w' == w.(writers := w.writers[id := w.writers[id].(status := Deadline)])
    case SeesClosed(id) =>
      Runs(w, id) && w.e.closed && w' == w.(writers := w.writers[id := w.writers[id].(status := PipeClosed)])
    case ReadSome(k) => k > 0 && w.e.buffer != [] && w' == w.(e := Take(w.e, k))
    case ReadEnds => w.e.closed && w.e.buffer == [] && w' == w
    case Closes => w' == w.(e := w.e.(closed := true))
  }

  predicate Run(states: seq<World>, events: seq<Event>, size: nat) {
    && |states| == |events| + 1 && states[0] == World(End(size, [], false, [], []), map[])
    && forall k :: 0 <= k < |events| ==> Step(states[k], states[k + 1], events[k])
  }

  /** A writer has placed exactly the part of its data that it reports. */
  predicate WriterOk(w: World, id: nat)
    requires id in w.writers
  {
    var v := w.writers[id];
    && v.n <= |v.data| && PlacedBy(w.e.log, id) == v.data[..v.n]
    && (v.status == Finished <==> v.n == |v.data|)
  }

  ghost predicate Good(w: World, size: nat) {
    && w.e.size == size && Conserved(w.e)
    && (forall id :: id in w.writers ==> WriterOk(w, id))
    && (forall id: nat :: id !in w.writers ==> PlacedBy(w.e.log, id) == [])
  }

  lemma OwnPass(w: World, id: nat)
    requires Conserved(w.e) && Runs(w, id) && WriterOk(w, id)
    ensures WriterOk(AfterPass(w, id), id) && Conserved(AfterPass(w, id).e)
    ensures forall j: nat :: j != id ==> PlacedBy(AfterPass(w, id).e.log, j) == PlacedBy(w.e.log, j)
  {
    var v, k := w.writers[id], ChunkSize(w.e, |w.writers[id].data| - w.writers[id].n);
    var chunk := v.data[v.n..v.n + k];
    PlaceConserves(w.e, id, chunk);
    PlacedSnoc(w.e.log, id, chunk);
    assert v.data[..v.n] + chunk == v.data[..v.n + k];
  }

  lemma PassKeepsGood(w: World, id: nat, size: nat)
    requires Good(w, size) && Runs(w, id)
    ensures Good(AfterPass(w, id), size)
  {
    OwnPass(w, id);
    forall j | j in AfterPass(w, id).writers ensures WriterOk(AfterPass(w, id), j) {
      assert WriterOk(w, j);
    }
  }

  lemma StepKeepsGood(w: World, w': World, ev: Event, size: nat)
    requires Good(w, size) && Step(w, w', ev)
    ensures Good(w', size)
  {
    match ev
    case Pass(id) => PassKeepsGood(w, id, size);
    case ReadSome(k) =>
      TakeConserves(w.e, k);
      forall j | j in w'.writers ensures WriterOk(w', j) {
        assert WriterOk(w, j);
      }
    case _ =>
      forall j | j in w'.writers ensures WriterOk(w', j) {
        assert j in w.writers ==> WriterOk(w, j);
      }
  }

  /** Pipe conservation, in every state of every run: what was placed is what was read and what
      is buffered, the buffer is never over-full, and every `Write` has placed exactly the prefix
      of its data that it reports. */
  lemma {:induction false} AlwaysConserved(states: seq<World>, events: seq<Event>, size: nat, i: nat)
    requires Run(states, events, size) && i < |states|
    ensures Good(states[i], size)
    decreases i
  {
    if i > 0 {
      AlwaysConserved(states, events, size, i - 1);
      assert Step(states[i - 1], states[i - 1 + 1], events[i - 1]);
      StepKeepsGood(states[i - 1], states[i], events[i - 1], size);
    } else {
      assert states[0].e.taken + states[0].e.buffer == [];
    }
  }

  /** After a close nothing more is placed: the bytes still to be read are those that were in the
      buffer, in order, and a read reports the end exactly when all that was ever placed is taken. */
  lemma {:induction false} ClosedOnlyDrains(states: seq<World>, events: seq<Event>, size: nat, i: nat, j: nat)
    requires Run(states, events, size) && i <= j < |states| && states[i].e.closed
    ensures states[j].e.closed && states[j].e.log == states[i].e.log
    ensures states[j].e.taken + states[j].e.buffer == states[i].e.taken + states[i].e.buffer
    ensures Step(states[j], states[j], ReadEnds) <==> states[j].e.taken == Placed(states[j].e.log)
    decreases j - i
  {
    AlwaysConserved(states, events, size, i);
    AlwaysConserved(states, events, size, j);
    if i < j {
      ClosedOnlyDrains(states, events, size, i, j - 1);
      assert Step(states[j - 1], states[j - 1 + 1], events[j - 1]);
    }
  }

  // Progress

  /** A pass that finds room moves something exactly when a quarter of the buffer is not zero. */
  lemma PassMoves(e: End, rest: nat)
    requires rest > 0 && Room(e) > 0
    ensures ChunkSize(e, rest) > 0 <==> e.size >= 4
  {
  }

  /** The passes of writer `id` that found room in the first `n` steps. */
  function RoomyPasses(states: seq<World>, events: seq<Event>, n: nat, id: nat): nat
    requires n <= |events| <= |states|
  {
    if n == 0 then 0
    else
      var found := events[n - 1] == Pass(id) && Room(states[n - 1].e) > 0;
      RoomyPasses(states, events, n - 1, id) + (if found then 1 else 0)
  }

  lemma StepMovesOn(w: World, w': World, ev: Event, size: nat, id: nat)
    requires Good(w, size) && size >= 4 && Step(w, w', ev) && id in w.writers
    ensures id in w'.writers && w'.writers[id].data == w.writers[id].data
    ensures w'.writers[id].n >= w.writers[id].n + (if ev == Pass(id) && Room(w.e) > 0 then 1 else 0)
  {
    assert WriterOk(w, id);
    if ev == Pass(id) && Room(w.e) > 0 {
      PassMoves(w.e, |w.writers[id].data| - w.writers[id].n);
    }
  }

  lemma {:induction false} PassesAreCounted(states: seq<World>, events: seq<Event>, size: nat, n: nat, id: nat)
    requires Run(states, events, size) && size >= 4 && n < |states|
    ensures RoomyPasses(states, events, n, id) <= if id in states[n].writers then states[n].writers[id].n else 0
    decreases n
  {
    if n > 0 {
      PassesAreCounted(states, events, size, n - 1, id);
      AlwaysConserved(states, events, size, n - 1);
      assert Step(states[n - 1], states[n - 1 + 1], events[n - 1]);
      if id in states[n - 1].writers {
        StepMovesOn(states[n - 1], states[n], events[n - 1], size, id);
      }
    }
  }

  /** With a buffer of at least four bytes, every pass with room takes a writer further: after as
      many such passes as it has bytes to write, it has placed all of them. */
  lemma WritersProgress(states: seq<World>, events: seq<Event>, size: nat, n: nat, id: nat)
    requires Run(states, events, size) && size >= 4 && n < |states| && id in states[n].writers
    requires RoomyPasses(states, events, n, id) >= |states[n].writers[id].data|
    ensures states[n].writers[id].status == Finished && PlacedBy(states[n].e.log, id) == states[n].writers[id].data
  {
    AlwaysConserved(states, events, size, n);
    PassesAreCounted(states, events, size, n, id);
    assert WriterOk(states[n], id);
  }

  /** With one, two or three bytes no `Write` of anything ever gets a byte into the pipe. */
  lemma {:induction false} TinyPipeIsStuck(states: seq<World>, events: seq<Event>, size: nat, n: nat, id: nat)
    requires Run(states, events, size) && size < 4 && n < |states| && id in states[n].writers
    ensures states[n].writers[id].n == 0 && (states[n].writers[id].data != [] ==> states[n].writers[id].status != Finished)
    decreases n
  {
    AlwaysConserved(states, events, size, n);
    assert WriterOk(states[n], id);
    if n > 0 {
      AlwaysConserved(states, events, size, n - 1);
      assert Step(states[n - 1], states[n - 1 + 1], events[n - 1]);
      if id in states[n - 1].writers {
        TinyPipeIsStuck(states, events, size, n - 1, id);
      }
    }
  }

  // What happens to an end while a call waits on it

  /** Others may read, write as other writers, and close. */
  predicate Evolves(e: End, e': End) {
    && e'.size == e.size && Conserved(e') && e.log <= e'.log && e.taken <= e'.taken
    && (e.closed ==> e'.closed && e'.log == e.log)
  }

  /** That is what the steps of the machine do, apart from the waiting writer's own. */
  lemma StepsEvolve(w: World, w': World, ev: Event, size: nat, id: nat)
    requires Good(w, size) && Step(w, w', ev) && ev != Pass(id)
    ensures Evolves(w.e, w'.e) && PlacedBy(w'.e.log, id) == PlacedBy(w.e.log, id)
  {
    StepKeepsGood(w, w', ev, size);
    if ev.Pass? {
      assert WriterOk(w, ev.id);
      OwnPass(w, ev.id);
    }
  }

  // One write, pass by pass

  /** The bytes placed by a write of `total` bytes that sees the peer as `looks`, pass by pass. */
  function Moved(looks: seq<End>, total: nat): (m: nat)
    ensures m <= total
  {
    if looks == [] then 0
    else
      var m := Moved(looks[..|looks| - 1], total);
      var k := ChunkSize(looks[|looks| - 1], total - m);
      if k < 0 then m else m + k
  }

  /** The peer right after the last of these passes. */
  function AfterLooks(start: End, looks: seq<End>, b: seq<byte>, writer: nat): End {
    if looks == [] then start
    else
      var from, to := Moved(looks[..|looks| - 1], |b|), Moved(looks, |b|);
      Place(looks[|looks| - 1], writer, if from <= to then b[from..to] else [])
  }

  /** What others may do while `writer` waits. */
  predicate EvolvesFor(e: End, e': End, writer: nat) {
    Evolves(e, e') && PlacedBy(e'.log, writer) == PlacedBy(e.log, writer)
  }

  /** Each pass found the peer open with something left to write.  Between passes nobody else got at it
      unless it was full: then, before pass `expires`, the write waited, and others may have changed it. */
  predicate Watched(start: End, looks: seq<End>, b: seq<byte>, writer: nat, expires: nat) {
    looks == []
    || (&& Watched(start, looks[..|looks| - 1], b, writer, expires)
        && Moved(looks[..|looks| - 1], |b|) < |b| && !looks[|looks| - 1].closed
        && NextLook(AfterLooks(start, looks[..|looks| - 1], b, writer), looks[|looks| - 1], writer, |looks| - 1, expires))
  }

  /** Pass `k` left the peer as `e`, and the next one sees it as `e'`. */
  predicate NextLook(e: End, e': End, writer: nat, k: nat, expires: nat) {
    if Room(e) == 0 then k < expires && EvolvesFor(e, e', writer) else e' == e
  }

  /** How many of these passes found room. */
  function Roomy(looks: seq<End>): nat {
    if looks == [] then 0 else Roomy(looks[..|looks| - 1]) + (if Room(looks[|looks| - 1]) > 0 then 1 else 0)
  }

  lemma MovedMore(looks: seq<End>, e: End, total: nat)
    ensures var m := Moved(looks, total); var k := ChunkSize(e, total - m);
            Moved(looks + [e], total) == if k < 0 then m else m + k
  {
    assert (looks + [e])[..|looks|] == looks;
  }

  lemma WatchedMore(start: End, looks: seq<End>, e: End, b: seq<byte>, writer: nat, expires: nat)
    requires Watched(start, looks, b, writer, expires) && Moved(looks, |b|) < |b| && !e.closed
    requires NextLook(AfterLooks(start, looks, b, writer), e, writer, |looks|, expires)
    ensures Watched(start, looks + [e], b, writer, expires)
    ensures var from, to := Moved(looks, |b|), Moved(looks + [e], |b|);
            from <= to && AfterLooks(start, looks + [e], b, writer) == Place(e, writer, b[from..to])
  {
    MovedMore(looks, e, |b|);
    assert (looks + [e])[..|looks|] == looks;
  }

  lemma {:induction false} SameSize(start: End, looks: seq<End>, b: seq<byte>, writer: nat, expires: nat)
    requires Watched(start, looks, b, writer, expires)
    ensures AfterLooks(start, looks, b, writer).size == start.size
    ensures looks != [] ==> looks[|looks| - 1].size == start.size
    decreases |looks|
  {
    hide PlacedBy, Conserved, ChunkSize, Moved;
    if looks != [] {
      SameSize(start, looks[..|looks| - 1], b, writer, expires);
    }
  }

  /** A write with a pipe of at least four bytes places a byte in every pass that finds room, until it
      has placed all; with fewer it never places any. */
  lemma {:induction false} LooksMove(start: End, looks: seq<End>, b: seq<byte>, writer: nat, expires: nat)
    requires Watched(start, looks, b, writer, expires)
    ensures if start.size >= 4 then Roomy(looks) <= Moved(looks, |b|) else Moved(looks, |b|) == 0
    decreases |looks|
  {
    hide EvolvesFor, AfterLooks;
    if looks != [] {
      var init, last := looks[..|looks| - 1], looks[|looks| - 1];
      LooksMove(start, init, b, writer, expires);
      SameSize(start, looks, b, writer, expires);
      if Room(last) > 0 {
        PassMoves(last, |b| - Moved(init, |b|));
      }
    }
  }

  /** A write that fits is one: nobody else gets at the peer before all of it is in place, and every pass
      places a byte. */
  lemma {:induction false} FitsAtOnce(start: End, looks: seq<End>, b: seq<byte>, writer: nat, expires: nat)
    requires Watched(start, looks, b, writer, expires) && start.size >= 4 && |b| <= Room(start)
    ensures var m, now := Moved(looks, |b|), AfterLooks(start, looks, b, writer);
            && |looks| <= m && now.buffer == start.buffer + b[..m] && Room(now) == Room(start) - m
            && now.taken == start.taken && now.closed == start.closed
    decreases |looks|
  {
    hide EvolvesFor, Moved, AfterLooks, ChunkSize;
    LastLook(start, looks, b, writer);
    if looks == [] {
      AppendNothing(start.buffer);
    } else {
      var init, last := looks[..|looks| - 1], looks[|looks| - 1];
      FitsAtOnce(start, init, b, writer, expires);
      SameSize(start, looks, b, writer, expires);
      assert last == AfterLooks(start, init, b, writer);
      PassMoves(last, |b| - Moved(init, |b|));
      PlacedBehind(start, last, b, Moved(init, |b|), Moved(looks, |b|), writer);
    }
  }

  lemma LastLook(start: End, looks: seq<End>, b: seq<byte>, writer: nat)
    ensures if looks == [] then Moved(looks, |b|) == 0 && AfterLooks(start, looks, b, writer) == start
            else
              var last, m, to := looks[|looks| - 1], Moved(looks[..|looks| - 1], |b|), Moved(looks, |b|);
              && (ChunkSize(last, |b| - m) >= 0 ==> to == m + ChunkSize(last, |b| - m))
              && (m <= to ==> AfterLooks(start, looks, b, writer) == Place(last, writer, b[m..to]))
              && ChunkSize(last, |b| - m) <= Room(last)
  {
  }

  lemma PlacedBehind(start: End, e: End, b: seq<byte>, m: nat, to: nat, writer: nat)
    requires m <= to <= |b| && e.buffer == start.buffer + b[..m] && e.size == start.size
    ensures var p := Place(e, writer, b[m..to]);
            p.buffer == start.buffer + b[..to] && Room(p) == Room(e) - (to - m)
  {
    Assoc(start.buffer, b[..m], b[m..to]);
    assert b[..m] + b[m..to] == b[..to];
  }
}
