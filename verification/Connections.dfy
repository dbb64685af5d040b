/** The byte connection under the transports (an `io.ReadWriteCloser`).  Where the network cuts the
    stream, whether a read times out and whether a write fails are left open; what the connection has
    answered is on record, so that a caller's failures can be held against it. */
module Connections {
  import opened Bytes

  /** `Last` is a piece that comes together with an error, which may be a timeout, as an `io.Reader` may
      return it. */
  datatype ReadResult = Read(bytes: seq<byte>) | Last(bytes: seq<byte>, timeout: bool) | Timeout | Failed

  /** How many bytes a caller that does not look at last pieces has got. */
  function Taken(r: ReadResult): nat {
    if r.Read? then |r.bytes| else 0
  }

  /** What a caller gets that keeps reading until an error comes. */
  function BytesOf(answers: seq<ReadResult>): seq<byte> {
    if answers == [] then []
    else
      var r := answers[|answers| - 1];
      BytesOf(answers[..|answers| - 1]) + (if r.Read? then r.bytes else [])
  }

  lemma BytesMore(answers: seq<ReadResult>, r: ReadResult)
    ensures BytesOf(answers + [r]) == BytesOf(answers) + (if r.Read? then r.bytes else [])
  {
    assert (answers + [r])[..|answers|] == answers;
  }

  class Conn {
    var incoming: seq<byte>       // sent by the peer and not yet read here
    var outgoing: seq<byte>       // everything written here so far
    var ended: bool               // an error has come with a last piece, and nothing comes after it
    ghost var dropped: seq<byte>  // that piece
    ghost var answers: seq<ReadResult>  // to every read so far
    ghost var refused: nat        // how many writes have failed

    constructor ()
      ensures incoming == [] && outgoing == [] && !ended
    {
      incoming, outgoing, ended, dropped := [], [], false, [];
      answers, refused := [], 0;
    }

    /** What the peer has sent and no read has returned without an error. */
    ghost function Coming(): seq<byte>
      reads this
    {
      if ended then dropped + incoming else incoming
    }

    /** Once the connection has ended nothing more is read from it, and nothing is struck off the record. */
    twostate predicate Later()
      reads this
    {
      && (old(ended) ==> ended && incoming == old(incoming) && dropped == old(dropped))
      && (ended && !old(ended) ==> dropped != [])
      && old(answers) <= answers && old(refused) <= refused && |Coming()| <= |old(Coming())|
    }

    /** What the reads since have been answered. */
    twostate function Answered(): seq<ReadResult>
      requires Later()
      reads this
    {
      answers[|old(answers)|..]
    }

    /** Takes a non-empty piece of what has arrived, at most `max` bytes, or fails. */
    method Receive(max: nat) returns (r: ReadResult)
      modifies this`incoming, this`ended, this`dropped, this`answers
      ensures Later() && answers == old(answers) + [r]
      ensures r.Read? ==> 1 <= |r.bytes| <= max && !old(ended) && !ended && old(incoming) == r.bytes + incoming
      ensures r.Last? ==> 1 <= |r.bytes| <= max && !old(ended) && ended && dropped == r.bytes
      ensures !r.Read? ==> Coming() == old(Coming())
    {
      r := Timeout;
      if * {
        r := Failed;
      } else if max > 0 && incoming != [] && !ended {
        var k :| 1 <= k <= max && k <= |incoming|;
        if * {
          r := Read(incoming[..k]);
          incoming := incoming[k..];
        } else if * {
          var timeout: bool := *;
          r, ended, dropped := Last(incoming[..k], timeout), true, incoming[..k];
          incoming := incoming[k..];
        }
      }
      answers := answers + [r];
    }

    /** Writes all of `b`, or fails with some prefix of it written. */
    method Send(b: seq<byte>) returns (ok: bool)
      modifies this`outgoing, this`refused
      ensures refused == old(refused) + (if ok then 0 else 1)
      ensures ok ==> outgoing == old(outgoing) + b
      ensures !ok ==> exists k: nat :: k <= |b| && outgoing == old(outgoing) + b[..k]
    {
      if * {
        outgoing := outgoing + b;
        ok := true;
      } else {
        var k :| 0 <= k <= |b|;
        outgoing, refused := outgoing + b[..k], refused + 1;
        ok := false;
      }
    }
  }
}
