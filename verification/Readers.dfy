/** A byte source that hands out what has arrived. */
module Readers {
  import opened Bytes

  /** An `io.Reader` over bytes that are all there. */
  class ByteReader {
    var data: seq<byte>

    constructor (data: seq<byte>)
      ensures this.data == data
    {
      this.data := data;
    }

    /** `io.ReadFull`: takes `n` bytes, or everything there is and fails. */
    method ReadFull(n: nat) returns (ok: bool, b: seq<byte>)
      modifies this
      ensures ok <==> n <= |old(data)|
      ensures if ok then b == old(data)[..n] && data == old(data)[n..] else data == []
    {
      if n <= |data| {
        ok, b := true, data[..n];
        data := data[n..];
      } else {
        ok, b := false, data;
        data := [];
      }
    }
  }
}
