/** Key derivation of internal/protocol/zap/crypto.go: HKDF (RFC 5869) over an arbitrary keyed hash. */
module Hkdf {
  import opened Bytes

  /** A keyed hash with outputs of `size` bytes, as `hmac.New` builds from a hash. */
  datatype Hash = Hash(size: nat, mac: (seq<byte>, seq<byte>) -> seq<byte>)

  ghost predicate Sized(h: Hash) {
    h.size > 0 && forall k: seq<byte>, d: seq<byte> :: |h.mac(k, d)| == h.size
  }

  datatype HkdfError = ShortPrk | TooLong | OutOfRange

  /** T(i) of section 2.3 of RFC 5869. */
  function T(h: Hash, prk: seq<byte>, info: seq<byte>, i: nat): seq<byte>
    requires i <= 255
  {
    if i == 0 then [] else h.mac(prk, T(h, prk, info, i - 1) + info + [i as byte])
  }

  /** T(1) to T(n), one after the other. */
  function Blocks(h: Hash, prk: seq<byte>, info: seq<byte>, n: nat): seq<byte>
    requires n <= 255
  {
    if n == 0 then [] else Blocks(h, prk, info, n - 1) + T(h, prk, info, n)
  }

  lemma {:induction false} BlocksLength(h: Hash, prk: seq<byte>, info: seq<byte>, n: nat)
    requires Sized(h) && n <= 255
    ensures |Blocks(h, prk, info, n)| == n * h.size
  {
    if n > 0 {
      BlocksLength(h, prk, info, n - 1);
    }
  }

  lemma {:induction false} BlocksPrefix(h: Hash, prk: seq<byte>, info: seq<byte>, m: nat, n: nat)
    requires m <= n <= 255
    ensures Blocks(h, prk, info, m) <= Blocks(h, prk, info, n)
    decreases n - m
  {
    if m < n {
      BlocksPrefix(h, prk, info, m, n - 1);
    }
  }

  /** The number of blocks that cover `length` bytes. */
  function Rounds(length: nat, size: nat): nat
    requires size > 0
  {
    (length + size - 1) / size
  }

  lemma RoundsCover(length: nat, size: nat)
    requires size > 0
    ensures var n := Rounds(length, size); length <= n * size < length + size
  {
    var n := Rounds(length, size);
    assert length + size - 1 == n * size + (length + size - 1) % size;
  }

  lemma MulMonotone(a: nat, b: nat, size: nat)
    requires a <= b
    ensures a * size <= b * size
  {
  }

  lemma RoundsMonotone(short: nat, long: nat, size: nat)
    requires size > 0 && short <= long
    ensures Rounds(short, size) <= Rounds(long, size)
  {
    RoundsCover(short, size);
    RoundsCover(long, size);
    if Rounds(short, size) > Rounds(long, size) {
      MulMonotone(Rounds(long, size) + 1, Rounds(short, size), size);
    }
  }

  /** The block counter fits its byte exactly for lengths of up to 255 hashes. */
  lemma RoundsFit(length: nat, size: nat)
    requires size > 0
    ensures Rounds(length, size) <= 255 <==> length <= 255 * size
  {
    RoundsCover(length, size);
    if Rounds(length, size) <= 255 {
      MulMonotone(Rounds(length, size), 255, size);
    } else {
      MulMonotone(256, Rounds(length, size), size);
    }
  }

  /** The output of HKDF-Expand: the first `length` bytes of the blocks. */
  function Output(h: Hash, prk: seq<byte>, info: seq<byte>, length: nat): seq<byte>
    requires h.size > 0 && Rounds(length, h.size) <= 255
    requires length <= |Blocks(h, prk, info, Rounds(length, h.size))|
  {
    Blocks(h, prk, info, Rounds(length, h.size))[..length]
  }

  lemma OutputDefined(h: Hash, prk: seq<byte>, info: seq<byte>, length: nat)
    requires Sized(h) && length <= 255 * h.size
    ensures Rounds(length, h.size) <= 255 && length <= |Blocks(h, prk, info, Rounds(length, h.size))|
  {
    RoundsFit(length, h.size);
    RoundsCover(length, h.size);
    BlocksLength(h, prk, info, Rounds(length, h.size));
  }

  /** A shorter output is a prefix of a longer one. */
  lemma OutputPrefix(h: Hash, prk: seq<byte>, info: seq<byte>, short: nat, long: nat)
    requires Sized(h) && short <= long <= 255 * h.size
    requires Rounds(long, h.size) <= 255 && long <= |Blocks(h, prk, info, Rounds(long, h.size))|
    ensures Rounds(short, h.size) <= 255 && short <= |Blocks(h, prk, info, Rounds(short, h.size))|
    ensures |Output(h, prk, info, short)| == short && Output(h, prk, info, short) <= Output(h, prk, info, long)
  {
    OutputDefined(h, prk, info, short);
    RoundsMonotone(short, long, h.size);
    BlocksPrefix(h, prk, info, Rounds(short, h.size), Rounds(long, h.size));
  }

  /** `hkdfExtract`. */
  function Extract(h: Hash, salt: seq<byte>, ikm: seq<byte>): seq<byte> {
    h.mac(if salt == [] then seq(h.size, _ => 0 as byte) else salt, ikm)
  }

  /** `hkdfExpand`.  A negative length passes the check of the number of rounds and then slices
      out of range. */
  method Expand(h: Hash, prk: seq<byte>, info: seq<byte>, length: int) returns (r: Result<seq<byte>, HkdfError>)
    requires Sized(h)
    ensures |prk| < h.size <==> r == Err(ShortPrk)
    ensures |prk| >= h.size && length > 255 * h.size <==> r == Err(TooLong)
    ensures |prk| >= h.size && length < 0 <==> r == Err(OutOfRange)
    ensures r.Ok? ==>
              && Rounds(length, h.size) <= 255 && length <= |Blocks(h, prk, info, Rounds(length, h.size))|
              && r.value == Output(h, prk, info, length)
  {
    if |prk| < h.size {
      return Err(ShortPrk);
    }
    if length < 0 {
      return Err(OutOfRange);
    }
    var n := (length + h.size - 1) / h.size;
    RoundsFit(length, h.size);
    if n > 255 {
      return Err(TooLong);
    }
    var okm: seq<byte> := [];
    var t: seq<byte> := [];
    var i := 1;
    while i <= n
      invariant 1 <= i <= n + 1
      invariant t == T(h, prk, info, i - 1) && okm == Blocks(h, prk, info, i - 1)
    {
      t := h.mac(prk, t + info + [Low(i)]);
      okm := okm + t;
      i := i + 1;
    }
    OutputDefined(h, prk, info, length);
    r := Ok(okm[..length]);
  }

  /** `simpleHKDF`: the extracted key is always long enough. */
  method SimpleHkdf(h: Hash, secret: seq<byte>, salt: seq<byte>, info: seq<byte>, length: int)
    returns (r: Result<seq<byte>, HkdfError>)
    requires Sized(h)
    ensures r.Ok? <==> 0 <= length <= 255 * h.size
    ensures r.Ok? ==>
              var prk := Extract(h, salt, secret);
              && Rounds(length, h.size) <= 255 && length <= |Blocks(h, prk, info, Rounds(length, h.size))|
              && r.value == Output(h, prk, info, length) && |r.value| == length
  {
    var prk := Extract(h, salt, secret);
    assert |prk| == h.size;
    r := Expand(h, prk, info, length);
    assert r.Err? ==> r.error == ShortPrk || r.error == TooLong || r.error == OutOfRange;
  }
}
