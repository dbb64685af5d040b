/** Machine words, byte-order conversions and the small wrapper datatypes that every
    other module shares.

    Words are subset types of `int`.  Go's shifts and masks by constants are
    written as division and remainder by the corresponding power of two, and wrap-around is
    always explicit. */
module Bytes {
  newtype byte = b: int | 0 <= b < 0x100
  type uint16 = n: int | 0 <= n < 0x1_0000
  type uint32 = n: int | 0 <= n < 0x1_0000_0000

  const TWO_TO_THE_16: int := 0x1_0000
  const TWO_TO_THE_32: int := 0x1_0000_0000

  datatype Option<+T> = None | Some(value: T)

  datatype Result<+T, +E> = Ok(value: T) | Err(error: E)

  /** Conversion to a 16-bit unsigned word, as Go's `uint16(n)`. */
  function Wrap16(n: int): uint16 {
    n % TWO_TO_THE_16
  }

  /** Conversion to a 32-bit unsigned word, as Go's `uint32(n)`. */
  function Wrap32(n: int): uint32 {
    n % TWO_TO_THE_32
  }

  /** Adding in two wrapped steps is adding once and wrapping. */
  lemma WrapTwice(a: int, b: int)
    ensures Wrap32(Wrap32(a) + b) == Wrap32(a + b)
  {
    var q := a / TWO_TO_THE_32;
    assert a == q * TWO_TO_THE_32 + Wrap32(a);
    WrapPeriod(Wrap32(a) + b, q);
  }

  lemma {:induction false} WrapPeriod(a: int, k: int)
    ensures Wrap32(a + k * TWO_TO_THE_32) == Wrap32(a)
    decreases if k < 0 then -k else k
  {
    if k > 0 {
      WrapPeriod(a, k - 1);
    } else if k < 0 {
      WrapPeriod(a, k + 1);
    }
  }

  // Sequence facts, kept apart so that a proof pays for them only where it needs them

  lemma Assoc<T>(a: seq<T>, b: seq<T>, c: seq<T>)
    ensures (a + b) + c == a + (b + c)
  {
  }

  lemma AppendNothing<T>(s: seq<T>)
    ensures s + [] == s && [] + s == s
  {
  }

  lemma FirstAndRest<T>(s: seq<T>)
    requires s != []
    ensures s == [s[0]] + s[1..]
  {
  }

  lemma AppendFirst<T>(s: seq<T>, t: seq<T>)
    requires s != []
    ensures (s + t)[0] == s[0] && (s + t)[1..] == s[1..] + t
  {
  }

  /** A prefix of a longer string is cut off again by slicing. */
  lemma PrefixOfAppend<T>(a: seq<T>, b: seq<T>)
    ensures (a + b)[..|a|] == a && (a + b)[|a|..] == b
  {
  }

  lemma TakeOfAppend<T>(a: seq<T>, b: seq<T>, k: nat)
    requires |a| <= k <= |a| + |b|
    ensures (a + b)[..k] == a + b[..k - |a|]
  {
  }

  lemma SplitAt<T>(s: seq<T>, k: nat)
    requires k <= |s|
    ensures s[..k] + s[k..] == s
  {
  }

  /** Go's `byte(n)`. */
  function Low(n: nat): byte {
    (n % 0x100) as byte
  }

  function Min(a: int, b: int): int {
    if a <= b then a else b
  }

  /** The two bytes `byte(n >> 8), byte(n)`; bits above the sixteenth are lost. */
  function Be16(n: nat): seq<byte> {
    [Low(n / 0x100), Low(n)]
  }

  function FromBe16(hi: byte, lo: byte): uint16 {
    hi as int * 0x100 + lo as int
  }

  function Be32(n: uint32): seq<byte> {
    [Low(n / 0x100_0000), Low(n / 0x1_0000), Low(n / 0x100), Low(n)]
  }

  function FromBe32(b: seq<byte>): uint32
    requires |b| == 4
  {
    b[0] as int * 0x100_0000 + b[1] as int * 0x1_0000 + b[2] as int * 0x100 + b[3] as int
  }

  function Le16(n: uint16): seq<byte> {
    [Low(n), Low(n / 0x100)]
  }

  function FromLe16(b: seq<byte>): uint16
    requires |b| == 2
  {
    b[0] as int + b[1] as int * 0x100
  }

  function Le32(n: uint32): seq<byte> {
    [Low(n), Low(n / 0x100), Low(n / 0x1_0000), Low(n / 0x100_0000)]
  }

  function FromLe32(b: seq<byte>): uint32
    requires |b| == 4
  {
    b[0] as int + b[1] as int * 0x100 + b[2] as int * 0x1_0000 + b[3] as int * 0x100_0000
  }

  lemma BigEndian16(n: uint16)
    ensures FromBe16(Be16(n)[0], Be16(n)[1]) == n
  {
  }

  lemma {:induction false} LowPeriod(a: nat, k: nat)
    ensures Low(a + k * 0x100) == Low(a)
  {
    if k > 0 {
      LowPeriod(a, k - 1);
      assert a + k * 0x100 == (a + (k - 1) * 0x100) + 0x100;
      NextPeriod(a + (k - 1) * 0x100);
    }
  }

  lemma NextPeriod(n: nat)
    ensures Low(n + 0x100) == Low(n)
  {
  }

  /** Two bytes keep sixteen bits. */
  lemma Be16Wraps(n: nat)
    ensures Be16(n) == Be16(Wrap16(n))
  {
    var q, m := n / TWO_TO_THE_16, Wrap16(n);
    assert n == m + q * 0x100 * 0x100;
    LowPeriod(m, q * 0x100);
    assert n / 0x100 == m / 0x100 + q * 0x100;
    LowPeriod(m / 0x100, q);
  }

  lemma BigEndian16Back(hi: byte, lo: byte)
    ensures Be16(FromBe16(hi, lo)) == [hi, lo]
  {
  }

  /** The four digits of a word to base 256, from the two digits of either half. */
  lemma HalfWords(n: uint32)
    ensures var hi, lo := n / 0x1_0000, n % 0x1_0000;
            && Low(n / 0x100_0000) == Low(hi / 0x100) && Low(n / 0x1_0000) == Low(hi)
            && Low(n / 0x100) == Low(lo / 0x100) && Low(n) == Low(lo)
  {
    var hi, lo := n / 0x1_0000, n % 0x1_0000;
    assert n == hi * 0x1_0000 + lo;
    assert n / 0x100 == hi * 0x100 + lo / 0x100;
  }

  lemma BigEndian32(n: uint32)
    ensures FromBe32(Be32(n)) == n
  {
    HalfWords(n);
    BigEndian16(n / 0x1_0000);
    BigEndian16(n % 0x1_0000);
  }

  lemma LittleEndian16(n: uint16)
    ensures FromLe16(Le16(n)) == n
  {
  }

  lemma LittleEndian32(n: uint32)
    ensures FromLe32(Le32(n)) == n
  {
    HalfWords(n);
    BigEndian16(n / 0x1_0000);
    BigEndian16(n % 0x1_0000);
  }

  /** `copy(a[at:], s)`. */
  method CopyTo(a: array<byte>, at: nat, s: seq<byte>)
    requires at + |s| <= a.Length
    modifies a
    ensures a[..at + |s|] == old(a[..at]) + s
    ensures forall j :: at + |s| <= j < a.Length ==> a[j] == old(a[j])
  {
    var i := 0;
    while i < |s|
      invariant 0 <= i <= |s| && a[..at + i] == old(a[..at]) + s[..i]
      invariant forall j :: at + |s| <= j < a.Length ==> a[j] == old(a[j])
    {
      a[at + i] := s[i];
      i := i + 1;
    }
    assert s[..|s|] == s;
  }
}
