/** The Internet checksum of internal/tunproxy/proxy_interface.go (section 1 of RFC 1071), and why
    data that carries its checksum sums to zero. */
module Checksum {
  import opened Bytes

  /** The sum of the big-endian 16-bit words, an odd last byte being a high byte. */
  function WordSum(data: seq<byte>): nat {
    if data == [] then 0
    else if |data| == 1 then data[0] as int * 0x100
    else FromBe16(data[0], data[1]) + WordSum(data[2..])
  }

  /** What folding the carries leaves of a sum: its residue modulo 65535, in 1..65535 unless the
      sum is zero. */
  function Residue(sum: nat): uint16 {
    if sum == 0 then 0 else 1 + (sum - 1) % 0xFFFF
  }

  /** Longest data whose sum cannot overflow 32 bits. */
  const MAX_SUMMED: nat := 131074

  lemma {:induction false} WordSumBound(data: seq<byte>)
    ensures WordSum(data) <= 0xFFFF * ((|data| + 1) / 2)
    decreases |data|
  {
    if |data| >= 2 {
      WordSumBound(data[2..]);
    }
  }

  lemma NoOverflow(data: seq<byte>)
    requires |data| <= MAX_SUMMED
    ensures WordSum(data) < TWO_TO_THE_32
  {
    WordSumBound(data);
    assert (|data| + 1) / 2 <= 65537;
  }

  lemma {:induction false} WordSumAppend(a: seq<byte>, b: seq<byte>)
    requires |a| % 2 == 0
    ensures WordSum(a + b) == WordSum(a) + WordSum(b)
    decreases |a|
  {
    if a == [] {
      assert a + b == b;
    } else {
      assert (a + b)[2..] == a[2..] + b;
      WordSumAppend(a[2..], b);
    }
  }

  /** One step of folding keeps the residue. */
  lemma FoldStep(sum: nat)
    requires sum >= 0x1_0000
    ensures var next := sum % 0x1_0000 + sum / 0x1_0000;
            0 < next < sum && Residue(next) == Residue(sum)
  {
    var q, next := sum / 0x1_0000, sum % 0x1_0000 + sum / 0x1_0000;
    assert sum - 1 == (next - 1) + q * 0xFFFF;
    ModPeriod(next - 1, q);
  }

  lemma {:induction false} ModPeriod(a: nat, q: nat)
    ensures (a + q * 0xFFFF) % 0xFFFF == a % 0xFFFF
  {
    if q > 0 {
      ModPeriod(a, q - 1);
      AddModulus(a + (q - 1) * 0xFFFF);
    }
  }

  lemma AddModulus(n: nat)
    ensures (n + 0xFFFF) % 0xFFFF == n % 0xFFFF
  {
  }

  /** `calculateChecksum`: the complement of the folded 32-bit sum. */
  method CalculateChecksum(data: seq<byte>) returns (c: uint16)
    ensures c == 0xFFFF - Residue(Wrap32(WordSum(data)))
  {
    var sum := AddWords(data);
    while sum / 0x1_0000 != 0
      invariant Residue(sum) == Residue(Wrap32(WordSum(data)))
      decreases sum
    {
      FoldStep(sum);
      sum := sum % 0x1_0000 + sum / 0x1_0000;
    }
    SmallResidue(sum);
    c := 0xFFFF - sum;
  }

  /** Its first loop, which adds the words in 32 bits. */
  method AddWords(data: seq<byte>) returns (sum: uint32)
    ensures sum == Wrap32(WordSum(data))
  {
    hide WordSum, FromBe16;
    sum := 0;
    var length, i := |data|, 0;
    ghost var total: nat := 0;
    assert data[0..] == data;
    while i < length - 1
      invariant 0 <= i <= length && i % 2 == 0
      invariant sum == Wrap32(total) && total + WordSum(data[i..]) == WordSum(data)
    {
      DropTwo(data, i);
      WrapTwice(total, FromBe16(data[i], data[i + 1]));
      sum, total := Wrap32(sum + FromBe16(data[i], data[i + 1])), total + FromBe16(data[i], data[i + 1]);
      i := i + 2;
    }
    LastByte(data, i);
    if length % 2 == 1 {
      WrapTwice(total, data[length - 1] as int * 0x100);
      sum := Wrap32(sum + data[length - 1] as int * 0x100);
    }
  }

  lemma LastByte(data: seq<byte>, i: nat)
    requires |data| - 1 <= i <= |data| && i % 2 == 0
    ensures WordSum(data[i..]) == if |data| % 2 == 1 then data[|data| - 1] as int * 0x100 else 0
  {
  }

  lemma DropTwo(data: seq<byte>, i: nat)
    requires i + 1 < |data|
    ensures data[i..][2..] == data[i + 2..]
    ensures WordSum(data[i..]) == FromBe16(data[i], data[i + 1]) + WordSum(data[i + 2..])
  {
    assert data[i..][2..] == data[i + 2..];
  }

  lemma SmallResidue(sum: nat)
    requires sum < 0x1_0000
    ensures Residue(sum) == sum
  {
  }

  /** The checksum as a value, for the laws below. */
  function Sum(data: seq<byte>): uint16 {
    0xFFFF - Residue(Wrap32(WordSum(data)))
  }

  lemma SumOf(data: seq<byte>)
    requires |data| <= MAX_SUMMED
    ensures Sum(data) == 0xFFFF - Residue(WordSum(data))
  {
    NoOverflow(data);
  }

  predicate SumsToZero(s: nat) {
    s > 0 && s % 0xFFFF == 0
  }

  lemma FullResidue(s: nat)
    ensures Residue(s) == 0xFFFF <==> SumsToZero(s)
  {
  }

  /** A checksum verifies exactly when the words sum to a positive multiple of 65535. */
  lemma VerifiesWhen(data: seq<byte>)
    requires |data| <= MAX_SUMMED
    ensures Sum(data) == 0 <==> SumsToZero(WordSum(data))
  {
    SumOf(data);
    FullResidue(WordSum(data));
  }

  /** Data with its checksum stored, at an even offset, in a field that was zero when it was
      computed: the whole then sums to zero. */
  lemma StoredChecksumVerifies(before: seq<byte>, after: seq<byte>)
    requires |before| % 2 == 0 && |before| + 2 + |after| <= MAX_SUMMED
    ensures Sum(before + Be16(Sum(before + [0, 0] + after)) + after) == 0
  {
    var zero := before + [0, 0] + after;
    var c := Sum(zero);
    FieldAdds(before, 0, after);
    FieldAdds(before, c, after);
    assert Be16(0) == [0, 0];
    SumOf(zero);
    ComplementSums(WordSum(zero));
    VerifiesWhen(before + Be16(c) + after);
  }

  lemma FieldAdds(before: seq<byte>, c: uint16, after: seq<byte>)
    requires |before| % 2 == 0
    ensures WordSum(before + Be16(c) + after) == WordSum(before) + c + WordSum(after)
  {
    WordSumAppend(before + Be16(c), after);
    WordSumAppend(before, Be16(c));
    assert WordSum(Be16(c)) == FromBe16(Be16(c)[0], Be16(c)[1]) + WordSum(Be16(c)[2..]);
  }

  lemma ComplementSums(s: nat)
    ensures SumsToZero(s + (0xFFFF - Residue(s)))
  {
    if s > 0 {
      var q, r := (s - 1) / 0xFFFF, (s - 1) % 0xFFFF;
      assert s + (0xFFFF - Residue(s)) == 0 + (q + 1) * 0xFFFF;
      ModPeriod(0, q + 1);
    }
  }

  /** A verifying message in which one word is replaced still verifies exactly when the two words
      are equal modulo 65535: any other change of one word is noticed. */
  lemma ChangedWordNoticed(before: seq<byte>, w: uint16, w': uint16, after: seq<byte>)
    requires |before| % 2 == 0 && |before| + 2 + |after| <= MAX_SUMMED
    requires Sum(before + Be16(w) + after) == 0 && WordSum(before) + WordSum(after) > 0
    ensures Sum(before + Be16(w') + after) == 0 <==> w % 0xFFFF == w' % 0xFFFF
  {
    VerifiesWhen(before + Be16(w) + after);
    VerifiesWhen(before + Be16(w') + after);
    ChangedWordSum(before, w, w', after);
  }

  lemma ChangedWordSum(before: seq<byte>, w: uint16, w': uint16, after: seq<byte>)
    requires |before| % 2 == 0 && WordSum(before) + WordSum(after) > 0
    requires SumsToZero(WordSum(before + Be16(w) + after))
    ensures SumsToZero(WordSum(before + Be16(w') + after)) <==> w % 0xFFFF == w' % 0xFFFF
  {
    FieldAdds(before, w, after);
    FieldAdds(before, w', after);
    SameResidue(WordSum(before) + WordSum(after), w, w');
  }

  lemma SameResidue(s: nat, a: nat, b: nat)
    requires (s + a) % 0xFFFF == 0
    ensures (s + b) % 0xFFFF == 0 <==> a % 0xFFFF == b % 0xFFFF
  {
    var q, x, y := (s + a) / 0xFFFF, a / 0xFFFF, b / 0xFFFF;
    if a % 0xFFFF == b % 0xFFFF {
      assert s + b == 0 + (q - x + y) * 0xFFFF;
      ModPeriod(0, q - x + y);
    }
    if (s + b) % 0xFFFF == 0 {
      var p := (s + b) / 0xFFFF;
      assert a - b == (q - p) * 0xFFFF;
      if q >= p {
        ModPeriod(b, q - p);
      } else {
        ModPeriod(a, p - q);
      }
    }
  }
}
