/** The Internet checksum of kernel/ipv4.c (sections 1 and 2 of RFC 1071). */
module Checksum {
  import opened Machine

  const ONES := 0xffff

  /** Big-endian 16-bit value of two bytes. */
  function Be16(hi: Byte, lo: Byte): (w: int)
    ensures 0 <= w <= ONES
  {
    var h: int, l: int := hi, lo;
    h * 256 + l
  }

  /** The sum of the big-endian words of `data`; an odd last byte counts as a high byte. */
  function WordSum(data: seq<Byte>): (s: int)
    ensures 0 <= s <= (|data| + 1) / 2 * ONES
  {
    if |data| == 0 then 0
    else if |data| == 1 then Be16(data[0], 0)
    else Be16(data[0], data[1]) + WordSum(data[2..])
  }

  /** The sum as the 32-bit accumulator keeps it. */
  function Sum32(data: seq<Byte>, sum: nat): (s: nat)
    decreases |data|
  {
    if |data| == 0 then sum
    else if |data| == 1 then (sum + Be16(data[0], 0)) % TWO_32
    else Sum32(data[2..], (sum + Be16(data[0], data[1])) % TWO_32)
  }

  lemma {:induction false} Sum32Exact(data: seq<Byte>, sum: nat)
    requires sum + WordSum(data) < TWO_32
    ensures Sum32(data, sum) == sum + WordSum(data)
    decreases |data|
  {
    hide Be16;
    if |data| == 1 {
      Fits32(sum + Be16(data[0], 0));
    } else if |data| > 1 {
      Fits32(sum + Be16(data[0], data[1]));
      Sum32Exact(data[2..], sum + Be16(data[0], data[1]));
    }
  }

  lemma Fits32(x: nat)
    requires x < TWO_32
    ensures x % TWO_32 == x
  {
  }

  /** One round of the fold: high half added to low half. */
  function FoldOnce(sum: nat): (s: nat)
    ensures sum / 0x1_0000 > 0 ==> s < sum
  {
    sum % 0x1_0000 + sum / 0x1_0000
  }

  function Fold(sum: nat): (s: nat)
    ensures s <= ONES
  {
    if sum / 0x1_0000 == 0 then sum else Fold(FoldOnce(sum))
  }

  /** The one's complement representative of `s` modulo 65535: zero only for zero. */
  function Residue(s: nat): (r: nat)
    ensures r <= ONES
  {
    if s == 0 then 0 else (s - 1) % ONES + 1
  }

  lemma FoldOnceResidue(sum: nat)
    ensures Residue(FoldOnce(sum)) == Residue(sum)
  {
    var q, r := sum / 0x1_0000, sum % 0x1_0000;
    assert sum == q * 0x1_0000 + r;
    assert sum == FoldOnce(sum) + q * ONES;
    if sum > 0 {
      assert FoldOnce(sum) > 0;
      ModShift(FoldOnce(sum) - 1, q);
    }
  }

  lemma {:induction false} ModShift(x: int, q: nat)
    ensures (x + q * ONES) % ONES == x % ONES
    decreases q
  {
    if q > 0 {
      ModShift(x, q - 1);
      AddOnes(x + (q - 1) * ONES);
      assert x + q * ONES == x + (q - 1) * ONES + ONES;
    }
  }

  lemma AddOnes(x: int)
    ensures (x + ONES) % ONES == x % ONES
  {
  }

  /** The fold loop computes the sum modulo 65535, with 65535 for the non-zero multiples. */
  lemma {:induction false} FoldIsResidue(sum: nat)
    ensures Fold(sum) == Residue(sum)
    decreases sum
  {
    if sum / 0x1_0000 > 0 {
      FoldIsResidue(FoldOnce(sum));
      FoldOnceResidue(sum);
    } else {
      SmallResidue(sum);
    }
  }

  lemma SmallResidue(s: nat)
    requires s <= ONES
    ensures Residue(s) == s
  {
  }

  function ChecksumOf(data: seq<Byte>): (c: int)
    ensures 0 <= c <= ONES
  {
    ONES - Fold(Sum32(data, 0))
  }

  /** The sum of `data` cannot exceed 32 bits. */
  predicate NoWrap(data: seq<Byte>) {
    WordSum(data) < TWO_32
  }

  lemma ShortNoWrap(data: seq<Byte>)
    requires |data| <= 0x1_0000
    ensures NoWrap(data)
  {
  }

  /** The accumulation loop of `ipv4_checksum`, and an odd last byte. */
  method AddWords(data: seq<Byte>) returns (sum: int)
    ensures 0 <= sum && sum == Sum32(data, 0)
  {
    sum := 0;
    var at := 0;
    while |data| - at > 1
      invariant 0 <= at <= |data| && 0 <= sum
      invariant Sum32(data[at..], sum) == Sum32(data, 0)
    {
      var rest := data[at..];
      assert rest[2..] == data[at + 2..];
      sum := (sum + Be16(data[at], data[at + 1])) % TWO_32;
      at := at + 2;
    }
    if at < |data| {
      assert |data[at..]| == 1;
      sum := (sum + Be16(data[at], 0)) % TWO_32;
    }
  }

  /** Its fold loop. */
  method FoldCarries(total: int) returns (sum: int)
    requires 0 <= total
    ensures sum == Fold(total)
  {
    sum := total;
    while sum / 0x1_0000 != 0
      invariant 0 <= sum && Fold(sum) == Fold(total)
      decreases sum
    {
      sum := sum % 0x1_0000 + sum / 0x1_0000;
    }
  }

  /** `ipv4_checksum`. */
  method ComputeChecksum(data: seq<Byte>) returns (c: int)
    ensures c == ChecksumOf(data)
    ensures NoWrap(data) ==> c == ONES - Residue(WordSum(data))
  {
    hide Sum32, Fold, WordSum, Residue;
    var total := AddWords(data);
    var sum := FoldCarries(total);
    if NoWrap(data) {
      Sum32Exact(data, 0);
      FoldIsResidue(total);
    }
    return ONES - sum;
  }

  /** A packet verifies exactly when the word sum is a positive multiple of 65535. */
  lemma VerifiesIff(data: seq<Byte>)
    requires NoWrap(data)
    ensures ChecksumOf(data) == 0 <==> WordSum(data) > 0 && WordSum(data) % ONES == 0
  {
    Sum32Exact(data, 0);
    FoldIsResidue(WordSum(data));
    ResidueOnes(WordSum(data));
  }

  lemma ResidueOnes(s: nat)
    ensures Residue(s) == ONES <==> s > 0 && s % ONES == 0
  {
    if s > 0 {
      AddOnes(s - ONES);
      var q, r := (s - 1) / ONES, (s - 1) % ONES;
      assert s == q * ONES + (r + 1);
      ModShift(r + 1, q);
    }
  }

  // ---- which single-word errors are detected ----

  function SetWordAt(data: seq<Byte>, i: nat, hi: Byte, lo: Byte): (d: seq<Byte>)
    requires 2 * i + 1 < |data|
  {
    data[2 * i := hi][2 * i + 1 := lo]
  }

  lemma {:induction false} SumAfterSet(data: seq<Byte>, i: nat, hi: Byte, lo: Byte)
    requires 2 * i + 1 < |data|
    ensures WordSum(SetWordAt(data, i, hi, lo)) == WordSum(data) - Be16(data[2 * i], data[2 * i + 1]) + Be16(hi, lo)
    decreases i
  {
    var d := SetWordAt(data, i, hi, lo);
    if i == 0 {
      assert d[2..] == data[2..];
    } else {
      assert d[2..] == SetWordAt(data[2..], i - 1, hi, lo);
      SumAfterSet(data[2..], i - 1, hi, lo);
    }
  }

  /** A verifying packet with one 16-bit word changed still verifies exactly when the change is
      between 0x0000 and 0xffff and some other word keeps the sum positive. */
  lemma OneWordChange(data: seq<Byte>, i: nat, hi: Byte, lo: Byte)
    requires 2 * i + 1 < |data| && NoWrap(data) && NoWrap(SetWordAt(data, i, hi, lo))
    requires ChecksumOf(data) == 0
    requires Be16(hi, lo) != Be16(data[2 * i], data[2 * i + 1])
    ensures ChecksumOf(SetWordAt(data, i, hi, lo)) == 0 <==>
            || (Be16(data[2 * i], data[2 * i + 1]) == 0 && Be16(hi, lo) == ONES)
            || (Be16(data[2 * i], data[2 * i + 1]) == ONES && Be16(hi, lo) == 0 && WordSum(data) > ONES)
  {
    hide ChecksumOf, Sum32, WordSum, Be16, NoWrap;
    var d := SetWordAt(data, i, hi, lo);
    VerifiesIff(data);
    VerifiesIff(d);
    SumAfterSet(data, i, hi, lo);
    MultiplesDiffer(WordSum(data), WordSum(d));
  }

  lemma MultiplesDiffer(s: nat, t: nat)
    requires s > 0 && s % ONES == 0 && s != t && -ONES <= t - s <= ONES
    ensures t > 0 && t % ONES == 0 <==> t - s == ONES || (t - s == -ONES && s > ONES)
  {
  }
}
