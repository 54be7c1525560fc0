/** Field arithmetic modulo 2^255 - 19 on limb arrays, updated in place. */
module FieldOps {
  import opened Arithmetic
  import opened Bits
  import opened Limbs

  /** The first n limbs are smaller than b in absolute value. */
  ghost predicate Within(a: array<Limb>, n: nat, b: int)
    reads a
  {
    n <= a.Length && forall i :: 0 <= i < n ==> -b < a[i] as int < b
  }

  /** The number that the first ten limbs of an array represent. */
  ghost function V(a: array<Limb>): int
    requires a.Length >= 10
    reads a
  {
    Value(a[..])
  }

  // -- Products --

  /** The product of two limbs after each was cast to 32 bits. */
  function Mul(x: Limb, y: Limb): (r: Limb)
    requires -0x800_0000 < x < 0x800_0000 && -0x800_0000 < y < 0x800_0000
    ensures r as int == x as int * y as int
    ensures -0x40_0000_0000_0000 < r < 0x40_0000_0000_0000
  {
    ProductBound(x as int, y as int);
    (x as S32) as Limb * (y as S32) as Limb
  }

  lemma ProductBound(x: int, y: int)
    requires -0x800_0000 < x < 0x800_0000 && -0x800_0000 < y < 0x800_0000
    ensures -0x40_0000_0000_0000 < x * y < 0x40_0000_0000_0000
  {
  }

  ghost predicate Narrow(a: seq<Limb>) {
    |a| >= 10 && forall i :: 0 <= i < 10 ==> -0x800_0000 < a[i] < 0x800_0000
  }

  /** The coefficients of a product, written in four stretches; squares below in three. */
  method FProduct0(output: array<Limb>, a: seq<Limb>, b: seq<Limb>)
    requires output.Length >= 19 && Narrow(a) && Narrow(b)
    modifies output
    ensures output[0] as int == Convolution(a, b, 0) && output[1] as int == Convolution(a, b, 1)
    ensures output[2] as int == Convolution(a, b, 2) && output[3] as int == Convolution(a, b, 3)
    ensures output[4] as int == Convolution(a, b, 4) && output[5] as int == Convolution(a, b, 5)
  {
    output[0] := Mul(a[0], b[0]);
    output[1] := Mul(a[0], b[1]) + Mul(a[1], b[0]);
    output[2] := 2 * Mul(a[1], b[1]) + Mul(a[0], b[2]) + Mul(a[2], b[0]);
    output[3] := Mul(a[1], b[2]) + Mul(a[2], b[1]) + Mul(a[0], b[3]) + Mul(a[3], b[0]);
    output[4] := Mul(a[2], b[2]) + 2 * (Mul(a[1], b[3]) + Mul(a[3], b[1])) + Mul(a[0], b[4])
      + Mul(a[4], b[0]);
    output[5] := Mul(a[2], b[3]) + Mul(a[3], b[2]) + Mul(a[1], b[4]) + Mul(a[4], b[1]) + Mul(a[0], b[5])
      + Mul(a[5], b[0]);
  }

  method FProduct6(output: array<Limb>, a: seq<Limb>, b: seq<Limb>)
    requires output.Length >= 19 && Narrow(a) && Narrow(b)
    modifies output
    ensures output[6] as int == Convolution(a, b, 6) && output[7] as int == Convolution(a, b, 7)
    ensures output[8] as int == Convolution(a, b, 8)
    ensures forall k :: 0 <= k < 6 ==> output[k] == old(output[k])
  {
    output[6] := 2 * (Mul(a[3], b[3]) + Mul(a[1], b[5]) + Mul(a[5], b[1])) + Mul(a[2], b[4])
      + Mul(a[4], b[2]) + Mul(a[0], b[6]) + Mul(a[6], b[0]);
    output[7] := Mul(a[3], b[4]) + Mul(a[4], b[3]) + Mul(a[2], b[5]) + Mul(a[5], b[2]) + Mul(a[1], b[6])
      + Mul(a[6], b[1]) + Mul(a[0], b[7]) + Mul(a[7], b[0]);
    output[8] := Mul(a[4], b[4]) + 2 * (Mul(a[3], b[5]) + Mul(a[5], b[3]) + Mul(a[1], b[7])
      + Mul(a[7], b[1])) + Mul(a[2], b[6]) + Mul(a[6], b[2]) + Mul(a[0], b[8]) + Mul(a[8], b[0]);
  }

  method FProduct9(output: array<Limb>, a: seq<Limb>, b: seq<Limb>)
    requires output.Length >= 19 && Narrow(a) && Narrow(b)
    modifies output
    ensures output[9] as int == Convolution(a, b, 9) && output[10] as int == Convolution(a, b, 10)
    ensures output[11] as int == Convolution(a, b, 11)
    ensures forall k :: 0 <= k < 9 ==> output[k] == old(output[k])
  {
    output[9] := Mul(a[4], b[5]) + Mul(a[5], b[4]) + Mul(a[3], b[6]) + Mul(a[6], b[3]) + Mul(a[2], b[7])
      + Mul(a[7], b[2]) + Mul(a[1], b[8]) + Mul(a[8], b[1]) + Mul(a[0], b[9]) + Mul(a[9], b[0]);
    output[10] := 2 * (Mul(a[5], b[5]) + Mul(a[3], b[7]) + Mul(a[7], b[3]) + Mul(a[1], b[9])
      + Mul(a[9], b[1])) + Mul(a[4], b[6]) + Mul(a[6], b[4]) + Mul(a[2], b[8]) + Mul(a[8], b[2]);
    output[11] := Mul(a[5], b[6]) + Mul(a[6], b[5]) + Mul(a[4], b[7]) + Mul(a[7], b[4]) + Mul(a[3], b[8])
      + Mul(a[8], b[3]) + Mul(a[2], b[9]) + Mul(a[9], b[2]);
  }

  method FProduct12(output: array<Limb>, a: seq<Limb>, b: seq<Limb>)
    requires output.Length >= 19 && Narrow(a) && Narrow(b)
    modifies output
    ensures output[12] as int == Convolution(a, b, 12) && output[13] as int == Convolution(a, b, 13)
    ensures output[14] as int == Convolution(a, b, 14) && output[15] as int == Convolution(a, b, 15)
    ensures output[16] as int == Convolution(a, b, 16) && output[17] as int == Convolution(a, b, 17)
    ensures output[18] as int == Convolution(a, b, 18)
    ensures forall k :: 0 <= k < 12 ==> output[k] == old(output[k])
  {
    output[12] := Mul(a[6], b[6]) + 2 * (Mul(a[5], b[7]) + Mul(a[7], b[5]) + Mul(a[3], b[9])
      + Mul(a[9], b[3])) + Mul(a[4], b[8]) + Mul(a[8], b[4]);
    output[13] := Mul(a[6], b[7]) + Mul(a[7], b[6]) + Mul(a[5], b[8]) + Mul(a[8], b[5]) + Mul(a[4], b[9])
      + Mul(a[9], b[4]);
    output[14] := 2 * (Mul(a[7], b[7]) + Mul(a[5], b[9]) + Mul(a[9], b[5])) + Mul(a[6], b[8])
      + Mul(a[8], b[6]);
    output[15] := Mul(a[7], b[8]) + Mul(a[8], b[7]) + Mul(a[6], b[9]) + Mul(a[9], b[6]);
    output[16] := Mul(a[8], b[8]) + 2 * (Mul(a[7], b[9]) + Mul(a[9], b[7]));
    output[17] := Mul(a[8], b[9]) + Mul(a[9], b[8]);
    output[18] := 2 * Mul(a[9], b[9]);
  }

  method FSquareInner0(output: array<Limb>, a: seq<Limb>)
    requires output.Length >= 19 && Narrow(a)
    modifies output
    ensures output[0] as int == Convolution(a, a, 0) && output[1] as int == Convolution(a, a, 1)
    ensures output[2] as int == Convolution(a, a, 2) && output[3] as int == Convolution(a, a, 3)
    ensures output[4] as int == Convolution(a, a, 4) && output[5] as int == Convolution(a, a, 5)
    ensures output[6] as int == Convolution(a, a, 6)
  {
    output[0] := Mul(a[0], a[0]);
    output[1] := 2 * Mul(a[0], a[1]);
    output[2] := 2 * (Mul(a[1], a[1]) + Mul(a[0], a[2]));
    output[3] := 2 * (Mul(a[1], a[2]) + Mul(a[0], a[3]));
    output[4] := Mul(a[2], a[2]) + 4 * Mul(a[1], a[3]) + 2 * Mul(a[0], a[4]);
    output[5] := 2 * (Mul(a[2], a[3]) + Mul(a[1], a[4]) + Mul(a[0], a[5]));
    output[6] := 2 * (Mul(a[3], a[3]) + Mul(a[2], a[4]) + Mul(a[0], a[6]) + 2 * Mul(a[1], a[5]));
  }

  method FSquareInner7(output: array<Limb>, a: seq<Limb>)
    requires output.Length >= 19 && Narrow(a)
    modifies output
    ensures output[7] as int == Convolution(a, a, 7) && output[8] as int == Convolution(a, a, 8)
    ensures output[9] as int == Convolution(a, a, 9) && output[10] as int == Convolution(a, a, 10)
    ensures output[11] as int == Convolution(a, a, 11)
    ensures forall k :: 0 <= k < 7 ==> output[k] == old(output[k])
  {
    output[7] := 2 * (Mul(a[3], a[4]) + Mul(a[2], a[5]) + Mul(a[1], a[6]) + Mul(a[0], a[7]));
    output[8] := Mul(a[4], a[4]) + 2 * (Mul(a[2], a[6]) + Mul(a[0], a[8]) + 2 * (Mul(a[1], a[7])
      + Mul(a[3], a[5])));
    output[9] := 2 * (Mul(a[4], a[5]) + Mul(a[3], a[6]) + Mul(a[2], a[7]) + Mul(a[1], a[8])
      + Mul(a[0], a[9]));
    output[10] := 2 * (Mul(a[5], a[5]) + Mul(a[4], a[6]) + Mul(a[2], a[8]) + 2 * (Mul(a[3], a[7])
      + Mul(a[1], a[9])));
    output[11] := 2 * (Mul(a[5], a[6]) + Mul(a[4], a[7]) + Mul(a[3], a[8]) + Mul(a[2], a[9]));
  }

  method FSquareInner12(output: array<Limb>, a: seq<Limb>)
    requires output.Length >= 19 && Narrow(a)
    modifies output
    ensures output[12] as int == Convolution(a, a, 12) && output[13] as int == Convolution(a, a, 13)
    ensures output[14] as int == Convolution(a, a, 14) && output[15] as int == Convolution(a, a, 15)
    ensures output[16] as int == Convolution(a, a, 16) && output[17] as int == Convolution(a, a, 17)
    ensures output[18] as int == Convolution(a, a, 18)
    ensures forall k :: 0 <= k < 12 ==> output[k] == old(output[k])
  {
    output[12] := Mul(a[6], a[6]) + 2 * (Mul(a[4], a[8]) + 2 * (Mul(a[5], a[7]) + Mul(a[3], a[9])));
    output[13] := 2 * (Mul(a[6], a[7]) + Mul(a[5], a[8]) + Mul(a[4], a[9]));
    output[14] := 2 * (Mul(a[7], a[7]) + Mul(a[6], a[8]) + 2 * Mul(a[5], a[9]));
    output[15] := 2 * (Mul(a[7], a[8]) + Mul(a[6], a[9]));
    output[16] := Mul(a[8], a[8]) + 4 * Mul(a[7], a[9]);
    output[17] := 2 * Mul(a[8], a[9]);
    output[18] := 2 * Mul(a[9], a[9]);
  }

  lemma TermBound(a: seq<Limb>, b: seq<Limb>, k: nat, i: nat)
    requires Narrow(a) && Narrow(b) && i < 10
    ensures -0x40_0000_0000_0000 * Doubling(i, k - i) < Term(a, b, k, i) < 0x40_0000_0000_0000 * Doubling(i, k - i)
  {
    if 0 <= k - i < 10 { ProductBound(a[i] as int, b[k - i] as int); }
  }

  /** No coefficient reaches fourteen times the largest product of two limbs. */
  lemma ConvolutionBound(a: seq<Limb>, b: seq<Limb>, k: nat)
    requires Narrow(a) && Narrow(b)
    ensures -14 * 0x40_0000_0000_0000 < Convolution(a, b, k) < 14 * 0x40_0000_0000_0000
  {
    TermBound(a, b, k, 0); TermBound(a, b, k, 1); TermBound(a, b, k, 2); TermBound(a, b, k, 3); TermBound(a, b, k, 4);
    TermBound(a, b, k, 5); TermBound(a, b, k, 6); TermBound(a, b, k, 7); TermBound(a, b, k, 8); TermBound(a, b, k, 9);
  }

  lemma ProductWithin(t: seq<Limb>, a: seq<Limb>, b: seq<Limb>)
    requires Narrow(a) && Narrow(b) && |t| >= 19 && IsProduct(t, a, b)
    ensures forall k :: 0 <= k < 19 ==> -14 * 0x40_0000_0000_0000 < t[k] as int < 14 * 0x40_0000_0000_0000
  {
    forall k | 0 <= k < 19 ensures -14 * 0x40_0000_0000_0000 < t[k] as int < 14 * 0x40_0000_0000_0000 {
      ConvolutionBound(a, b, k);
    }
  }

  /** output = in2 * in1, in nineteen limbs that are not reduced. */
  method FProduct(output: array<Limb>, in2: array<Limb>, in1: array<Limb>)
    requires output.Length >= 19 && output != in2 && output != in1
    requires Within(in2, 10, 0x800_0000) && Within(in1, 10, 0x800_0000)
    modifies output
    ensures IsProduct(output[..], in2[..], in1[..])
    ensures LongValue(output[..]) == V(in2) * V(in1)
    ensures Within(output, 19, 14 * 0x40_0000_0000_0000)
  {
    var a, b := in2[..], in1[..];
    FProduct0(output, a, b);
    FProduct6(output, a, b);
    FProduct9(output, a, b);
    FProduct12(output, a, b);
    assert IsProduct(output[..], a, b);
    ProductValue(output[..], a, b);
    ProductWithin(output[..], a, b);
  }

  /** output = in1 * in1, in the same form. */
  method FSquareInner(output: array<Limb>, in1: array<Limb>)
    requires output.Length >= 19 && output != in1
    requires Within(in1, 10, 0x800_0000)
    modifies output
    ensures IsProduct(output[..], in1[..], in1[..])
    ensures LongValue(output[..]) == V(in1) * V(in1)
    ensures Within(output, 19, 14 * 0x40_0000_0000_0000)
  {
    var a := in1[..];
    FSquareInner0(output, a);
    FSquareInner7(output, a);
    FSquareInner12(output, a);
    assert IsProduct(output[..], a, a);
    ProductValue(output[..], a, a);
    ProductWithin(output[..], a, a);
  }

  // -- Reduction --

  /** Adds 19 times limb k + 10 to limb k, and the same for the two limbs above, by shifted additions. */
  method FoldThree(output: array<Limb>, k: nat)
    requires k <= 6 && output.Length >= 19
    requires forall j :: k <= j < k + 3 ==> -14 * 0x40_0000_0000_0000 < output[j] as int < 14 * 0x40_0000_0000_0000
    requires forall j :: k + 10 <= j < k + 13 ==>
                 -14 * 0x40_0000_0000_0000 < output[j] as int < 14 * 0x40_0000_0000_0000
    modifies output
    ensures forall j :: k <= j < k + 3 ==> output[j] as int == old(output[j]) as int + 19 * old(output[j + 10]) as int
    ensures forall j :: 0 <= j < output.Length && !(k <= j < k + 3) ==> output[j] == old(output[j])
  {
    output[k + 2] := output[k + 2] + output[k + 12] * 16;
    output[k + 2] := output[k + 2] + output[k + 12] * 2;
    output[k + 2] := output[k + 2] + output[k + 12];
    output[k + 1] := output[k + 1] + output[k + 11] * 16;
    output[k + 1] := output[k + 1] + output[k + 11] * 2;
    output[k + 1] := output[k + 1] + output[k + 11];
    output[k] := output[k] + output[k + 10] * 16;
    output[k] := output[k] + output[k + 10] * 2;
    output[k] := output[k] + output[k + 10];
  }

  /** Brings nineteen limbs down to ten by 2^255 = 19 modulo the prime. */
  method FReduceDegree(output: array<Limb>)
    requires Within(output, 19, 14 * 0x40_0000_0000_0000)
    modifies output
    ensures V(output) % P == old(LongValue(output[..])) % P
    ensures Within(output, 10, 280 * 0x40_0000_0000_0000)
  {
    FoldThree(output, 6);
    FoldThree(output, 3);
    FoldThree(output, 0);
    FoldedValue(old(output[..]), output[..]);
  }

  lemma FoldedValue(s: seq<Limb>, t: seq<Limb>)
    requires |s| >= 19 && |t| >= 10 && t[9] == s[9]
    requires forall j :: 0 <= j < 9 ==> t[j] as int == s[j] as int + 19 * s[j + 10] as int
    ensures Value(t) % P == LongValue(s) % P
  {
    FoldValue(s, t, 0);
    ValSplit(s, 0, 10, 19);
    WeightTen();
    FoldIsCongruent(Val(s, 0, 10), Val(s, 10, 19), Weight(0, 10), P);
  }

  /** Limbs from 10 up count 2^255, which is 19 modulo the prime. */
  lemma FoldIsCongruent(low: int, high: int, weight: int, p: int)
    requires p > 0 && weight == p + 19
    ensures (low + 19 * high) % p == (low + weight * high) % p
  {
    MulAdd(high, p, 19);
    CongruentBy(low + weight * high, low + 19 * high, p, high);
  }

  /** q is v / d rounded toward zero. */
  ghost predicate TruncatedQuotient(v: int, d: int, q: int) {
    if v >= 0 then 0 <= v - d * q < d else 0 <= d * q - v < d
  }

  /** v / 2^26 from shifts: the sign word, shifted right, is what a negative v is rounded up by. */
  function DivBy2To26(v: Limb): (q: Limb)
    ensures TruncatedQuotient(v as int, 0x400_0000, q as int)
  {
    var highword := v as int % 0x1_0000_0000_0000_0000 / 0x1_0000_0000;
    var sign := (if highword >= 0x8000_0000 then highword - 0x1_0000_0000 else highword) / 0x8000_0000;
    var roundoff := sign % 0x1_0000_0000 / 0x40;
    ((v + roundoff as Limb) as int / 0x400_0000) as Limb
  }

  function DivBy2To25(v: Limb): (q: Limb)
    ensures TruncatedQuotient(v as int, 0x200_0000, q as int)
  {
    var highword := v as int % 0x1_0000_0000_0000_0000 / 0x1_0000_0000;
    var sign := (if highword >= 0x8000_0000 then highword - 0x1_0000_0000 else highword) / 0x8000_0000;
    var roundoff := sign % 0x1_0000_0000 / 0x80;
    ((v + roundoff as Limb) as int / 0x200_0000) as Limb
  }

  /** Moves the excess of limb i over its width into limb i + 1. */
  method Carry(output: array<Limb>, i: nat)
    requires i + 1 < output.Length
    requires -281 * 0x40_0000_0000_0000 < output[i] as int < 281 * 0x40_0000_0000_0000
    requires -280 * 0x40_0000_0000_0000 < output[i + 1] as int < 280 * 0x40_0000_0000_0000
    modifies output
    ensures -Radix(i) < output[i] as int < Radix(i)
    ensures -281 * 0x2000_0000 < output[i + 1] as int - old(output[i + 1]) as int < 281 * 0x2000_0000
    ensures i % 2 == 0 && -0x1000_0000_0000 < old(output[i]) as int < 0x1000_0000_0000 ==>
              -0x4_0000 < output[i + 1] as int - old(output[i + 1]) as int < 0x4_0000
    ensures forall j :: 0 <= j < output.Length && j != i && j != i + 1 ==> output[j] == old(output[j])
    ensures forall n :: i + 1 < n <= output.Length ==> Val(output[..], 0, n) == old(Val(output[..], 0, n))
  {
    ghost var s := output[..];
    var over := if i % 2 == 0 then DivBy2To26(output[i]) else DivBy2To25(output[i]);
    output[i] := output[i] - over * (if i % 2 == 0 then 0x400_0000 else 0x200_0000);
    output[i + 1] := output[i + 1] + over;
    forall n | i + 1 < n <= output.Length ensures Val(output[..], 0, n) == Val(s, 0, n) {
      CarryKeepsValue(s, output[..], 0, i, n, over as int);
    }
  }

  /** Brings every limb under 2^26. */
  method FReduceCoefficients(output: array<Limb>)
    requires output.Length >= 11 && Within(output, 10, 280 * 0x40_0000_0000_0000)
    modifies output
    ensures V(output) % P == old(V(output)) % P
    ensures Within(output, 10, 0x400_0000)
  {
    hide Val, Weight;
    output[10] := 0;
    ValSame(old(output[..]), output[..], 0, 10);
    TopLimb(output[..]);
    var i := 0;
    while i < 10
      invariant 0 <= i <= 10 && i % 2 == 0
      invariant Val(output[..], 0, 11) == old(V(output))
      invariant forall j :: 0 <= j < i ==> -Radix(j) < output[j] as int < Radix(j)
      invariant forall j :: i < j < 10 ==> -280 * 0x40_0000_0000_0000 < output[j] as int < 280 * 0x40_0000_0000_0000
      invariant i < 10 ==> -281 * 0x40_0000_0000_0000 < output[i] as int < 281 * 0x40_0000_0000_0000
      invariant i < 10 ==> output[10] == 0
      invariant -281 * 0x2000_0000 < output[10] as int < 281 * 0x2000_0000
    {
      Carry(output, i);
      Carry(output, i + 1);
      i := i + 2;
    }
    ghost var s := output[..];
    output[0] := output[0] + output[10] * 16;
    output[0] := output[0] + output[10] * 2;
    output[0] := output[0] + output[10];
    output[10] := 0;
    FoldTop(s, output[..]);
    Carry(output, 0);
  }

  lemma TopLimb(s: seq<Limb>)
    requires |s| >= 11
    ensures Val(s, 0, 11) == Val(s, 0, 10) + Weight(0, 10) * s[10] as int
  {
    ValSplit(s, 0, 10, 11);
    assert Val(s, 10, 11) == s[10] as int;
  }

  lemma FoldTop(s: seq<Limb>, t: seq<Limb>)
    requires |s| >= 11 && |t| >= 10
    requires t[0] as int == s[0] as int + 19 * s[10] as int
    requires forall j :: 1 <= j < 10 ==> t[j] == s[j]
    ensures Val(t, 0, 10) % P == Val(s, 0, 11) % P
  {
    ValSame(s, t, 1, 10);
    assert Val(t, 0, 10) == Val(s, 0, 10) + 19 * s[10] as int;
    TopLimb(s);
    WeightTen();
    FoldIsCongruent(Val(s, 0, 10), s[10] as int, Weight(0, 10), P);
  }


  /** output = in1 * in2 modulo the prime, in ten limbs under 2^26. */
  method FMul(output: array<Limb>, in1: array<Limb>, in2: array<Limb>)
    requires output.Length >= 10 && output != in1 && output != in2
    requires Within(in1, 10, 0x800_0000) && Within(in2, 10, 0x800_0000)
    modifies output
    ensures V(output) % P == (V(in1) * V(in2)) % P
    ensures Within(output, 10, 0x400_0000)
  {
    var t := new Limb[19];
    FProduct(t, in1, in2);
    FReduceDegree(t);
    FReduceCoefficients(t);
    Copy10(output, t);
  }

  /** output = in1 * in1 modulo the prime, in ten limbs under 2^26. */
  method FSquare(output: array<Limb>, in1: array<Limb>)
    requires output.Length >= 10 && output != in1
    requires Within(in1, 10, 0x800_0000)
    modifies output
    ensures V(output) % P == (V(in1) * V(in1)) % P
    ensures Within(output, 10, 0x400_0000)
  {
    var t := new Limb[19];
    FSquareInner(t, in1);
    FReduceDegree(t);
    FReduceCoefficients(t);
    Copy10(output, t);
  }

  /** memcpy of ten limbs. */
  method Copy10(output: array<Limb>, input: array<Limb>)
    requires output.Length >= 10 && input.Length >= 10 && output != input
    modifies output
    ensures forall i :: 0 <= i < 10 ==> output[i] == input[i]
    ensures V(output) == V(input)
  {
    forall i | 0 <= i < 10 { output[i] := input[i]; }
    ValSame(output[..], input[..], 0, 10);
  }

  // -- Limbwise operations --

  /** output += input. */
  method FSum(output: array<Limb>, input: array<Limb>, ghost b: int)
    requires output != input && b <= 0x4000_0000_0000_0000
    requires Within(output, 10, b) && Within(input, 10, b)
    modifies output
    ensures V(output) == old(V(output)) + V(input)
    ensures Within(output, 10, 2 * b)
  {
    for i := 0 to 5
      invariant forall j :: 0 <= j < 2 * i ==> output[j] as int == old(output[j]) as int + input[j] as int
      invariant forall j :: 2 * i <= j < output.Length ==> output[j] == old(output[j])
    {
      output[2 * i] := output[2 * i] + input[2 * i];
      output[2 * i + 1] := output[2 * i + 1] + input[2 * i + 1];
    }
    ValLinear(output[..], old(output[..]), input[..], 1, 0, 10);
  }

  /** output = input - output. */
  method FDifference(output: array<Limb>, input: array<Limb>, ghost b: int)
    requires output != input && b <= 0x4000_0000_0000_0000
    requires Within(output, 10, b) && Within(input, 10, b)
    modifies output
    ensures V(output) == V(input) - old(V(output))
    ensures Within(output, 10, 2 * b)
  {
    for i := 0 to 10
      invariant forall j :: 0 <= j < i ==> output[j] as int == input[j] as int - old(output[j]) as int
      invariant forall j :: i <= j < output.Length ==> output[j] == old(output[j])
    {
      output[i] := input[i] - output[i];
    }
    ValLinear(output[..], input[..], old(output[..]), -1, 0, 10);
  }

  /** output = input * scalar. */
  method FScalarProduct(output: array<Limb>, input: array<Limb>, scalar: Limb)
    requires output.Length >= 10 && output != input
    requires Within(input, 10, 0x800_0000) && 0 < scalar < 0x10_0000_0000
    modifies output
    ensures V(output) == scalar as int * V(input)
    ensures Within(output, 10, 0x800_0000 * scalar as int)
  {
    for i := 0 to 10
      invariant forall j :: 0 <= j < i ==> output[j] as int == scalar as int * input[j] as int
    {
      ScaleBound(input[i] as int, scalar as int);
      output[i] := input[i] * scalar;
    }
    forall j | 0 <= j < 10 ensures -0x800_0000 * scalar as int < output[j] as int < 0x800_0000 * scalar as int {
      ScaleBound(input[j] as int, scalar as int);
    }
    ScaledValue(output[..], input[..], scalar as int, 0);
  }

  lemma ScaleBound(x: int, m: int)
    requires -0x800_0000 < x < 0x800_0000 && 0 < m < 0x10_0000_0000
    ensures -0x8000_0000_0000_0000 < -0x800_0000 * m < x * m < 0x800_0000 * m < 0x8000_0000_0000_0000
  {
    MulMono(m, x, 0x7ff_ffff);
    MulMono(m, -0x7ff_ffff, x);
  }

  lemma {:induction false} ScaledValue(s: seq<Limb>, x: seq<Limb>, m: int, i: nat)
    requires |s| >= 10 && |x| >= 10
    requires forall j :: 0 <= j < 10 ==> s[j] as int == m * x[j] as int
    ensures Val(s, i, 10) == m * Val(x, i, 10)
    decreases 10 - i
  {
    if i < 10 {
      ScaledValue(s, x, m, i + 1);
      MulAddMul(m, x[i] as int, Radix(i), Val(x, i + 1, 10));
    }
  }
}
