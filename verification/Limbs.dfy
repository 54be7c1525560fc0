/** Field elements as signed 64-bit limbs of alternately 26 and 25 bits, least significant first. */
module Limbs {
  import opened Arithmetic
  import opened Bits

  type Limb = S64

  /** The prime 2^255 - 19. */
  const P: int := 0x7fffffff_ffffffff_ffffffff_ffffffff_ffffffff_ffffffff_ffffffff_ffffffed

  /** The step from the weight of limb i to the weight of limb i + 1. */
  function Radix(i: nat): int { if i % 2 == 0 then 0x400_0000 else 0x200_0000 }

  /** The value of limbs i .. n, in units of the weight of limb i. */
  function Val(s: seq<Limb>, i: nat, n: nat): int
    requires n <= |s|
    decreases n - i, |s|
  {
    if i >= n then 0 else s[i] as int + Radix(i) * Val(s, i + 1, n)
  }

  /** The number that ten limbs represent, and the number that nineteen limbs do. */
  function Value(s: seq<Limb>): int requires |s| >= 10 { Val(s, 0, 10) }
  function LongValue(s: seq<Limb>): int requires |s| >= 19 { Val(s, 0, 19) }

  /** The weight of limb m in units of the weight of limb i. */
  function Weight(i: nat, m: nat): int
    requires i <= m
    decreases m - i
  {
    if i == m then 1 else Radix(i) * Weight(i + 1, m)
  }

  lemma {:induction false} ValSplit(s: seq<Limb>, i: nat, m: nat, n: nat)
    requires i <= m <= n <= |s|
    ensures Val(s, i, n) == Val(s, i, m) + Weight(i, m) * Val(s, m, n)
    decreases m - i
  {
    if i < m {
      ValSplit(s, i + 1, m, n);
      MulAddMul(Radix(i), Val(s, i + 1, m), Weight(i + 1, m), Val(s, m, n));
    }
  }

  /** Limb 10 weighs 2^255 times limb 0. */
  lemma WeightTen()
    ensures Weight(0, 10) == P + 19
  {
    assert Weight(8, 10) == 0x8_0000_0000_0000;
    assert Weight(6, 10) == 0x40_0000_0000_0000_0000_0000_0000;
    assert Weight(4, 10) == 0x200_0000_0000_0000_0000_0000_0000_0000_0000_0000;
    assert Weight(2, 10) == 0x1000_0000_0000_0000_0000_0000_0000_0000_0000_0000_0000_0000_0000;
  }

  /** Limbs in their nominal range stay below the weight of the next limb. */
  lemma {:induction false} ValBound(s: seq<Limb>, i: nat, n: nat)
    requires i <= n <= |s|
    requires forall j :: i <= j < n ==> 0 <= s[j] as int < Radix(j)
    ensures 0 <= Val(s, i, n) < Weight(i, n)
    decreases n - i
  {
    if i < n {
      ValBound(s, i + 1, n);
      MulMono(Radix(i), Val(s, i + 1, n), Weight(i + 1, n) - 1);
      MulMono(Radix(i), 0, Val(s, i + 1, n));
      MulAdd(Radix(i), Weight(i + 1, n), -1);
    }
  }

  /** Limbs that agree have the same value. */
  lemma {:induction false} ValSame(s: seq<Limb>, t: seq<Limb>, i: nat, n: nat)
    requires n <= |s| && n <= |t|
    requires forall j :: i <= j < n ==> s[j] == t[j]
    ensures Val(s, i, n) == Val(t, i, n)
    decreases n - i
  {
    if i < n { ValSame(s, t, i + 1, n); }
  }

  /** Moving c units of limb i + 1 out of limb i leaves the value alone. */
  lemma {:induction false} CarryKeepsValue(s: seq<Limb>, t: seq<Limb>, k: nat, i: nat, n: nat, c: int)
    requires k <= i && i + 1 < n <= |s| == |t|
    requires forall j :: 0 <= j < |s| && j != i && j != i + 1 ==> t[j] == s[j]
    requires t[i] as int == s[i] as int - Radix(i) * c && t[i + 1] as int == s[i + 1] as int + c
    ensures Val(t, k, n) == Val(s, k, n)
    decreases i - k
  {
    if k < i {
      CarryKeepsValue(s, t, k + 1, i, n, c);
    } else {
      ValSame(s, t, i + 2, n);
      var r, q, v := Radix(i), Radix(i + 1), Val(s, i + 2, n);
      assert Val(s, i, n) == s[i] as int + r * (s[i + 1] as int + q * v);
      assert Val(t, i, n) == t[i] as int + r * (t[i + 1] as int + q * v);
    }
  }

  /** The value of a limbwise combination x + m * y. */
  lemma {:induction false} ValLinear(s: seq<Limb>, x: seq<Limb>, y: seq<Limb>, m: int, i: nat, n: nat)
    requires n <= |s| && n <= |x| && n <= |y|
    requires forall j :: i <= j < n ==> s[j] as int == x[j] as int + m * y[j] as int
    ensures Val(s, i, n) == Val(x, i, n) + m * Val(y, i, n)
    decreases n - i
  {
    if i < n {
      ValLinear(s, x, y, m, i + 1, n);
      MulAddMul(Radix(i), Val(x, i + 1, n), m, Val(y, i + 1, n));
      MulAdd(m, y[i] as int, Radix(i) * Val(y, i + 1, n));
    }
  }

  /** Folding the limbs from 10 up back onto the limbs from 0 up with the factor 19. */
  lemma {:induction false} FoldValue(s: seq<Limb>, t: seq<Limb>, i: nat)
    requires |s| >= 19 && |t| >= 10 && i <= 9
    requires forall j :: i <= j < 9 ==> t[j] as int == s[j] as int + 19 * s[j + 10] as int
    requires t[9] == s[9]
    ensures Val(t, i, 10) == Val(s, i, 10) + 19 * Val(s, i + 10, 19)
    decreases 9 - i
  {
    if i < 9 { FoldValue(s, t, i + 1); }
  }

  // -- Products --

  /** Two odd positions round their weights up twice, so their product counts double. */
  function Doubling(i: int, j: int): int { if i % 2 == 1 && j % 2 == 1 then 2 else 1 }

  /** What limb i of a and limb k - i of b contribute to limb k of the product. */
  function Term(a: seq<Limb>, b: seq<Limb>, k: nat, i: nat): int
    requires |a| >= 10 && |b| >= 10 && i < 10
  {
    if 0 <= k - i < 10 then Doubling(i, k - i) * (a[i] as int * b[k - i] as int) else 0
  }

  /** The part of limb k of the product that limbs i .. 10 of a contribute. */
  function Coefficient(a: seq<Limb>, b: seq<Limb>, k: nat, i: nat): int
    requires |a| >= 10 && |b| >= 10
    decreases 10 - i
  {
    if i >= 10 then 0 else Term(a, b, k, i) + Coefficient(a, b, k, i + 1)
  }

  /** Limb k of the product, all ten contributions written out. */
  function Convolution(a: seq<Limb>, b: seq<Limb>, k: nat): int
    requires |a| >= 10 && |b| >= 10
  {
    Term(a, b, k, 0) + Term(a, b, k, 1) + Term(a, b, k, 2) + Term(a, b, k, 3) + Term(a, b, k, 4) +
    Term(a, b, k, 5) + Term(a, b, k, 6) + Term(a, b, k, 7) + Term(a, b, k, 8) + Term(a, b, k, 9)
  }

  lemma ConvolutionIsCoefficient(a: seq<Limb>, b: seq<Limb>, k: nat)
    requires |a| >= 10 && |b| >= 10
    ensures Convolution(a, b, k) == Coefficient(a, b, k, 0)
  {
    assert Coefficient(a, b, k, 5) ==
      Term(a, b, k, 5) + Term(a, b, k, 6) + Term(a, b, k, 7) + Term(a, b, k, 8) + Term(a, b, k, 9);
  }

  /** Limbs k .. 19 of that part, valued like limbs. */
  function CoefficientVal(a: seq<Limb>, b: seq<Limb>, i: nat, k: nat): int
    requires |a| >= 10 && |b| >= 10
    decreases 19 - k, |a|
  {
    if k >= 19 then 0 else Coefficient(a, b, k, i) + Radix(k) * CoefficientVal(a, b, i, k + 1)
  }

  function RowVal(a: seq<Limb>, b: seq<Limb>, i: nat, k: nat): int
    requires |a| >= 10 && |b| >= 10 && i < 10
    decreases 19 - k, |a|
  {
    if k >= 19 then 0 else Term(a, b, k, i) + Radix(k) * RowVal(a, b, i, k + 1)
  }

  lemma {:induction false} TakeRow(a: seq<Limb>, b: seq<Limb>, i: nat, k: nat)
    requires |a| >= 10 && |b| >= 10 && i < 10
    ensures CoefficientVal(a, b, i, k) == RowVal(a, b, i, k) + CoefficientVal(a, b, i + 1, k)
    decreases 19 - k
  {
    if k < 19 {
      TakeRow(a, b, i, k + 1);
      MulAdd(Radix(k), RowVal(a, b, i, k + 1), CoefficientVal(a, b, i + 1, k + 1));
    }
  }

  lemma RowStep(i: nat, j: nat, x: int, y: int, v: int)
    ensures Doubling(i, j) * (x * y) + Radix(i + j) * (Doubling(i, j + 1) * (x * v)) ==
            Doubling(i, j) * (x * (y + Radix(j) * v))
  {
    MulAddMul(x, y, Radix(j), v);
  }

  lemma {:induction false} RowIsProduct(a: seq<Limb>, b: seq<Limb>, i: nat, k: nat)
    requires |a| >= 10 && |b| >= 10 && i < 10 && i <= k
    ensures RowVal(a, b, i, k) == Doubling(i, k - i) * (a[i] as int * Val(b, k - i, 10))
    decreases 19 - k
  {
    if k < 19 {
      RowIsProduct(a, b, i, k + 1);
      if k - i < 10 {
        RowStep(i, k - i, a[i] as int, b[k - i] as int, Val(b, k - i + 1, 10));
      }
    }
  }

  lemma {:induction false} NoCoefficientBelow(a: seq<Limb>, b: seq<Limb>, k: nat, i: nat)
    requires |a| >= 10 && |b| >= 10 && k < i
    ensures Coefficient(a, b, k, i) == 0
    decreases 10 - i
  {
    if i < 10 { NoCoefficientBelow(a, b, k, i + 1); }
  }

  lemma {:induction false} CoefficientsMultiply(a: seq<Limb>, b: seq<Limb>, i: nat)
    requires |a| >= 10 && |b| >= 10 && i <= 10
    ensures CoefficientVal(a, b, i, i) == Val(a, i, 10) * Val(b, 0, 10)
    decreases 10 - i
  {
    if i == 10 {
      NoCoefficients(a, b, 10);
    } else {
      TakeRow(a, b, i, i);
      RowIsProduct(a, b, i, i);
      NoCoefficientBelow(a, b, i, i + 1);
      CoefficientsMultiply(a, b, i + 1);
      AddMulMul(a[i] as int, Radix(i), Val(a, i + 1, 10), Val(b, 0, 10));
    }
  }

  lemma {:induction false} NoCoefficients(a: seq<Limb>, b: seq<Limb>, k: nat)
    requires |a| >= 10 && |b| >= 10
    ensures CoefficientVal(a, b, 10, k) == 0
    decreases 19 - k
  {
    if k < 19 { NoCoefficients(a, b, k + 1); }
  }

  /** t holds the nineteen coefficients of the product of a and b. */
  ghost predicate IsProduct(t: seq<Limb>, a: seq<Limb>, b: seq<Limb>)
    requires |t| >= 19 && |a| >= 10 && |b| >= 10
  {
    forall k :: 0 <= k < 19 ==> t[k] as int == Convolution(a, b, k)
  }

  lemma {:induction false} ProductValFrom(t: seq<Limb>, a: seq<Limb>, b: seq<Limb>, k: nat)
    requires |t| >= 19 && |a| >= 10 && |b| >= 10 && IsProduct(t, a, b)
    ensures Val(t, k, 19) == CoefficientVal(a, b, 0, k)
    decreases 19 - k
  {
    if k < 19 {
      ConvolutionIsCoefficient(a, b, k);
      ProductValFrom(t, a, b, k + 1);
    }
  }

  /** The nineteen coefficients represent the product of the two numbers. */
  lemma ProductValue(t: seq<Limb>, a: seq<Limb>, b: seq<Limb>)
    requires |t| >= 19 && |a| >= 10 && |b| >= 10 && IsProduct(t, a, b)
    ensures LongValue(t) == Value(a) * Value(b)
  {
    ProductValFrom(t, a, b, 0);
    CoefficientsMultiply(a, b, 0);
  }
}
