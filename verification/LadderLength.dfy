/** The ladder over 256 bits gives what the ladder of section 5 of RFC 7748 over 255 bits gives, modulo any prime over
    4: the extra step only scales one point, and scaling cancels in the quotient. */
module LadderLength {
  import opened Arithmetic
  import opened Bits
  import opened Packing
  import opened Ladder
  import opened Primes

  // -- Scaling in the field --

  lemma TimesPlus(a: int, x: int, z: int, p: nat)
    requires p > 1
    ensures Plus(Times(a, x, p), Times(a, z, p), p) == Times(a, Plus(x, z, p), p)
  {
    ModMod(a * x, p);
    ModMod(a * z, p);
    ModMod(x + z, p);
    CongruentSum(Times(a, x, p), a * x, Times(a, z, p), a * z, p);
    CongruentProduct(a, a, Plus(x, z, p), x + z, p);
    MulAdd(a, x, z);
  }

  lemma TimesMinus(a: int, x: int, z: int, p: nat)
    requires p > 1
    ensures Minus(Times(a, x, p), Times(a, z, p), p) == Times(a, Minus(x, z, p), p)
  {
    ModMod(a * x, p);
    ModMod(a * z, p);
    ModMod(x - z, p);
    CongruentSum(Times(a, x, p), a * x, Times(a, z, p), a * z, p);
    CongruentProduct(a, a, Minus(x, z, p), x - z, p);
    MulAdd(a, x - z, z);
  }

  lemma TimesTimes(a: int, x: int, b: int, y: int, p: nat)
    requires p > 1
    ensures Times(Times(a, x, p), Times(b, y, p), p) == Times(Times(a, b, p), Times(x, y, p), p)
  {
    ModMod(a * x, p);
    ModMod(b * y, p);
    ModMod(a * b, p);
    ModMod(x * y, p);
    CongruentProduct(Times(a, x, p), a * x, Times(b, y, p), b * y, p);
    CongruentProduct(Times(a, b, p), a * b, Times(x, y, p), x * y, p);
    MulShuffle(a, x, b, y);
  }

  /** A factor may be moved out. */
  lemma TimesOut(c: int, a: int, x: int, p: nat)
    requires p > 1
    ensures Times(c, Times(a, x, p), p) == Times(a, Times(c, x, p), p)
  {
    ModMod(a * x, p);
    ModMod(c * x, p);
    CongruentProduct(c, c, Times(a, x, p), a * x, p);
    CongruentProduct(a, a, Times(c, x, p), c * x, p);
    assert c * (a * x) == a * (c * x);
  }

  /** t is s with its first point scaled by a and its second by b. */
  ghost predicate Scaled(s: State, t: State, a: int, b: int, p: nat)
    requires p > 0
  {
    && t.x2 == Times(a, s.x2, p) && t.z2 == Times(a, s.z2, p) && t.x3 == Times(b, s.x3, p) && t.z3 == Times(b, s.z3, p)
    && t.swap == s.swap
  }

  /** Doubling and differential addition scale by the fourth power and by the square of the product. */
  lemma StepScales(x1: int, s: State, t: State, a: int, b: int, p: nat)
    requires p > 1 && Scaled(s, t, a, b, p)
    ensures var aa, ba := Times(a, a, p), Times(b, a, p);
            Scaled(DoubleAndAdd(x1, s, p), DoubleAndAdd(x1, t, p), Times(aa, aa, p), Times(ba, ba, p), p)
  {
    hide Plus, Minus, Times;
    var A, B, C, D := Plus(s.x2, s.z2, p), Minus(s.x2, s.z2, p), Plus(s.x3, s.z3, p), Minus(s.x3, s.z3, p);
    var AA, BB, DA, CB := Times(A, A, p), Times(B, B, p), Times(D, A, p), Times(C, B, p);
    var E, aa, ba := Minus(AA, BB, p), Times(a, a, p), Times(b, a, p);
    TimesPlus(a, s.x2, s.z2, p);
    TimesMinus(a, s.x2, s.z2, p);
    TimesPlus(b, s.x3, s.z3, p);
    TimesMinus(b, s.x3, s.z3, p);
    TimesTimes(a, A, a, A, p);
    TimesTimes(a, B, a, B, p);
    TimesTimes(b, D, a, A, p);
    TimesTimes(b, C, a, B, p);
    TimesMinus(aa, AA, BB, p);
    TimesTimes(aa, AA, aa, BB, p);
    TimesOut(121665, aa, E, p);
    TimesPlus(aa, AA, Times(121665, E, p), p);
    TimesTimes(aa, E, aa, Plus(AA, Times(121665, E, p), p), p);
    TimesPlus(ba, DA, CB, p);
    TimesMinus(ba, DA, CB, p);
    TimesTimes(ba, Plus(DA, CB, p), ba, Plus(DA, CB, p), p);
    TimesTimes(ba, Minus(DA, CB, p), ba, Minus(DA, CB, p), p);
    TimesOut(x1, Times(ba, ba, p), Times(Minus(DA, CB, p), Minus(DA, CB, p), p), p);
  }

  ghost predicate Unit(a: int, p: nat) { 0 < a < p }

  lemma UnitsMultiply(a: int, b: int, p: nat)
    requires IsPrime(p) && Unit(a, p) && Unit(b, p)
    ensures Unit(Times(a, b, p), p)
  {
    if Times(a, b, p) == 0 {
      NoZeroDivisors(a, b, p);
      DivUnique(b, p, 0, b);
      assert false;
    }
  }

  /** The extra step leaves the first point and scales the second by 4 x1. */
  lemma ExtraStep(x1: int, p: nat)
    requires p > 1 && 0 <= x1 < p
    ensures Scaled(State(1, 0, x1, 1, false), DoubleAndAdd(x1, State(1, 0, x1, 1, false), p), 1, 4 * x1 % p, p)
  {
    hide Plus, Minus, Times;
    FirstPoint(p);
    SumOfEnds(x1, p);
    SecondPoint(x1, p);
  }

  lemma FirstPoint(p: nat)
    requires p > 1
    ensures Plus(1, 0, p) == 1 && Minus(1, 0, p) == 1 && Times(1, 1, p) == 1 && Minus(1, 1, p) == 0
    ensures Times(0, Plus(1, Times(121665, 0, p), p), p) == 0 && Times(1, 0, p) == 0
  {
    DivUnique(1, p, 0, 1);
    DivUnique(0, p, 0, 0);
  }

  lemma SumOfEnds(x: int, p: nat)
    requires p > 1
    ensures var C, D := Plus(x, 1, p), Minus(x, 1, p);
            Plus(Times(D, 1, p), Times(C, 1, p), p) == (2 * x) % p
                && Minus(Times(D, 1, p), Times(C, 1, p), p) == (-2) % p
  {
    var C, D := Plus(x, 1, p), Minus(x, 1, p);
    ModMod(x + 1, p);
    ModMod(x - 1, p);
    CongruentSum(D, x - 1, C, x + 1, p);
  }

  lemma SecondPoint(x: int, p: nat)
    requires p > 1
    ensures Times((2 * x) % p, (2 * x) % p, p) == Times(4 * x % p, x, p)
    ensures Times(x, Times((-2) % p, (-2) % p, p), p) == Times(4 * x % p, 1, p)
  {
    ModMod(2 * x, p);
    ModMod(4 * x, p);
    CongruentProduct((2 * x) % p, 2 * x, (2 * x) % p, 2 * x, p);
    CongruentProduct(4 * x % p, 4 * x, x, x, p);
    assert (2 * x) * (2 * x) == (4 * x) * x;
    ModMod(-2, p);
    CongruentProduct((-2) % p, -2, (-2) % p, -2, p);
    ModMod(4, p);
    CongruentProduct(x, x, 4 % p, 4, p);
    CongruentProduct(4 * x % p, 4 * x, 1, 1, p);
  }

  // -- The run --

  lemma SwapScales(swap: bool, s: State, t: State, a: int, b: int, p: nat)
    requires p > 1 && Scaled(s, t, a, b, p)
    ensures if swap then Scaled(CSwap(swap, s), CSwap(swap, t), b, a, p)
                else Scaled(CSwap(swap, s), CSwap(swap, t), a, b, p)
  {
  }

  /** After n steps of the shorter ladder the longer one, a step ahead, is the same up to scaling by units. */
  lemma {:induction false} RunScales(x1: int, k: nat, n: nat, p: nat) returns (a: int, b: int)
    requires IsPrime(p) && p > 4 && 0 < x1 < p && !Bit(k, 255) && n <= 255
    ensures Unit(a, p) && Unit(b, p) && Scaled(Run(x1, k, 255, n, p), Run(x1, k, 256, n + 1, p), a, b, p)
    decreases n
  {
    if n == 0 {
      a, b := 1, 4 * x1 % p;
      ExtraStep(x1, p);
      RunBegins(x1, k, p);
      FourIsUnit(x1, p);
    } else {
      a, b := RunScales(x1, k, n - 1, p);
      var s, t, kt := Run(x1, k, 255, n - 1, p), Run(x1, k, 256, n, p), Bit(k, 255 - n);
      RunNext(x1, k, n, p);
      var swap := s.swap != kt;
      SwapScales(swap, s, t, a, b, p);
      if swap { a, b := b, a; }
      StepScales(x1, CSwap(swap, s), CSwap(swap, t), a, b, p);
      UnitsMultiply(a, a, p);
      UnitsMultiply(b, a, p);
      UnitsMultiply(Times(a, a, p), Times(a, a, p), p);
      UnitsMultiply(Times(b, a, p), Times(b, a, p), p);
      a, b := Times(Times(a, a, p), Times(a, a, p), p), Times(Times(b, a, p), Times(b, a, p), p);
    }
  }

  lemma RunBegins(x1: int, k: nat, p: nat)
    requires p > 1 && !Bit(k, 255)
    ensures Run(x1, k, 255, 0, p) == State(1, 0, x1, 1, false)
    ensures Run(x1, k, 256, 1, p) == DoubleAndAdd(x1, State(1, 0, x1, 1, false), p)
  {
    hide Plus, Minus, Times;
    assert Run(x1, k, 256, 0, p) == State(1, 0, x1, 1, false);
  }

  lemma RunNext(x1: int, k: nat, n: nat, p: nat)
    requires p > 1 && 1 <= n <= 255
    ensures Run(x1, k, 255, n, p) == Step(x1, Run(x1, k, 255, n - 1, p), Bit(k, 255 - n), p)
    ensures Run(x1, k, 256, n + 1, p) == Step(x1, Run(x1, k, 256, n, p), Bit(k, 255 - n), p)
  {
    hide Step;
  }

  lemma FourIsUnit(x1: int, p: nat)
    requires IsPrime(p) && p > 4 && Unit(x1, p)
    ensures Unit(4 * x1 % p, p)
  {
    UnitsMultiply(4, x1, p);
  }

  // -- The quotient --

  /** A common unit factor cancels in x z^(p-2). */
  lemma QuotientScales(l: nat, x: int, z: int, p: nat)
    requires IsPrime(p) && 0 < l < p
    ensures (((l * x) % p) * Pow((l * z) % p, p - 2)) % p == (x * Pow(z, p - 2)) % p
  {
    hide Pow;
    ModMod(l * x, p);
    ModMod(l * z, p);
    PowCongruent((l * z) % p, l * z, p - 2, p);
    PowProduct(l, z, p - 2);
    var L, Z := Pow(l, p - 2), Pow(z, p - 2);
    CongruentProduct((l * x) % p, l * x, Pow((l * z) % p, p - 2), L * Z, p);
    MulShuffle(l, x, L, Z);
    PowFirst(l, p - 1);
    Fermat(p, l);
    DivUnique(1, p, 0, 1);
    CongruentProduct(l * L, 1, x * Z, x * Z, p);
  }

  lemma OutputScales(s: State, t: State, a: int, b: int, p: nat)
    requires IsPrime(p) && Unit(a, p) && Unit(b, p) && Scaled(s, t, a, b, p)
    ensures Output(s, p) == Output(t, p)
  {
    hide Pow;
    var r := CSwap(s.swap, s);
    QuotientScales(if s.swap then b else a, r.x2, r.z2, p);
  }

  // -- The point 0 --

  /** From the point 0 every step but the first leaves both z-coordinates at zero. */
  lemma {:induction false} ZeroStays(k: nat, bits: nat, n: nat, p: nat)
    requires p > 1 && 1 <= n <= bits
    ensures var s := Run(0, k, bits, n, p); s.z2 == 0 && s.z3 == 0
    decreases n
  {
    var s, kt := Run(0, k, bits, n - 1, p), Bit(k, bits - n);
    if n > 1 {
      ZeroStays(k, bits, n - 1, p);
    }
    var r := CSwap(s.swap != kt, s);
    FlatDoubles(r.x2, r.z2, p);
    assert Run(0, k, bits, n, p) == Step(0, s, kt, p);
    assert forall m :: Times(0, m, p) == 0;
  }

  /** Doubling a point with x = 0 or z = 0 gives z = 0. */
  lemma FlatDoubles(x: int, z: int, p: nat)
    requires p > 1
    ensures x == 0 || z == 0 ==>
              var AA, BB := Times(Plus(x, z, p), Plus(x, z, p), p), Times(Minus(x, z, p), Minus(x, z, p), p);
              Minus(AA, BB, p) == 0 && Times(Minus(AA, BB, p), Plus(AA, Times(121665, Minus(AA, BB, p), p), p), p) == 0
  {
    if x == 0 {
      ModMod(z, p);
      ModMod(-z, p);
      CongruentProduct(Plus(x, z, p), z, Plus(x, z, p), z, p);
      CongruentProduct(Minus(x, z, p), -z, Minus(x, z, p), -z, p);
      assert (-z) * (-z) == z * z;
    }
  }

  lemma ZeroOutput(s: State, p: nat)
    requires p > 2 && s.z2 == 0 && s.z3 == 0
    ensures Output(s, p) == 0
  {
    hide Pow;
    PowZero(p - 2);
  }

  // -- The whole function --

  /** A clamped scalar has no bit 255. */
  lemma TopBitClear(k: seq<U8>)
    requires |k| == 32
    ensures !Bit(LittleEndian(Clamp(k)), 255)
  {
    hide Little;
    LittleBit(Clamp(k), 0, 31, 7);
    BitIsDigit(Clamp(k)[31] as int, 7);
    SmallPowers();
  }

  /** For every scalar and base point the ladder over 256 bits computes what the one over 255 bits does. */
  lemma SameAsRfc(k: seq<U8>, u: seq<U8>, p: nat)
    requires |k| == 32 && |u| == 32 && IsPrime(p) && p > 4
    ensures X25519(k, u, 256, p) == X25519(k, u, 255, p)
  {
    hide Run, Output, Clamp, Little;
    var x1, n := DecodeU(u, p), LittleEndian(Clamp(k));
    TopBitClear(k);
    if x1 == 0 {
      ZeroStays(n, 256, 256, p);
      ZeroStays(n, 255, 255, p);
      ZeroOutput(Run(x1, n, 256, 256, p), p);
      ZeroOutput(Run(x1, n, 255, 255, p), p);
    } else {
      var a, b := RunScales(x1, n, 255, p);
      OutputScales(Run(x1, n, 255, 255, p), Run(x1, n, 256, 256, p), a, b, p);
    }
  }
}
