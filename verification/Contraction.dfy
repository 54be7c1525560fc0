/** The canonical 32-byte form of a field element. */
module Contraction {
  import opened Arithmetic
  import opened Bits
  import opened Limbs
  import opened FieldOps
  import opened Packing

  // -- Comparisons without branches --

  ghost predicate TopBitsSet(x: int, n: nat)
    requires n <= 32
  {
    forall i :: 32 - n <= i < 32 ==> Bit(x, i)
  }

  /** Folding a word onto itself by k makes its top k bits speak for the top 2k. */
  lemma FoldBits(x: int, k: nat)
    requires 0 < k <= 16
    ensures TopBitsSet(AndW(32, x, ShlW(32, x, k)), k) <==> TopBitsSet(x, 2 * k)
  {
    var y := AndW(32, x, ShlW(32, x, k));
    forall i {:trigger Bit(y, i)} | k <= i < 32 ensures Bit(y, i) == (Bit(x, i) && Bit(x, i - k)) {
      AndBit(32, x, ShlW(32, x, k), i);
      ShlBit(32, x, k, i);
    }
    if TopBitsSet(y, k) {
      forall i | 32 - 2 * k <= i < 32 ensures Bit(x, i) {
        assert Bit(y, if i >= 32 - k then i else i + k);
      }
    }
  }

  /** All ones if a == b, else zero. */
  method S32Eq(a: S32, b: S32) returns (r: S32)
    ensures r == if a == b then -1 else 0
  {
    var a1 := Not(Xor(a, b));
    var a2 := And(a1, Shl(a1, 16));
    var a3 := And(a2, Shl(a2, 8));
    var a4 := And(a3, Shl(a3, 4));
    var a5 := And(a4, Shl(a4, 2));
    var a6 := And(a5, Shl(a5, 1));
    S32EqProof(a, b, a1, a2, a3, a4, a5, a6);
    r := Sign(a6);
  }

  lemma S32EqProof(a: S32, b: S32, a1: S32, a2: S32, a3: S32, a4: S32, a5: S32, a6: S32)
    requires a1 == Not(Xor(a, b)) && a2 == And(a1, Shl(a1, 16)) && a3 == And(a2, Shl(a2, 8))
    requires a4 == And(a3, Shl(a3, 4)) && a5 == And(a4, Shl(a4, 2)) && a6 == And(a5, Shl(a5, 1))
    ensures a6 < 0 <==> a == b
  {
    Pow2Values();
    FoldBits(a1 as int, 16); FoldBits(a2 as int, 8); FoldBits(a3 as int, 4);
    FoldBits(a4 as int, 2); FoldBits(a5 as int, 1);
    TopBitIsSign(32, a6 as int);
    assert TopBitsSet(a6 as int, 1) <==> Bit(a6 as int, 31);
    EqualBits(a as int, b as int, a1 as int);
  }

  lemma EqualBits(a: int, b: int, c: int)
    requires Signed(32, a) && Signed(32, b) && c == -1 - XorW(32, a, b)
    ensures TopBitsSet(c, 32) <==> a == b
  {
    forall i | 0 <= i < 32 ensures Bit(c, i) == (Bit(a, i) == Bit(b, i)) {
      XorBit(32, a, b, i);
      NotBit(XorW(32, a, b), i);
    }
    if TopBitsSet(c, 32) { SameBits(32, a, b); }
  }

  lemma {:induction false} NotBit(a: int, i: nat)
    ensures Bit(-1 - a, i) == !Bit(a, i)
    decreases i
  {
    if i > 0 {
      assert (-1 - a) / 2 == -1 - a / 2;
      NotBit(a / 2, i - 1);
    }
  }

  /** All ones if a >= b, else zero, for a and b that are not negative. */
  function S32Gte(a: S32, b: S32): (r: S32)
    requires a >= 0 && b >= 0
    ensures r == if a >= b then -1 else 0
  {
    Not(Sign(a - b))
  }

  // -- Borrow and carry passes --

  ghost function Wide(s: seq<S32>): (t: seq<Limb>)
    ensures |t| == |s| && forall i :: 0 <= i < |s| ==> t[i] == s[i] as Limb
  {
    seq(|s|, i requires 0 <= i < |s| => s[i] as Limb)
  }

  /** The number that ten 32-bit limbs represent. */
  ghost function V32(a: array<S32>): int
    requires a.Length == 10
    reads a
  {
    Value(Wide(a[..]))
  }

  /** x >> 25 and x >> 26, sign-extending. */
  function Sar25(x: S32): S32 { (x as int / 0x200_0000) as S32 }
  function Sar26(x: S32): S32 { (x as int / 0x400_0000) as S32 }

  /** x & (x >> 31): x itself if it is negative, else zero. */
  function NegativePart(x: S32): (r: S32)
    ensures r == if x < 0 then x else 0
  {
    Pow2Values();
    AndMask(32, x as int);
    And(x, Sign(x))
  }

  /** What a limb of the width of limb i must borrow to be non-negative. */
  method BorrowOf(x: S32, i: nat) returns (carry: S32)
    requires -0x600_0000 < x < 0x600_0000
    ensures 0 <= carry <= 3 && (x >= 0 ==> carry == 0)
    ensures x < 0 ==> 0 <= x as int + Radix(i) * carry as int < Radix(i)
  {
    var part := NegativePart(x);
    carry := -(if i % 2 == 1 then Sar25(part) else Sar26(part));
  }

  /** Makes limb i non-negative by borrowing from limb i + 1. */
  method Borrow(input: array<S32>, i: nat)
    requires input.Length == 10 && i < 9
    requires -0x600_0000 < input[i] < 0x600_0000 && -0x600_0000 < input[i + 1] < 0x600_0000
    modifies input
    ensures 0 <= old(input[i + 1]) as int - input[i + 1] as int <= 3
    ensures input[i] as int == old(input[i]) as int + Radix(i) * (old(input[i + 1]) as int - input[i + 1] as int)
    ensures if old(input[i]) >= 0 then input[i] == old(input[i]) else 0 <= input[i] as int < Radix(i)
    ensures forall j :: 0 <= j < 10 && j != i && j != i + 1 ==> input[j] == old(input[j])
    ensures V32(input) == old(V32(input))
  {
    ghost var s := Wide(input[..]);
    var carry := BorrowOf(input[i], i);
    input[i] := input[i] + carry * (if i % 2 == 1 then 0x200_0000 else 0x400_0000);
    input[i + 1] := input[i + 1] - carry;
    CarryKeepsValue(s, Wide(input[..]), 0, i, 10, -carry as int);
  }

  /** Makes limb 9 non-negative by borrowing from limb 0, where the borrow counts 19. */
  method BorrowWrap(input: array<S32>)
    requires input.Length == 10 && -0x600_0000 < input[9] < 0x400_0000 && -0x600_0000 < input[0] < 0x600_0000
    modifies input
    ensures 0 <= input[9] < 0x400_0000
    ensures if old(input[9]) >= 0 then input[0] == old(input[0]) else
            old(input[0]) - 57 <= input[0] <= old(input[0]) && (old(input[9]) >= -1 ==> input[0] == old(input[0]) - 19)
    ensures forall j :: 1 <= j < 9 ==> input[j] == old(input[j])
    ensures V32(input) % P == old(V32(input)) % P
  {
    ghost var s := Wide(input[..]);
    var carry := BorrowOf(input[9], 9);
    input[9] := input[9] + carry * 0x200_0000;
    input[0] := input[0] - carry * 19;
    WrapKeepsValue(s, Wide(input[..]), -carry as int);
  }

  /** Moving c units out of limb 9 adds 19 c to limb 0 and changes the value by a multiple of the prime. */
  lemma WrapKeepsValue(s: seq<Limb>, t: seq<Limb>, c: int)
    requires |s| == |t| == 10
    requires t[9] as int == s[9] as int - 0x200_0000 * c && t[0] as int == s[0] as int + 19 * c
    requires forall j :: 1 <= j < 9 ==> t[j] == s[j]
    ensures Value(t) == Value(s) - P * c
    ensures Value(t) % P == Value(s) % P
  {
    ValSplit(s, 1, 9, 10);
    ValSplit(t, 1, 9, 10);
    ValSame(s, t, 1, 9);
    WeightNine();
    assert Val(s, 9, 10) == s[9] as int && Val(t, 9, 10) == t[9] as int;
    CongruentBy(Value(s), Value(t), P, c);
  }

  lemma WeightNine()
    ensures 0x400_0000 * (0x200_0000 * Weight(1, 9)) == P + 19
  {
    assert Weight(5, 9) == 0x40_0000_0000_0000_0000_0000_0000;
    assert Weight(3, 9) == 0x200_0000_0000_0000_0000_0000_0000_0000_0000_0000;
    assert Weight(1, 9) == 0x1000_0000_0000_0000_0000_0000_0000_0000_0000_0000_0000_0000_0000;
  }

  ghost predicate Between(a: array<S32>, lo: int, hi: int)
    requires a.Length == 10
    reads a
  {
    forall j :: 0 <= j < 10 ==> lo <= a[j] as int < hi
  }

  /** Every limb but the lowest is non-negative, and the lowest falls short by at most 57. */
  ghost predicate Settled(a: array<S32>)
    requires a.Length == 10
    reads a
  {
    -57 <= a[0] < 0x400_0000 && forall j :: 1 <= j < 10 ==> 0 <= a[j] < 0x400_0000
  }

  /** One borrow pass. From limbs under 2^26 in absolute value it settles them; from settled limbs it
      leaves none negative, since a borrow that runs all the way round has topped up limb 0 on its way. */
  method BorrowPass(input: array<S32>)
    requires input.Length == 10 && Between(input, -0x3ff_ffff, 0x400_0000)
    modifies input
    ensures Settled(input)
    ensures old(Settled(input)) ==> Between(input, 0, 0x400_0000)
    ensures V32(input) % P == old(V32(input)) % P
  {
    for i := 0 to 9
      invariant V32(input) == old(V32(input))
      invariant forall j :: 0 <= j < i ==> 0 <= input[j] < 0x400_0000
      invariant forall j :: i < j < 10 ==> input[j] == old(input[j])
      invariant -0x400_0002 <= input[i] < 0x400_0000
      invariant i == 0 ==> input[0] == old(input[0])
      invariant old(Settled(input)) && i > 0 ==> input[i] >= -1 && (input[i] < 0 ==> input[0] >= 0x400_0000 - 57)
    {
      Borrow(input, i);
    }
    BorrowWrap(input);
  }

  /** x & 0x1ffffff and x & 0x3ffffff on a non-negative x: the part that fits limb i. */
  function LowPart(x: S32, i: nat): (r: S32)
    requires x >= 0
    ensures r as int == x as int % Radix(i)
  {
    Pow2Values();
    AndLow(32, x as int, if i % 2 == 1 then 25 else 26);
    And(x, if i % 2 == 1 then 0x1ff_ffff else 0x3ff_ffff)
  }

  /** Moves what limb i holds beyond its width into limb i + 1. */
  method CarryUp(input: array<S32>, i: nat)
    requires input.Length == 10 && i < 9
    requires 0 <= input[i] < 0x600_0000 && 0 <= input[i + 1] < 0x600_0000
    modifies input
    ensures 0 <= input[i] as int < Radix(i)
    ensures input[i] as int + Radix(i) * (input[i + 1] as int - old(input[i + 1]) as int) == old(input[i]) as int
    ensures 0 <= input[i + 1] as int - old(input[i + 1]) as int <= 2
    ensures forall j :: 0 <= j < 10 && j != i && j != i + 1 ==> input[j] == old(input[j])
    ensures V32(input) == old(V32(input))
  {
    ghost var s := Wide(input[..]);
    var carry := if i % 2 == 1 then Sar25(input[i]) else Sar26(input[i]);
    input[i] := LowPart(input[i], i);
    input[i + 1] := input[i + 1] + carry;
    CarryKeepsValue(s, Wide(input[..]), 0, i, 10, carry as int);
  }

  /** Moves what limb 9 holds beyond its width into limb 0, where it counts 19. */
  method CarryWrap(input: array<S32>)
    requires input.Length == 10 && 0 <= input[9] < 0x600_0000 && 0 <= input[0] < 0x600_0000
    modifies input
    ensures 0 <= input[9] < 0x200_0000
    ensures input[0] as int == old(input[0]) as int + 19 * (old(input[9]) as int / 0x200_0000)
    ensures forall j :: 1 <= j < 9 ==> input[j] == old(input[j])
    ensures V32(input) % P == old(V32(input)) % P
  {
    ghost var s := Wide(input[..]);
    var carry := Sar25(input[9]);
    input[9] := LowPart(input[9], 9);
    input[0] := input[0] + 19 * carry;
    WrapKeepsValue(s, Wide(input[..]), carry as int);
  }

  /** Every limb but the lowest is in its nominal range, and the lowest exceeds it by at most 38. */
  ghost predicate Nearly(a: array<S32>)
    requires a.Length == 10
    reads a
  {
    0 <= a[0] < 0x400_0000 + 38 && forall j :: 1 <= j < 10 ==> 0 <= a[j] as int < Radix(j)
  }

  ghost predicate Nominal(a: array<S32>)
    requires a.Length == 10
    reads a
  {
    forall j :: 0 <= j < 10 ==> 0 <= a[j] as int < Radix(j)
  }

  /** One carry pass. A carry that runs all the way round in the second pass has emptied limb 0. */
  method CarryPass(input: array<S32>)
    requires input.Length == 10 && (Between(input, 0, 0x400_0000) || Nearly(input))
    modifies input
    ensures Nearly(input)
    ensures old(Nearly(input)) ==> Nominal(input)
    ensures V32(input) % P == old(V32(input)) % P
  {
    for i := 0 to 9
      invariant V32(input) == old(V32(input))
      invariant forall j :: 0 <= j < i ==> 0 <= input[j] as int < Radix(j)
      invariant forall j :: i < j < 10 ==> input[j] == old(input[j])
      invariant 0 <= input[i] < 0x400_0000 + 38
      invariant i == 0 ==> input[0] == old(input[0])
      invariant i > 0 ==> input[i] < 0x400_0002
      invariant old(Nearly(input)) && i > 0 ==>
                  input[i] as int <= Radix(i) && (input[i] as int == Radix(i) ==> input[0] < 38)
    {
      CarryUp(input, i);
    }
    CarryWrap(input);
  }

  // -- The last subtraction --

  /** The largest value that limb i may hold. */
  function Largest(i: nat): S32 { if i % 2 == 1 then 0x1ff_ffff else 0x3ff_ffff }

  /** Nominal limbs from i up reach the weight of limb 10 less one only when all are at their largest. */
  lemma {:induction false} FullLimbs(s: seq<Limb>, i: nat)
    requires |s| == 10 && 1 <= i <= 10 && forall j :: 0 <= j < 10 ==> 0 <= s[j] as int < Radix(j)
    ensures Val(s, i, 10) <= Weight(i, 10) - 1
    ensures Val(s, i, 10) == Weight(i, 10) - 1 <==> forall j :: i <= j < 10 ==> s[j] as int == Radix(j) - 1
    decreases 10 - i
  {
    if i < 10 {
      FullLimbs(s, i + 1);
      var v, w := Val(s, i + 1, 10), Weight(i + 1, 10);
      MulAdd(Radix(i), w, -1);
      if v < w - 1 { MulMono(Radix(i), v, w - 2); MulAdd(Radix(i), w, -2); }
    }
  }

  /** mask & x for a mask that is all ones or zero. */
  method Masked(mask: S32, x: S32) returns (r: S32)
    requires mask == 0 || mask == -1
    ensures r == if mask == -1 then x else 0
  {
    Pow2Values();
    AndMask(32, x as int);
    r := And(mask, x);
  }

  /** All ones if the limbs represent at least the prime, else zero. */
  method PrimeMask(input: array<S32>) returns (mask: S32)
    requires input.Length == 10 && Nominal(input)
    ensures mask == if input[0] >= 0x3ff_ffed && forall j :: 1 <= j < 10 ==> input[j] == Largest(j) then -1 else 0
  {
    mask := S32Gte(input[0], 0x3ff_ffed);
    for i := 1 to 10
      invariant mask == if input[0] >= 0x3ff_ffed && forall j :: 1 <= j < i ==> input[j] == Largest(j) then -1 else 0
    {
      var equal := S32Eq(input[i], Largest(i));
      mask := Masked(mask, equal);
    }
  }

  /** Subtracts the prime from nominal limbs that represent at least the prime. */
  method SubtractPrime(input: array<S32>)
    requires input.Length == 10 && Nominal(input)
    modifies input
    ensures Nominal(input)
    ensures V32(input) == old(V32(input)) % P
  {
    var mask := PrimeMask(input);
    var less := Masked(mask, 0x3ff_ffed);
    input[0] := input[0] - less;
    for i := 1 to 10
      invariant input[0] == old(input[0]) - (if mask == -1 then 0x3ff_ffed else 0)
      invariant forall j :: 1 <= j < i ==> input[j] == old(input[j]) - (if mask == -1 then Largest(j) else 0)
      invariant forall j :: i <= j < 10 ==> input[j] == old(input[j])
    {
      less := Masked(mask, Largest(i));
      input[i] := input[i] - less;
    }
    SubtractedValue(Wide(old(input[..])), Wide(input[..]));
  }

  lemma SubtractedValue(s: seq<Limb>, t: seq<Limb>)
    requires |s| == |t| == 10 && forall j :: 0 <= j < 10 ==> 0 <= s[j] as int < Radix(j)
    requires if s[0] >= 0x3ff_ffed && forall j :: 1 <= j < 10 ==> s[j] as int == Radix(j) - 1
             then t[0] == s[0] - 0x3ff_ffed && forall j :: 1 <= j < 10 ==> t[j] == 0
             else t == s
    ensures Value(t) == Value(s) % P
  {
    FullLimbs(s, 1);
    WeightTen();
    var h, w := Val(s, 1, 10), Weight(1, 10);
    assert Value(s) == s[0] as int + 0x400_0000 * h && 0x400_0000 * w == P + 19;
    ValBound(s, 0, 10);
    if s[0] >= 0x3ff_ffed && h == w - 1 {
      ZeroLimbs(t, 1);
      DivUnique(Value(s), P, 1, Value(t));
    } else {
      assert Value(s) < P;
      DivUnique(Value(s), P, 0, Value(s));
    }
  }

  lemma {:induction false} ZeroLimbs(t: seq<Limb>, i: nat)
    requires |t| >= 10 && forall j :: i <= j < 10 ==> t[j] == 0
    ensures Val(t, i, 10) == 0
    decreases 10 - i
  {
    if i < 10 { ZeroLimbs(t, i + 1); }
  }

  // -- Writing the bytes --

  /** A left shift multiplies modulo 2^32. */
  lemma {:induction false} ShlMultiplies(x: int, k: nat) returns (c: int)
    ensures ShlW(32, x, k) == x * Pow2(k) + c * 0x1_0000_0000
  {
    if k == 0 {
      c := 0;
    } else {
      var d := ShlMultiplies(x, k - 1);
      Pow2Values();
      assert Pow2(k) == 2 * Pow2(k - 1);
      hide Pow2;
      var y := 2 * ShlW(32, x, k - 1) + 0x8000_0000;
      c := 2 * d - y / 0x1_0000_0000;
      MulShuffle(x, 1, Pow2(k - 1), 2);
    }
  }

  /** (x >> 8 n) & 0xff. */
  function ByteOf(x: S32, n: nat): (r: U8)
    requires n < 4
    ensures n == 0 ==> r as int == x as int % 0x100
    ensures n == 1 ==> r as int == x as int / 0x100 % 0x100
    ensures n == 2 ==> r as int == x as int / 0x1_0000 % 0x100
    ensures n == 3 ==> r as int == x as int / 0x100_0000 % 0x100
  {
    Pow2Values();
    var y := x as int / (if n == 0 then 1 else if n == 1 then 0x100 else if n == 2 then 0x1_0000 else 0x100_0000);
    AndLow(32, y, 8);
    AndW(32, y, 0xff) as U8
  }

  /** limb << k for a limb whose shifted value u fits 32 bits. */
  method ShiftLimb(x: S32, k: nat, ghost u: int) returns (y: S32)
    requires u == x as int * Pow2(k) && 0 <= u < 0x1_0000_0000
    ensures y as int % 0x1_0000_0000 == u
  {
    ghost var c := ShlMultiplies(x as int, k);
    y := Shl(x, k);
    DivUnique(y as int, 0x1_0000_0000, c, u);
  }

  /** Writes the four bytes of a word from byte start up, the lowest or-ed onto what is there.
      u is the word as a number, and the byte at start so far holds less than 2^k. */
  method PutWord(output: array<U8>, start: nat, x: S32, ghost base: nat, ghost u: int, ghost k: nat)
    requires output.Length == 32 && base <= start && start + 4 <= 32
    requires 0 <= u < 0x1_0000_0000 && x as int % 0x1_0000_0000 == u
    requires k <= 8 && output[start] as int < Pow2(k) && u % Pow2(k) == 0
    modifies output
    ensures Little(output[..], base, start + 4) ==
                old(Little(output[..], base, start + 1)) + Pow2(8 * (start - base)) * u
    ensures output[start + 3] as int == u / 0x100_0000
    ensures forall j :: 0 <= j < 32 && !(start <= j < start + 4) ==> output[j] == old(output[j])
  {
    BytesOfWord(x as int, u);
    LowByteJoins(output[start], u, k);
    output[start] := Or(output[start], ByteOf(x, 0));
    output[start + 1] := ByteOf(x, 1);
    output[start + 2] := ByteOf(x, 2);
    output[start + 3] := ByteOf(x, 3);
    PutValue(old(output[..]), output[..], base, start, u);
  }

  /** Writes x << k from byte start up; T is 2^k and w the weight of the limb above byte base. */
  method PutLimb(output: array<U8>, start: nat, x: S32, k: nat, ghost base: nat, ghost T: int, ghost w: int)
    requires output.Length == 32 && base <= start && start + 4 <= 32
    requires k <= 8 && T == Pow2(k) && w == Pow2(8 * (start - base)) * T
    requires 0 <= x && x as int * T < 0x1_0000_0000 && output[start] as int < T
    modifies output
    ensures Little(output[..], base, start + 4) == old(Little(output[..], base, start + 1)) + w * x as int
    ensures output[start + 3] as int == x as int * T / 0x100_0000
    ensures forall j :: 0 <= j < 32 && !(start <= j < start + 4) ==> output[j] == old(output[j])
  {
    ghost var u := x as int * T;
    MulMono(T, 0, x as int);
    DivUnique(u, T, x as int, 0);
    MulAddMul(Pow2(8 * (start - base)), 0, T, x as int);
    var y := ShiftLimb(x, k, u);
    PutWord(output, start, y, base, u, k);
  }

  lemma BytesOfWord(x: int, u: int)
    requires 0 <= u < 0x1_0000_0000 && x % 0x1_0000_0000 == u
    ensures x % 0x100 == u % 0x100
    ensures x / 0x100 % 0x100 == u / 0x100 % 0x100
    ensures x / 0x1_0000 % 0x100 == u / 0x1_0000 % 0x100
    ensures x / 0x100_0000 % 0x100 == u / 0x100_0000
  {
    ByteOfWord(x, u, 0x1, 0x100_0000);
    ByteOfWord(x, u, 0x100, 0x1_0000);
    ByteOfWord(x, u, 0x1_0000, 0x100);
    ByteOfWord(x, u, 0x100_0000, 0x1);
  }

  lemma ByteOfWord(x: int, u: int, d: int, e: int)
    requires d > 0 && e > 0 && d * e == 0x100_0000 && x % 0x1_0000_0000 == u
    ensures x / d % 0x100 == u / d % 0x100
  {
    var q := x / 0x1_0000_0000;
    MulShuffle(d, e, 0x100, q);
    MulAddMul(d, u / d, 0x100, e * q);
    DivUnique(x, d, u / d + 0x100 * (e * q), u % d);
    DivUnique(x / d, 0x100, u / d / 0x100 + e * q, u / d % 0x100);
  }

  lemma LowByteJoins(b: U8, u: int, k: nat)
    requires 0 <= u && k <= 8 && b as int < Pow2(k) && u % Pow2(k) == 0
    ensures OrW(8, b as int, u % 0x100) == b as int + u % 0x100
  {
    Pow2Values();
    Pow2Add(k, 8 - k);
    ModOfMultiple(u, Pow2(k), Pow2(8 - k));
    OrDisjoint(8, b as int, u % 0x100, k);
  }

  lemma ModOfMultiple(u: int, m: int, d: int)
    requires m > 0 && d > 0 && u % m == 0
    ensures m * d > 0 && u % (m * d) % m == 0
  {
    ModSplit(u, m, d);
    DivUnique(u % (m * d), m, (u / m) % d, 0);
  }

  lemma PutValue(s: seq<U8>, t: seq<U8>, base: nat, start: nat, u: int)
    requires |s| == |t| == 32 && base <= start && start + 4 <= 32 && 0 <= u < 0x1_0000_0000
    requires forall j :: 0 <= j < start ==> t[j] == s[j]
    requires t[start] as int == s[start] as int + u % 0x100 && t[start + 1] as int == u / 0x100 % 0x100
    requires t[start + 2] as int == u / 0x1_0000 % 0x100 && t[start + 3] as int == u / 0x100_0000
    ensures Little(t, base, start + 4) == Little(s, base, start + 1) + Pow2(8 * (start - base)) * u
  {
    LittleSplit(t, base, start, start + 4);
    LittleSplit(s, base, start, start + 1);
    LittleSame(s, t, base, start);
    FourBytes(t, start, start + 4);
    assert Little(s, start, start + 1) == s[start] as int;
    WordOfBytes(u);
    MulAdd(Pow2(8 * (start - base)), s[start] as int, u);
  }

  lemma WordOfBytes(u: int)
    requires 0 <= u < 0x1_0000_0000
    ensures u == u % 0x100 + 0x100 * (u / 0x100 % 0x100) + 0x1_0000 * (u / 0x1_0000 % 0x100) +
                0x100_0000 * (u / 0x100_0000)
  {
    assert u / 0x1_0000 == u / 0x100 / 0x100 && u / 0x100_0000 == u / 0x1_0000 / 0x100;
  }

  lemma {:induction false} LittleSame(s: seq<U8>, t: seq<U8>, i: nat, n: nat)
    requires n <= |s| && n <= |t| && forall j :: i <= j < n ==> s[j] == t[j]
    ensures Little(s, i, n) == Little(t, i, n)
    decreases n - i
  {
    if i < n { LittleSame(s, t, i + 1, n); }
  }

  lemma BytePowers()
    ensures Pow2(0) == 1 && Pow2(24) == 0x100_0000 && Pow2(48) == 0x1_0000_0000_0000
    ensures Pow2(72) == 0x100_0000_0000_0000_0000 && Pow2(96) == 0x1_0000_0000_0000_0000_0000_0000
  {
    Pow2Values();
    Pow2Add(24, 24); Pow2Add(48, 24); Pow2Add(48, 48);
  }

  /** Limbs 0 .. 5 into bytes 0 .. 16. */
  method PackLow(output: array<U8>, input: array<S32>)
    requires output.Length == 32 && input.Length == 10 && Nominal(input)
    modifies output
    ensures Little(output[..], 0, 16) ==
                input[0] as int + 0x400_0000 * input[1] as int + 0x8_0000_0000_0000 * input[2] as int +
            0x2000_0000_0000_0000_0000 * input[3] as int + 0x40_0000_0000_0000_0000_0000_0000 * input[4] as int
  {
    hide Pow2;
    SmallPowers();
    BytePowers();
    output[0] := 0;
    assert Little(output[..], 0, 1) == 0;
    PutLimb(output, 0, input[0], 0, 0, 1, 0x1);
    PutLimb(output, 3, input[1], 2, 0, 4, 0x4000000);
    PutLimb(output, 6, input[2], 3, 0, 8, 0x8000000000000);
    PutLimb(output, 9, input[3], 5, 0, 32, 0x20000000000000000000);
    PutLimb(output, 12, input[4], 6, 0, 64, 0x40000000000000000000000000);
  }

  /** Limbs 5 .. 10 into bytes 16 .. 32. */
  method PackHigh(output: array<U8>, input: array<S32>)
    requires output.Length == 32 && input.Length == 10 && Nominal(input)
    modifies output
    ensures Little(output[..], 16, 32) ==
                input[5] as int + 0x200_0000 * input[6] as int + 0x8_0000_0000_0000 * input[7] as int +
            0x1000_0000_0000_0000_0000 * input[8] as int + 0x40_0000_0000_0000_0000_0000_0000 * input[9] as int
    ensures forall j :: 0 <= j < 16 ==> output[j] == old(output[j])
  {
    hide Pow2;
    SmallPowers();
    BytePowers();
    output[16] := 0;
    assert Little(output[..], 16, 17) == 0;
    PutLimb(output, 16, input[5], 0, 16, 1, 0x1);
    PutLimb(output, 19, input[6], 1, 16, 2, 0x2000000);
    PutLimb(output, 22, input[7], 3, 16, 8, 0x8000000000000);
    PutLimb(output, 25, input[8], 4, 16, 16, 0x10000000000000000000);
    PutLimb(output, 28, input[9], 6, 16, 64, 0x40000000000000000000000000);
  }

  /** Writes the canonical little-endian bytes of the field element in input_limbs. */
  method FContract(output: array<U8>, inputLimbs: array<Limb>)
    requires output.Length == 32 && Within(inputLimbs, 10, 0x400_0000)
    modifies output
    ensures LittleEndian(output[..]) == V(inputLimbs) % P
  {
    var input := new S32[10];
    for i := 0 to 10
      invariant forall j :: 0 <= j < i ==> input[j] as int == inputLimbs[j] as int
    {
      input[i] := inputLimbs[i] as S32;
    }
    ValSame(Wide(input[..]), inputLimbs[..], 0, 10);
    BorrowPass(input);
    BorrowPass(input);
    Borrow(input, 0);
    CarryPass(input);
    CarryPass(input);
    SubtractPrime(input);
    PackLow(output, input);
    label packed:
    PackHigh(output, input);
    LittleSame(old@packed(output[..]), output[..], 0, 16);
    FiveLimbs(Wide(input[..]));
    PackedValue(output[..], Wide(input[..]));
  }

  /** Unpacking and packing again reduces any 32 bytes: the top bit is dropped and the rest taken modulo p. It gives
      the same bytes back exactly when they represent a number below p. */
  method ExpandContract(output: array<U8>, input: array<U8>)
    requires output.Length == 32 && input.Length == 32
    modifies output
    ensures LittleEndian(output[..]) == LittleEndian(old(input[..])) % (P + 19) % P
    ensures output[..] == old(input[..]) <==> LittleEndian(old(input[..])) < P
  {
    hide Val, Little;
    ghost var was := input[..];
    var limbs := new Limb[10];
    FExpand(limbs, input);
    FContract(output, limbs);
    if LittleEndian(was) == LittleEndian(output[..]) { LittleUnique(was, output[..], 0); }
    assert was[0..] == was && output[..][0..] == output[..];
  }

  lemma PackedValue(b: seq<U8>, t: seq<Limb>)
    requires |b| == 32 && |t| == 10 && Little(b, 0, 16) == Val(t, 0, 5) && Little(b, 16, 32) == Val(t, 5, 10)
    ensures LittleEndian(b) == Value(t)
  {
    LittleSplit(b, 0, 16, 32);
    ValSplit(t, 0, 5, 10);
    Weights();
  }
}
