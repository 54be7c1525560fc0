/** The Montgomery ladder on limb arrays, and curve25519_donna itself. */
module X25519Limbs {
  import opened Arithmetic
  import opened Bits
  import opened Limbs
  import opened FieldOps
  import opened Packing
  import opened Contraction
  import opened Ladder
  import opened LadderLength
  import opened Primes
  import opened Certificate

  /** The field element in an array, as a remainder. */
  ghost function R(a: array<Limb>): int
    requires a.Length >= 10
    reads a
  {
    V(a) % P
  }

  lemma TimesCongruent(v: int, a: int, b: int, p: nat)
    requires p > 0
    requires v % p == (a * b) % p
    ensures v % p == Times(a % p, b % p, p)
  {
    ModMod(a, p);
    ModMod(b, p);
    CongruentProduct(a, a % p, b, b % p, p);
  }

  lemma SumCongruent(a: int, b: int, p: nat)
    requires p > 0
    ensures (a + b) % p == Plus(a % p, b % p, p)
    ensures (a - b) % p == Minus(a % p, b % p, p)
  {
    ModMod(a, p);
    ModMod(b, p);
    CongruentSum(a, a % p, b, b % p, p);
  }

  /** The reduced product in an array with room for nineteen limbs. */
  method FMulLong(t: array<Limb>, in2: array<Limb>, in1: array<Limb>)
    requires t.Length >= 19 && t != in2 && t != in1
    requires Within(in2, 10, 0x800_0000) && Within(in1, 10, 0x800_0000)
    modifies t
    ensures R(t) == Times(R(in2), R(in1), P)
    ensures Within(t, 10, 0x400_0000)
  {
    FProduct(t, in2, in1);
    FReduceDegree(t);
    FReduceCoefficients(t);
    TimesCongruent(V(t), V(in2), V(in1), P);
  }

  method FSquareLong(t: array<Limb>, in1: array<Limb>)
    requires t.Length >= 10 && t != in1 && Within(in1, 10, 0x800_0000)
    modifies t
    ensures R(t) == Times(R(in1), R(in1), P)
    ensures Within(t, 10, 0x400_0000)
  {
    FSquare(t, in1);
    TimesCongruent(V(t), V(in1), V(in1), P);
  }

  /** x, z := x + z, x - z. */
  method SumAndDifference(x: array<Limb>, z: array<Limb>)
    requires x.Length >= 10 && x != z && Within(x, 10, 0x400_0000) && Within(z, 10, 0x400_0000)
    modifies x, z
    ensures R(x) == Plus(old(R(x)), old(R(z)), P) && R(z) == Minus(old(R(x)), old(R(z)), P)
    ensures Within(x, 10, 0x800_0000) && Within(z, 10, 0x800_0000)
  {
    var orig := new Limb[10];
    Copy10(orig, x);
    SumCongruent(V(x), V(z), P);
    FSum(x, z, 0x400_0000);
    FDifference(z, orig, 0x400_0000);
  }

  /** Squares do not tell a difference from its negation. */
  lemma SquareOfNegation(a: int, b: int, p: nat)
    requires p > 0
    ensures Times(Minus(a, b, p), Minus(a, b, p), p) == Times(Minus(b, a, p), Minus(b, a, p), p)
  {
    var d := a - b;
    ModMod(d, p);
    ModMod(-d, p);
    CongruentProduct(d, d % p, d, d % p, p);
    CongruentProduct(-d, -d % p, -d, -d % p, p);
    assert (-d) * (-d) == d * d;
  }

  /** From C * B and D * A to the sum of the two points. */
  method MontyAddTail(x3: array<Limb>, z3: array<Limb>, xxprime: array<Limb>, zzprime: array<Limb>, qmqp: array<Limb>)
    requires x3.Length >= 10 && z3.Length >= 10 && xxprime.Length >= 19 && zzprime.Length >= 19
    requires x3 != z3 && xxprime != zzprime && x3 !in {xxprime, zzprime, qmqp} && z3 !in {xxprime, zzprime, qmqp}
    requires qmqp !in {xxprime, zzprime} && Within(qmqp, 10, 0x400_0000)
    requires Within(xxprime, 10, 0x400_0000) && Within(zzprime, 10, 0x400_0000)
    modifies x3, z3, xxprime, zzprime
    ensures Within(x3, 10, 0x400_0000) && Within(z3, 10, 0x400_0000)
    ensures R(x3) == old(Times(Plus(R(xxprime), R(zzprime), P), Plus(R(xxprime), R(zzprime), P), P))
    ensures R(z3) == old(Times(Times(Minus(R(xxprime), R(zzprime), P), Minus(R(xxprime), R(zzprime), P), P), R(qmqp),
                P))
  {
    SumAndDifference(xxprime, zzprime);
    var xxxprime, zzzprime := new Limb[19], new Limb[19];
    FSquareLong(xxxprime, xxprime);
    FSquareLong(zzzprime, zzprime);
    FMulLong(zzprime, zzzprime, qmqp);
    Copy10(x3, xxxprime);
    Copy10(z3, zzprime);
  }

  /** The addition half: x and z hold A and B, xprime and zprime hold C and D. */
  method MontyAdd(x3: array<Limb>, z3: array<Limb>, x: array<Limb>, z: array<Limb>,
                  xprime: array<Limb>, zprime: array<Limb>, qmqp: array<Limb>)
    requires x3.Length >= 10 && z3.Length >= 10 && x3 != z3
    requires x3 !in {x, z, xprime, zprime, qmqp} && z3 !in {x, z, xprime, zprime, qmqp}
    requires Within(x, 10, 0x800_0000) && Within(z, 10, 0x800_0000)
    requires Within(xprime, 10, 0x800_0000) && Within(zprime, 10, 0x800_0000) && Within(qmqp, 10, 0x400_0000)
    modifies x3, z3
    ensures Within(x3, 10, 0x400_0000) && Within(z3, 10, 0x400_0000)
    ensures var DA, CB := Times(R(zprime), R(x), P), Times(R(xprime), R(z), P);
            && R(x3) == Times(Plus(DA, CB, P), Plus(DA, CB, P), P)
            && R(z3) == Times(R(qmqp), Times(Minus(DA, CB, P), Minus(DA, CB, P), P), P)
  {
    var xxprime, zzprime := new Limb[19], new Limb[19];
    FMulLong(xxprime, xprime, z);
    FMulLong(zzprime, x, zprime);
    AddFormulas(R(zprime), R(x), R(xprime), R(z), R(qmqp), P);
    MontyAddTail(x3, z3, xxprime, zzprime, qmqp);
  }

  /** Order of factors and sign of the difference do not matter. */
  lemma AddFormulas(d: int, a: int, c: int, b: int, q: int, p: nat)
    requires p > 0
    ensures Plus(Times(c, b, p), Times(a, d, p), p) == Plus(Times(d, a, p), Times(c, b, p), p)
    ensures var e, f := Minus(Times(c, b, p), Times(a, d, p), p), Minus(Times(d, a, p), Times(c, b, p), p);
            Times(Times(e, e, p), q, p) == Times(q, Times(f, f, p), p)
  {
    assert a * d == d * a;
    SquareOfNegation(Times(c, b, p), Times(d, a, p), p);
  }

  /** z2 = E * (AA + 121665 * E) with E in zz and AA in xx. */
  method MontyDoubleTail(z2: array<Limb>, zz: array<Limb>, xx: array<Limb>)
    requires z2.Length >= 19 && z2 !in {zz, xx}
    requires Within(zz, 10, 0x800_0000) && Within(xx, 10, 0x400_0000)
    modifies z2
    ensures Within(z2, 10, 0x400_0000)
    ensures R(z2) == Times(R(zz), Plus(R(xx), Times(121665, R(zz), P), P), P)
  {
    hide Val;
    var zzz := new Limb[19];
    FScalarProduct(zzz, zz, 121665);
    FReduceCoefficients(zzz);
    TimesCongruent(V(zzz), 121665, V(zz), P);
    SumCongruent(V(zzz), V(xx), P);
    FSum(zzz, xx, 0x400_0000);
    FMulLong(z2, zz, zzz);
  }

  /** The doubling half. */
  method MontyDouble(x2: array<Limb>, z2: array<Limb>, x: array<Limb>, z: array<Limb>)
    requires x2.Length >= 19 && z2.Length >= 19 && x2 != z2 && x2 !in {x, z} && z2 !in {x, z}
    requires Within(x, 10, 0x800_0000) && Within(z, 10, 0x800_0000)
    modifies x2, z2
    ensures Within(x2, 10, 0x400_0000) && Within(z2, 10, 0x400_0000)
    ensures var AA, BB := Times(R(x), R(x), P), Times(R(z), R(z), P);
            var E := Minus(AA, BB, P);
            && R(x2) == Times(AA, BB, P)
            && R(z2) == Times(E, Plus(AA, Times(121665, E, P), P), P)
  {
    var xx, zz := new Limb[19], new Limb[19];
    FSquareLong(xx, x);
    FSquareLong(zz, z);
    FMulLong(x2, xx, zz);
    SumCongruent(V(xx), V(zz), P);
    FDifference(zz, xx, 0x400_0000);
    MontyDoubleTail(z2, zz, xx);
  }

  /** The eight arrays of one ladder step and the base point are distinct. */
  ghost predicate Apart(x2: array<Limb>, z2: array<Limb>, x3: array<Limb>, z3: array<Limb>,
                        x: array<Limb>, z: array<Limb>, xprime: array<Limb>, zprime: array<Limb>, qmqp: array<Limb>)
  {
    && x2 !in {z2, x3, z3, x, z, xprime, zprime, qmqp} && z2 !in {x3, z3, x, z, xprime, zprime, qmqp}
    && x3 !in {z3, x, z, xprime, zprime, qmqp} && z3 !in {x, z, xprime, zprime, qmqp}
    && x !in {z, xprime, zprime, qmqp} && z !in {xprime, zprime, qmqp} && xprime !in {zprime, qmqp} && zprime != qmqp
  }

  /** 2Q and Q + Q' from Q, Q' and the x-coordinate of Q - Q'; destroys Q and Q'. */
  method FMonty(x2: array<Limb>, z2: array<Limb>, x3: array<Limb>, z3: array<Limb>,
                x: array<Limb>, z: array<Limb>, xprime: array<Limb>, zprime: array<Limb>, qmqp: array<Limb>)
    requires Apart(x2, z2, x3, z3, x, z, xprime, zprime, qmqp)
    requires x2.Length >= 19 && z2.Length >= 19 && x3.Length >= 10 && z3.Length >= 10
    requires Within(x, 10, 0x400_0000) && Within(z, 10, 0x400_0000)
    requires Within(xprime, 10, 0x400_0000) && Within(zprime, 10, 0x400_0000) && Within(qmqp, 10, 0x400_0000)
    modifies x2, z2, x3, z3, x, z, xprime, zprime
    ensures Within(x2, 10, 0x400_0000) && Within(z2, 10, 0x400_0000)
    ensures Within(x3, 10, 0x400_0000) && Within(z3, 10, 0x400_0000)
    ensures State(R(x2), R(z2), R(x3), R(z3), false) ==
            DoubleAndAdd(R(qmqp), old(State(R(x), R(z), R(xprime), R(zprime), false)), P)
  {
    SumAndDifference(x, z);
    SumAndDifference(xprime, zprime);
    MontyAdd(x3, z3, x, z, xprime, zprime, qmqp);
    MontyDouble(x2, z2, x, z);
  }

  // -- The ladder --

  /** Exchanges the first ten limbs of a and b if iswap is 1 and leaves them if it is 0. */
  method SwapConditional(a: array<Limb>, b: array<Limb>, iswap: Limb)
    requires a != b && (iswap == 0 || iswap == 1)
    requires Within(a, 10, 0x7fff_ffff) && Within(b, 10, 0x7fff_ffff)
    modifies a, b
    ensures forall j :: 0 <= j < 10 ==>
              if iswap == 1 then a[j] == old(b[j]) && b[j] == old(a[j]) else a[j] == old(a[j]) && b[j] == old(b[j])
  {
    var swap := -iswap as S32;
    for i := 0 to 10
      invariant forall j :: 0 <= j < i ==>
                  if iswap == 1 then a[j] == old(b[j]) && b[j] == old(a[j]) else a[j] == old(a[j]) && b[j] == old(b[j])
      invariant forall j :: i <= j < 10 ==> a[j] == old(a[j]) && b[j] == old(b[j])
    {
      var p, q := SwapWords(a[i] as S32, b[i] as S32, swap);
      a[i] := p as Limb;
      b[i] := q as Limb;
    }
  }

  /** Two words exchanged by exclusive or under an all-ones mask. */
  method SwapWords(a: S32, b: S32, swap: S32) returns (p: S32, q: S32)
    requires swap == 0 || swap == -1
    ensures if swap == -1 then p == b && q == a else p == a && q == b
  {
    Pow2Values();
    XorCancel(32, a as int, b as int);
    XorCancel(32, b as int, a as int);
    var x := Masked(swap, Xor(a, b));
    p := Xor(a, x);
    q := Xor(b, x);
  }

  /** Exchanging both coordinates of two points under a bit. */
  method SwapPoints(x: array<Limb>, z: array<Limb>, xp: array<Limb>, zp: array<Limb>, bit: Limb)
    requires x !in {z, xp, zp} && z !in {xp, zp} && xp != zp && (bit == 0 || bit == 1)
    requires Within(x, 10, 0x400_0000) && Within(z, 10, 0x400_0000)
    requires Within(xp, 10, 0x400_0000) && Within(zp, 10, 0x400_0000)
    modifies x, z, xp, zp
    ensures Within(x, 10, 0x400_0000) && Within(z, 10, 0x400_0000)
    ensures Within(xp, 10, 0x400_0000) && Within(zp, 10, 0x400_0000)
    ensures State(R(x), R(z), R(xp), R(zp), false) == CSwap(bit == 1, old(State(R(x), R(z), R(xp), R(zp), false)))
  {
    ghost var a, b, c, d := x[..], xp[..], z[..], zp[..];
    SwapConditional(x, xp, bit);
    ValSame(x[..], if bit == 1 then b else a, 0, 10);
    ValSame(xp[..], if bit == 1 then a else b, 0, 10);
    SwapConditional(z, zp, bit);
    ValSame(z[..], if bit == 1 then d else c, 0, 10);
    ValSame(zp[..], if bit == 1 then c else d, 0, 10);
  }

  /** The ladder state with the swap it owes carried out. */
  ghost function Settled(s: State): State { CSwap(s.swap, s).(swap := false) }

  /** Swapping before and after each step is the ladder that defers its swaps. */
  lemma StepSettled(x1: int, s: State, kt: bool, p: nat)
    requires p > 0
    ensures Settled(Step(x1, s, kt, p)) == CSwap(kt, DoubleAndAdd(x1, CSwap(kt, Settled(s)), p))
  {
  }

  lemma RunStep(x1: int, k: nat, c: nat, s: State, t: State, p: nat)
    requires p > 0
    requires c < 256 && s == Settled(Run(x1, k, 256, c, p))
    requires t == CSwap(Bit(k, 255 - c), DoubleAndAdd(x1, CSwap(Bit(k, 255 - c), s), p))
    ensures t == Settled(Run(x1, k, 256, c + 1, p))
  {
    StepSettled(x1, Run(x1, k, 256, c, p), Bit(k, 255 - c), p);
  }

  /** The arrays of the ladder: the two current points and room for the next two. */
  datatype Work = Work(nqx: array<Limb>, nqz: array<Limb>, nqpqx: array<Limb>, nqpqz: array<Limb>,
                       nqx2: array<Limb>, nqz2: array<Limb>, nqpqx2: array<Limb>, nqpqz2: array<Limb>)

  ghost function Arrays(w: Work): set<object> {
    {w.nqx, w.nqz, w.nqpqx, w.nqpqz, w.nqx2, w.nqz2, w.nqpqx2, w.nqpqz2}
  }

  /** The exchange of pointers that ends a round. */
  function Rotated(w: Work): Work {
    Work(w.nqx2, w.nqz2, w.nqpqx2, w.nqpqz2, w.nqx, w.nqz, w.nqpqx, w.nqpqz)
  }

  ghost predicate Laid(w: Work, q: array<Limb>) {
    && Apart(w.nqx2, w.nqz2, w.nqpqx2, w.nqpqz2, w.nqx, w.nqz, w.nqpqx, w.nqpqz, q)
    && w.nqx.Length == w.nqz.Length == w.nqpqx.Length == w.nqpqz.Length == 19
    && w.nqx2.Length == w.nqz2.Length == w.nqpqx2.Length == w.nqpqz2.Length == 19
  }

  ghost predicate Reduced(w: Work)
    reads Arrays(w)
  {
    && Within(w.nqx, 10, 0x400_0000) && Within(w.nqz, 10, 0x400_0000)
    && Within(w.nqpqx, 10, 0x400_0000) && Within(w.nqpqz, 10, 0x400_0000)
  }

  ghost function Points(w: Work): State
    requires Reduced(w)
    reads Arrays(w)
  {
    State(R(w.nqx), R(w.nqz), R(w.nqpqx), R(w.nqpqz), false)
  }

  /** One round of the inner loop: swap, step, swap. */
  method Round(w: Work, q: array<Limb>, bit: Limb)
    requires Laid(w, q) && Reduced(w) && Within(q, 10, 0x400_0000) && (bit == 0 || bit == 1)
    modifies Arrays(w)
    ensures Reduced(Rotated(w))
    ensures Points(Rotated(w)) == CSwap(bit == 1, DoubleAndAdd(R(q), CSwap(bit == 1, old(Points(w))), P))
  {
    SwapPoints(w.nqx, w.nqz, w.nqpqx, w.nqpqz, bit);
    FMonty(w.nqx2, w.nqz2, w.nqpqx2, w.nqpqz2, w.nqx, w.nqz, w.nqpqx, w.nqpqz, q);
    SwapPoints(w.nqx2, w.nqz2, w.nqpqx2, w.nqpqz2, bit);
  }

  /** b is o shifted left by j, as far as the bits from j up to 8 go. */
  ghost predicate ShiftedByte(b: int, o: int, j: nat) {
    forall r :: j <= r < 8 ==> Bit(b, r) == Bit(o, r - j)
  }

  lemma FullByte(b: int)
    ensures ShiftedByte(b, b, 0)
  {
  }

  lemma NextBit(b: U8, o: U8, j: nat)
    requires j < 8 && ShiftedByte(b as int, o as int, j)
    ensures (b / 128 == 1) == Bit(o as int, 7 - j) && 0 <= b / 128 <= 1
    ensures ShiftedByte(2 * b as int % 0x100, o as int, j + 1)
  {
    hide Pow2;
    SmallPowers();
    Pow2Values();
    BitIsDigit(b as int, 7);
    assert Bit(b as int, 7) == Bit(o as int, 7 - j);
    ghost var d, c := 2 * b as int, 2 * b as int / 0x100;
    assert d % 0x100 == d + (-c) * 0x100;
    forall r | j + 1 <= r < 8 ensures Bit(d % 0x100, r) == Bit(o as int, r - (j + 1)) {
      BitAddHigh(d, -c, 8, r);
      assert Bit(d, r) == Bit(b as int, r - 1);
    }
  }

  method NewNumber(v: Limb) returns (a: array<Limb>)
    requires v == 0 || v == 1
    ensures fresh(a) && a.Length == 19 && Within(a, 10, 0x400_0000) && R(a) == v as int
  {
    a := new Limb[19](_ => 0);
    a[0] := v;
    ghost var t := a[..];
    ZeroLimbs(t, 1);
    DivUnique(V(a), P, 0, v as int);
  }

  /** Round j of byte i handles bit 255 - (8 i + j) of the scalar. */
  lemma ScalarBit(n: seq<U8>, i: nat, j: nat, byte: U8, top: U8)
    requires |n| == 32 && i < 32 && j < 8 && top == n[31 - i] && (byte / 128 == 1) == Bit(top as int, 7 - j)
    ensures (byte / 128 == 1) == Bit(LittleEndian(n), 255 - (8 * i + j))
  {
    LittleBit(n, 0, 31 - i, 7 - j);
    assert 8 * (31 - i - 0) + (7 - j) == 255 - (8 * i + j);
  }

  method RoundOf(w: Work, q: array<Limb>, bit: Limb, ghost x1: int, ghost k: nat, ghost c: nat)
    requires Laid(w, q) && Reduced(w) && Within(q, 10, 0x400_0000) && x1 == R(q) && c < 256
    requires (bit == 0 || bit == 1) && (bit == 1) == Bit(k, 255 - c)
    requires Points(w) == Settled(Run(x1, k, 256, c, P))
    modifies Arrays(w)
    ensures Reduced(Rotated(w)) && Points(Rotated(w)) == Settled(Run(x1, k, 256, c + 1, P))
  {
    ghost var before := Points(w);
    Round(w, q, bit);
    RunStep(x1, k, c, before, Points(Rotated(w)), P);
  }

  /** Takes the top bit of the byte, runs a round under it and shifts the byte. */
  method BitRound(w: Work, q: array<Limb>, byte: U8, ghost n: seq<U8>, ghost i: nat, ghost j: nat,
                  ghost x1: int, ghost k: nat, ghost c: nat) returns (shifted: U8)
    requires |n| == 32 && i < 32 && j < 8 && c == 8 * i + j && k == LittleEndian(n)
    requires ShiftedByte(byte as int, n[31 - i] as int, j)
    requires Laid(w, q) && Reduced(w) && Within(q, 10, 0x400_0000) && x1 == R(q)
    requires Points(w) == Settled(Run(x1, k, 256, c, P))
    modifies Arrays(w)
    ensures ShiftedByte(shifted as int, n[31 - i] as int, j + 1)
    ensures Reduced(Rotated(w)) && Points(Rotated(w)) == Settled(Run(x1, k, 256, c + 1, P))
  {
    hide Run, Val, Little, Settled, ShiftedByte;
    var bit := byte / 128;
    NextBit(byte, n[31 - i], j);
    ScalarBit(n, i, j, byte, n[31 - i]);
    RoundOf(w, q, bit as Limb, x1, k, c);
    shifted := (2 * byte as int % 0x100) as U8;
  }

  /** The inner loop: the eight bits of one byte of n, from the top. */
  method MultByte(w0: Work, byte0: U8, q: array<Limb>, ghost n: seq<U8>, ghost i: nat,
                  ghost x1: int, ghost k: nat, ghost c: nat) returns (w: Work)
    requires |n| == 32 && i < 32 && k == LittleEndian(n) && byte0 == n[31 - i] && c == 8 * i
    requires Laid(w0, q) && Reduced(w0) && Within(q, 10, 0x400_0000) && x1 == R(q)
    requires Points(w0) == Settled(Run(x1, k, 256, c, P))
    modifies Arrays(w0)
    ensures Arrays(w) == Arrays(w0) && Laid(w, q) && Reduced(w)
    ensures Points(w) == Settled(Run(x1, k, 256, c + 8, P))
  {
    hide Run, Val, Little, Settled, ShiftedByte;
    assert ShiftedByte(byte0 as int, n[31 - i] as int, 0) by { FullByte(byte0 as int); }
    w := w0;
    var byte := byte0;
    for j := 0 to 8
      invariant (w == w0 || w == Rotated(w0)) && Laid(w, q) && Reduced(w)
      invariant ShiftedByte(byte as int, n[31 - i] as int, j)
      invariant Points(w) == Settled(Run(x1, k, 256, c + j, P))
    {
      byte := BitRound(w, q, byte, n, i, j, x1, k, c + j);
      w := Rotated(w);
    }
  }

  lemma RunStart(x1: int, k: nat, p: nat)
    requires p > 0
    ensures Settled(Run(x1, k, 256, 0, p)) == State(1, 0, x1, 1, false)
  {
  }

  /** The outer loop: the 32 bytes of n, from the top. */
  method MultBytes(n: array<U8>, q: array<Limb>) returns (w: Work)
    requires n.Length == 32 && Within(q, 10, 0x400_0000)
    ensures fresh(Arrays(w)) && Laid(w, q) && Reduced(w)
    ensures Points(w) == Settled(Run(R(q), LittleEndian(n[..]), 256, 256, P))
  {
    hide Run, Val, Little, Settled, Points, Reduced, Laid;
    ghost var x1, k := R(q), LittleEndian(n[..]);
    RunStart(x1, k, P);
    w := NewWork(q);
    ghost var c: nat := 0;
    for i := 0 to 32
      invariant fresh(Arrays(w)) && Laid(w, q) && Reduced(w) && c == 8 * i
      invariant Points(w) == Settled(Run(x1, k, 256, c, P))
    {
      w := MultByte(w, n[31 - i], q, n[..], i, x1, k, c);
      c := c + 8;
    }
  }

  /** The x-coordinate of n times the point q, in projective form. */
  method CMult(resultx: array<Limb>, resultz: array<Limb>, n: array<U8>, q: array<Limb>)
    requires resultx.Length >= 10 && resultz.Length >= 10 && n.Length == 32
    requires resultx !in {resultz, q} && resultz != q && Within(q, 10, 0x400_0000)
    modifies resultx, resultz
    ensures Within(resultx, 10, 0x400_0000) && Within(resultz, 10, 0x400_0000)
    ensures var s := Settled(Run(R(q), LittleEndian(n[..]), 256, 256, P));
            R(resultx) == s.x2 && R(resultz) == s.z2
  {
    hide Run, Val, Little, Settled;
    var w := MultBytes(n, q);
    Copy10(resultx, w.nqx);
    Copy10(resultz, w.nqz);
  }

  /** The starting points (1 : 0) and (q : 1). */
  method NewWork(q: array<Limb>) returns (w: Work)
    requires Within(q, 10, 0x400_0000)
    ensures fresh(Arrays(w)) && Laid(w, q) && Reduced(w)
    ensures Points(w) == State(1, 0, R(q), 1, false)
  {
    var a := NewNumber(0);
    var b := NewNumber(1);
    var c := NewNumber(1);
    var d := NewNumber(0);
    var e := NewNumber(0);
    var f := NewNumber(1);
    var g := NewNumber(0);
    var h := NewNumber(1);
    Copy10(a, q);
    w := Work(c, d, a, b, g, h, e, f);
  }

  // -- Inversion --

  /** a holds z to the power e, in limbs under 2^26. */
  ghost predicate IsPower(a: array<Limb>, z: int, e: nat)
    reads a
  {
    Within(a, 10, 0x400_0000) && R(a) == Pow(z, e) % P
  }

  lemma PowersMultiply(v: int, x: int, y: int, z: int, e: nat, f: nat, p: nat)
    requires p > 0 && v % p == (x * y) % p && x % p == Pow(z, e) % p && y % p == Pow(z, f) % p
    ensures v % p == Pow(z, e + f) % p
  {
    CongruentProduct(x, Pow(z, e), y, Pow(z, f), p);
    PowAdd(z, e, f);
  }

  method SquarePower(output: array<Limb>, input: array<Limb>, ghost z: int, ghost e: nat)
    requires output.Length >= 10 && output != input && IsPower(input, z, e)
    modifies output
    ensures IsPower(output, z, 2 * e)
  {
    FSquare(output, input);
    PowersMultiply(V(output), V(input), V(input), z, e, e, P);
  }

  method MulPower(output: array<Limb>, in1: array<Limb>, in2: array<Limb>, ghost z: int, ghost e: nat, ghost f: nat)
    requires output.Length >= 10 && output != in1 && output != in2 && IsPower(in1, z, e) && IsPower(in2, z, f)
    modifies output
    ensures IsPower(output, z, e + f)
  {
    FMul(output, in1, in2);
    PowersMultiply(V(output), V(in1), V(in2), z, e, f, P);
  }

  /** a holds z to a power whose binary form is a run of m ones. */
  ghost predicate IsOnes(a: array<Limb>, z: int, m: nat)
    reads a
  {
    IsPower(a, z, Pow2(m) - 1)
  }

  /** t1 := input^(2^n) by squaring between two arrays, two squarings at a time. */
  method SquareMany(t0: array<Limb>, t1: array<Limb>, input: array<Limb>, n: nat, ghost z: int, ghost e: nat)
    requires t0.Length >= 10 && t1.Length >= 10 && t0 != t1 && input !in {t0, t1} && n >= 2 && n % 2 == 0
    requires IsPower(input, z, e)
    modifies t0, t1
    ensures IsPower(t1, z, e * Pow2(n))
  {
    SquarePower(t0, input, z, e);
    SquarePower(t1, t0, z, 2 * e);
    assert Pow2(2) == 4;
    var i := 2;
    ghost var f := e * Pow2(i);
    while i < n
      invariant 2 <= i <= n && i % 2 == 0
      invariant f == e * Pow2(i) && f >= 0 && IsPower(t1, z, f)
    {
      SquarePower(t0, t1, z, f);
      SquarePower(t1, t0, z, 2 * f);
      FourTimes(e, i);
      f := 4 * f;
      i := i + 2;
    }
  }

  lemma FourTimes(e: nat, i: nat)
    ensures 4 * (e * Pow2(i)) == e * Pow2(i + 2)
  {
    assert Pow2(i + 2) == 4 * Pow2(i);
    MulAddMul(e, 0, 4, Pow2(i));
  }

  /** A run of m ones, raised by 2^n and joined with a run of n ones, is a run of m + n. */
  method RaiseOnes(output: array<Limb>, input: array<Limb>, other: array<Limb>, n: nat, ghost z: int, ghost m: nat)
    requires output.Length >= 10 && output != input && output != other && n >= 2 && n % 2 == 0
    requires IsOnes(input, z, m) && IsOnes(other, z, n)
    modifies output
    ensures IsOnes(output, z, m + n)
  {
    var t0, t1 := new Limb[10], new Limb[10];
    MulMono(Pow2(n), 0, Pow2(m) - 1);
    SquareMany(t0, t1, input, n, z, Pow2(m) - 1);
    MulPower(output, t1, other, z, (Pow2(m) - 1) * Pow2(n), Pow2(n) - 1);
    RunOfOnes(m, n);
  }

  /** Squares five times and multiplies by another power. */
  method FiveSquaresAndMul(output: array<Limb>, input: array<Limb>, other: array<Limb>, ghost z: int, ghost e: nat,
      ghost f: nat)
    requires output.Length >= 10 && output != input && output != other
    requires IsPower(input, z, e) && IsPower(other, z, f)
    modifies output
    ensures IsPower(output, z, 32 * e + f)
  {
    var t0, t1 := new Limb[10], new Limb[10];
    SquarePower(t0, input, z, e);
    SquarePower(t1, t0, z, 2 * e);
    SquarePower(t0, t1, z, 4 * e);
    SquarePower(t1, t0, z, 8 * e);
    SquarePower(t0, t1, z, 16 * e);
    MulPower(output, t0, other, z, 32 * e, f);
  }

  /** z^9 and z^11. */
  method RecipStart(z9: array<Limb>, z11: array<Limb>, z: array<Limb>, ghost v: int)
    requires z9.Length >= 10 && z11.Length >= 10 && z9 != z11 && z !in {z9, z11} && IsPower(z, v, 1)
    modifies z9, z11
    ensures IsPower(z9, v, 9) && IsPower(z11, v, 11)
  {
    hide IsPower, Pow;
    var z2 := new Limb[10];
    var t0, t1 := new Limb[10], new Limb[10];
    SquarePower(z2, z, v, 1);
    SquarePower(t1, z2, v, 2);
    SquarePower(t0, t1, v, 4);
    MulPower(z9, t0, z, v, 8, 1);
    MulPower(z11, z9, z2, v, 9, 2);
  }

  /** A run of m ones raised by 2^n and followed by n ones is a run of m + n ones. */
  lemma RunOfOnes(m: nat, n: nat)
    ensures (Pow2(m) - 1) * Pow2(n) + (Pow2(n) - 1) == Pow2(m + n) - 1
  {
    Pow2Add(m, n);
    AddMulMul(Pow2(m), -1, 1, Pow2(n));
  }

  lemma ExponentOfInverse()
    ensures Pow2(10) == 1024 && 32 * (Pow2(250) - 1) + 11 == P - 2
  {
    assert Pow2(5) == 32;
    Pow2Values();
    Pow2Add(64, 64);
    Pow2Add(128, 64);
    Pow2Add(192, 63);
    Pow2Add(250, 5);
  }

  /** From a run of n ones to 2n, 4n and 5n: the middle of the chain, for n = 10 and again for n = 50. */
  method TimesFive(output: array<Limb>, input: array<Limb>, n: nat, ghost z: int)
    requires output.Length >= 10 && output != input && n >= 2 && n % 2 == 0 && IsOnes(input, z, n)
    modifies output
    ensures IsOnes(output, z, 5 * n)
  {
    var twice, fourTimes := new Limb[10], new Limb[10];
    RaiseOnes(twice, input, input, n, z, n);
    RaiseOnes(fourTimes, twice, twice, 2 * n, z, 2 * n);
    RaiseOnes(output, fourTimes, input, n, z, 4 * n);
  }

  /** z^11 and z to a run of ten ones. */
  method RecipTen(z11: array<Limb>, z2_10_0: array<Limb>, z: array<Limb>, ghost v: int)
    requires z11.Length >= 10 && z2_10_0.Length >= 10 && z11 != z2_10_0 && z !in {z11, z2_10_0} && IsPower(z, v, 1)
    modifies z11, z2_10_0
    ensures IsPower(z11, v, 11) && IsPower(z2_10_0, v, 1023)
  {
    hide IsPower, Pow;
    var z9, t0, z2_5_0 := new Limb[10], new Limb[10], new Limb[10];
    RecipStart(z9, z11, z, v);
    SquarePower(t0, z11, v, 11);
    MulPower(z2_5_0, t0, z9, v, 22, 9);
    FiveSquaresAndMul(z2_10_0, z2_5_0, z2_5_0, v, 31, 31);
  }

  /** output = z^(p-2), the inverse of z when z is not 0, by 254 squarings. */
  method RecipPower(output: array<Limb>, z: array<Limb>, ghost v: int)
    requires output.Length >= 10 && output != z && IsPower(z, v, 1)
    modifies output
    ensures IsPower(output, v, P - 2)
  {
    hide IsPower, Pow, Pow2;
    var z11, z2_10_0, z2_50_0, z2_250_0 := new Limb[10], new Limb[10], new Limb[10], new Limb[10];
    RecipTen(z11, z2_10_0, z, v);
    ExponentOfInverse();
    TimesFive(z2_50_0, z2_10_0, 10, v);
    TimesFive(z2_250_0, z2_50_0, 50, v);
    FiveSquaresAndMul(output, z2_250_0, z11, v, Pow2(250) - 1, 11);
  }

  method CRecip(output: array<Limb>, z: array<Limb>)
    requires output.Length >= 10 && output != z && Within(z, 10, 0x400_0000)
    modifies output
    ensures Within(output, 10, 0x400_0000)
    ensures R(output) == Pow(V(z), P - 2) % P
  {
    ghost var v := V(z);
    assert Pow(v, 1) == v by { assert Pow(v, 0) == 1; }
    RecipPower(output, z, v);
  }

  // -- The whole function --

  /** x & 248 clears the three low bits. */
  method ClearLow(x: U8) returns (r: U8)
    ensures r as int == 8 * (x as int / 8)
  {
    ghost var d := x as int / 8;
    ClearLowBits(x as int, d);
    r := AndW(9, x as int, 248) as U8;
    assert r as int == 8 * d;
  }

  lemma ClearLowBits(a: int, d: int)
    requires 0 <= a < 0x100 && d == a / 8
    ensures AndW(9, a, 248) == 8 * d && 0 <= AndW(9, a, 248) < 0x100
  {
    hide AndW;
    var b := a / 2;
    var c := b / 2;
    assert c / 2 == d;
    AndNext(7, c, 62);
    AndNext(8, b, 124);
    AndNext(9, a, 248);
    assert Pow2(5) == 32;
    AndLowIs(6, d, 5, 32);
  }

  /** (x & 127) | 64 clears the top bit and sets the one below it. */
  method SetHigh(x: U8) returns (r: U8)
    ensures r as int == x as int % 64 + 64
  {
    SetHighBits(x as int);
    r := OrW(8, AndW(9, x as int, 127), 64) as U8;
  }

  lemma SetHighBits(a: int)
    requires 0 <= a < 0x100
    ensures OrW(8, AndW(9, a, 127), 64) == a % 64 + 64
  {
    SmallPowers();
    Pow2Values();
    AndLowIs(9, a, 7, 128);
    OrBit(a % 128);
    ModSplit(a, 64, 2);
    DivUnique(a % 128, 64, (a / 64) % 2, a % 64);
  }

  lemma OrBit(b: int)
    requires 0 <= b < 128
    ensures OrW(8, b, 64) == b % 64 + 64
  {
    hide Pow2, OrW;
    SmallPowers();
    Pow2Values();
    var k: nat := 6;
    if b < 64 {
      OrDisjoint(8, b, 64, k);
    } else {
      OrTwice(8, b - 64, k);
    }
  }

  /** Setting a bit that is set changes nothing. */
  lemma {:induction false} OrTwice(w: nat, a: int, k: nat)
    requires k < w && 0 <= a < Pow2(k)
    ensures OrW(w, a + Pow2(k), Pow2(k)) == a + Pow2(k)
    decreases w
  {
    if k == 0 {
      OrDisjoint(w - 1, 0, 0, 0);
    } else {
      OrTwice(w - 1, a / 2, k - 1);
    }
  }

  /** The scalar with its bits fixed. */
  method ClampScalar(e: array<U8>, secret: array<U8>)
    requires e.Length == 32 && secret.Length == 32 && e != secret
    modifies e
    ensures e[..] == Clamp(secret[..])
    ensures LittleEndian(e[..]) % 8 == 0 && Pow2(254) <= LittleEndian(e[..]) < Pow2(255)
    ensures forall i: nat :: 3 <= i < 254 ==> Bit(LittleEndian(e[..]), i) == Bit(LittleEndian(secret[..]), i)
  {
    hide Pow2, Bit, Little, LittleEndian;
    for i := 0 to 32
      invariant forall j :: 0 <= j < i ==> e[j] == secret[j]
    {
      e[i] := secret[i];
    }
    e[0] := ClearLow(e[0]);
    e[31] := SetHigh(e[31]);
    assert e[..] == Clamp(secret[..]);
    Clamped(secret[..]);
  }

  /** The quotient x / z, as x * z^(p - 2). */
  method Divide(z: array<Limb>, x: array<Limb>, zmone: array<Limb>)
    requires z.Length >= 11 && zmone.Length == 10 && x != z && z != zmone && x != zmone
    requires Within(x, 10, 0x400_0000) && Within(z, 10, 0x400_0000)
    modifies z, zmone
    ensures Within(z, 10, 0x400_0000) && R(z) == Times(R(x), Pow(old(R(z)), P - 2), P)
  {
    hide Pow, Times;
    ghost var vz := V(z);
    CRecip(zmone, z);
    FMul(z, x, zmone);
    QuotientValue(V(z), V(x), V(zmone), vz, P);
  }

  /** The ladder over 256 bits that the code runs. */
  method Ladder256(mypublic: array<U8>, secret: array<U8>, basepoint: array<U8>)
    requires mypublic.Length == 32 && secret.Length == 32 && basepoint.Length == 32
    modifies mypublic
    ensures LittleEndian(mypublic[..]) == X25519(old(secret[..]), old(basepoint[..]), 256, P)
  {
    hide Run, Pow, Pow2, Bit, Times, Clamp, LittleEndian, Little, Val;
    var bp, x, z, zmone := new Limb[10], new Limb[10], new Limb[11], new Limb[10];
    var e := new U8[32];
    ClampScalar(e, secret);
    FExpand(bp, basepoint);
    CMult(x, z, e, bp);
    Divide(z, x, zmone);
    FContract(mypublic, z);
  }

  /** curve25519_donna: for every secret and base point the output is the canonical encoding of X25519 as section 5 of
      RFC 7748 defines it. */
  method Curve25519Donna(mypublic: array<U8>, secret: array<U8>, basepoint: array<U8>)
    requires mypublic.Length == 32 && secret.Length == 32 && basepoint.Length == 32
    modifies mypublic
    ensures LittleEndian(mypublic[..]) == X25519(old(secret[..]), old(basepoint[..]), 255, P)
  {
    hide X25519, IsPrime, LittleEndian;
    ghost var k, u := secret[..], basepoint[..];
    Ladder256(mypublic, secret, basepoint);
    PrimeP();
    SameAsRfc(k, u, P);
  }

  lemma QuotientValue(v: int, x: int, inverse: int, z: int, p: nat)
    requires p > 1
    requires v % p == (x * inverse) % p && inverse % p == Pow(z, p - 2) % p
    ensures v % p == Times(x % p, Pow(z % p, p - 2), p)
  {
    ModMod(x, p);
    ModMod(z, p);
    PowCongruent(z, z % p, p - 2, p);
    CongruentProduct(x, x % p, inverse, Pow(z % p, p - 2), p);
  }
}
