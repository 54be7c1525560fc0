/** The ladder of section 5 of RFC 7748 multiplies points of the curve: it follows the chord and tangent law. */
module Curve {
  import opened Arithmetic
  import opened Bits
  import opened Ladder
  import opened LadderLength
  import opened Packing
  import opened Primes

  /** The coefficient of the curve y^2 = x^3 + A x^2 + x. */
  const A: int := 486662

  datatype Point = Point(x: int, y: int)

  function Cubic(x: int, a: int): int { x * (x * x + a * x + 1) }

  ghost predicate OnCurve(pt: Point, p: nat)
    requires p > 0
  {
    0 <= pt.x < p && (pt.y * pt.y) % p == Cubic(pt.x, A) % p
  }

  function Opposite(pt: Point): Point { Point(pt.x, -pt.y) }

  /** The slopes of tangent and chord, as numerators over 2 y and over the difference of the x. */
  function TangentTop(x: int, a: int): int { 3 * (x * x) + 2 * a * x + 1 }

  /** x is the x-coordinate of twice the point: the square of the tangent's slope, less A and both x. */
  ghost predicate Doubles(pt: Point, x: int, p: nat)
    requires p > 0
  {
    var d := 2 * pt.y;
    && OnCurve(pt, p) && 0 <= x < p && d % p != 0
    && (x * (d * d)) % p == (TangentTop(pt.x, A) * TangentTop(pt.x, A) - (A + 2 * pt.x) * (d * d)) % p
  }

  /** x is the x-coordinate of the sum of two points: the square of the chord's slope, less A and both x. */
  ghost predicate Adds(pt: Point, qt: Point, x: int, p: nat)
    requires p > 0
  {
    var d, e := pt.x - qt.x, pt.y - qt.y;
    && OnCurve(pt, p) && OnCurve(qt, p) && 0 <= x < p && d % p != 0
    && (x * (d * d)) % p == (e * e - (A + pt.x + qt.x) * (d * d)) % p
  }

  // -- Identities --

  lemma TangentIdentity(x: int, a: int)
    ensures TangentTop(x, a) * TangentTop(x, a) - (a + 2 * x) * (4 * Cubic(x, a)) == (x * x - 1) * (x * x - 1)
  {
    var q := x * x;
    var m := a * x;
    assert Cubic(x, a) == x * (q + m + 1);
    assert (a + 2 * x) * (4 * Cubic(x, a)) == 4 * (m + 2 * q) * (q + m + 1);
  }

  lemma ChordSum(u: int, v: int, a: int)
    ensures var d, s, m := u - v, u + v, u * v;
            Cubic(u, a) + Cubic(v, a) - (a + u + v) * (d * d) == s * (m + 1) + 2 * (a * m) && d * d == s * s - 4 * m
  {
  }

  lemma ChordProduct(u: int, v: int, a: int)
    ensures var s, m := u + v, u * v;
            Cubic(u, a) * Cubic(v, a) == m * (m * m + a * m * s + a * a * m + s * s - 2 * m + a * s + 1)
  {
    var s, m, f, g := u + v, u * v, u * u + a * u + 1, v * v + a * v + 1;
    MulShuffle(u, f, v, g);
    Distribute(u * u, a * u, v * v, a * v);
    Products(u, v, a);
  }

  lemma Distribute(q: int, x: int, r: int, y: int)
    ensures (q + x + 1) * (r + y + 1) == q * r + (q * y + x * r) + x * y + (q + r) + (x + y) + 1
  {
  }

  lemma Products(u: int, v: int, a: int)
    ensures var s, m := u + v, u * v;
            && (u * u) * (v * v) == m * m && (a * u) * (a * v) == a * a * m && u * u + v * v == s * s - 2 * m
            && (u * u) * (a * v) + (a * u) * (v * v) == a * m * s && a * u + a * v == a * s
  {
    MulShuffle(u, u, v, v);
    MulShuffle(a, u, a, v);
    MulShuffle(u, u, a, v);
    MulShuffle(a, u, v, v);
  }

  lemma ChordTerms(s: int, m: int, a: int)
    ensures var c := s * (m + 1) + 2 * (a * m);
            c * c - 4 * (m * (m * m + a * m * s + a * a * m + s * s - 2 * m + a * s + 1)) ==
            (s * s - 4 * m) * ((m - 1) * (m - 1))
  {
    SquareOfSum(s * (m + 1), a * m);
    Factors(s, m, a);
    Spread(s, m, a);
    Terms(s * s, m, a * m * m * s, a * a * m * m, a * m * s);
  }

  lemma SquareOfSum(x: int, y: int)
    ensures (x + 2 * y) * (x + 2 * y) == x * x + 4 * (x * y) + 4 * (y * y)
  {
  }

  lemma Factors(s: int, m: int, a: int)
    ensures (s * (m + 1)) * (s * (m + 1)) == (s * s) * ((m + 1) * (m + 1))
    ensures (s * (m + 1)) * (a * m) == a * m * m * s + a * m * s
    ensures (a * m) * (a * m) == a * a * m * m
  {
    MulShuffle(s, m + 1, s, m + 1);
  }

  lemma Spread(s: int, m: int, a: int)
    ensures m * (m * m + a * m * s + a * a * m + s * s - 2 * m + a * s + 1) ==
            m * m * m + a * m * m * s + a * a * m * m + m * (s * s) - 2 * (m * m) + a * m * s + m
  {
  }

  lemma Terms(q: int, m: int, t1: int, t2: int, t3: int)
    ensures q * ((m + 1) * (m + 1)) + 4 * (t1 + t3) + 4 * t2 -
            4 * (m * m * m + t1 + t2 + m * q - 2 * (m * m) + t3 + m) ==
            (q - 4 * m) * ((m - 1) * (m - 1))
  {
  }

  /** The product of what the sum and the difference of two points give. */
  lemma ChordIdentity(u: int, v: int, a: int)
    ensures var d := u - v;
            var c := Cubic(u, a) + Cubic(v, a) - (a + u + v) * (d * d);
            c * c - 4 * (Cubic(u, a) * Cubic(v, a)) == (d * d) * ((u * v - 1) * (u * v - 1))
  {
    hide Cubic;
    ChordSum(u, v, a);
    ChordProduct(u, v, a);
    ChordTerms(u + v, u * v, a);
  }

  // -- Modulo p --

  lemma TimesIs(a: int, b: int, x: int, y: int, p: nat)
    requires p > 1 && a % p == x % p && b % p == y % p
    ensures Times(a, b, p) == (x * y) % p && Times(a, b, p) % p == (x * y) % p
  {
    CongruentProduct(a, x, b, y, p);
    ModMod(x * y, p);
  }

  lemma PlusIs(a: int, b: int, x: int, y: int, p: nat)
    requires p > 1 && a % p == x % p && b % p == y % p
    ensures Plus(a, b, p) == (x + y) % p && Plus(a, b, p) % p == (x + y) % p
  {
    CongruentSum(a, x, b, y, p);
    ModMod(x + y, p);
  }

  lemma MinusIs(a: int, b: int, x: int, y: int, p: nat)
    requires p > 1 && a % p == x % p && b % p == y % p
    ensures Minus(a, b, p) == (x - y) % p && Minus(a, b, p) % p == (x - y) % p
  {
    CongruentSum(a, x, b, y, p);
    ModMod(x - y, p);
  }

  /** What the doubling of the ladder computes from (u : 1). */
  lemma DoublingIs(u: int, p: nat)
    requires p > 1
    ensures var S, D := Plus(u, 1, p), Minus(u, 1, p);
            var AA, BB := Times(S, S, p), Times(D, D, p);
            var E := Minus(AA, BB, p);
            && Times(AA, BB, p) == ((u * u - 1) * (u * u - 1)) % p
            && Times(E, Plus(AA, Times(121665, E, p), p), p) == (4 * Cubic(u, A)) % p
  {
    hide Plus, Minus, Times, Cubic;
    var S, D := Plus(u, 1, p), Minus(u, 1, p);
    var AA, BB := Times(S, S, p), Times(D, D, p);
    var E := Minus(AA, BB, p);
    var s, d := (u + 1) * (u + 1), (u - 1) * (u - 1);
    PlusIs(u, 1, u, 1, p);
    MinusIs(u, 1, u, 1, p);
    TimesIs(S, S, u + 1, u + 1, p);
    TimesIs(D, D, u - 1, u - 1, p);
    TimesIs(AA, BB, s, d, p);
    MinusIs(AA, BB, s, d, p);
    DoublingTerms(u);
    TimesIs(121665, E, 121665, 4 * u, p);
    PlusIs(AA, Times(121665, E, p), s, 121665 * (4 * u), p);
    TimesIs(E, Plus(AA, Times(121665, E, p), p), 4 * u, s + 121665 * (4 * u), p);
  }

  lemma DoublingTerms(u: int)
    ensures var s, d := (u + 1) * (u + 1), (u - 1) * (u - 1);
            && s - d == 4 * u && s * d == (u * u - 1) * (u * u - 1)
            && (4 * u) * (s + 121665 * (4 * u)) == 4 * Cubic(u, A)
  {
    MulShuffle(u + 1, u + 1, u - 1, u - 1);
    assert (u + 1) * (u - 1) == u * u - 1;
    assert (u + 1) * (u + 1) + 121665 * (4 * u) == u * u + A * u + 1;
  }

  /** What the differential addition computes from (u : 1) and (v : 1). */
  lemma AddingIs(x1: int, u: int, v: int, p: nat)
    requires p > 1
    ensures var S, D := Plus(u, 1, p), Minus(u, 1, p);
            var DA, CB := Times(Minus(v, 1, p), S, p), Times(Plus(v, 1, p), D, p);
            && Times(Plus(DA, CB, p), Plus(DA, CB, p), p) == (4 * ((u * v - 1) * (u * v - 1))) % p
            && Times(x1, Times(Minus(DA, CB, p), Minus(DA, CB, p), p), p) == (x1 * (4 * ((u - v) * (u - v)))) % p
  {
    hide Plus, Minus, Times;
    var S, D := Plus(u, 1, p), Minus(u, 1, p);
    var DA, CB := Times(Minus(v, 1, p), S, p), Times(Plus(v, 1, p), D, p);
    PlusIs(u, 1, u, 1, p);
    MinusIs(u, 1, u, 1, p);
    PlusIs(v, 1, v, 1, p);
    MinusIs(v, 1, v, 1, p);
    TimesIs(Minus(v, 1, p), S, v - 1, u + 1, p);
    TimesIs(Plus(v, 1, p), D, v + 1, u - 1, p);
    PlusIs(DA, CB, (v - 1) * (u + 1), (v + 1) * (u - 1), p);
    MinusIs(DA, CB, (v - 1) * (u + 1), (v + 1) * (u - 1), p);
    AddingTerms(u, v);
    TimesIs(Plus(DA, CB, p), Plus(DA, CB, p), 2 * (u * v - 1), 2 * (u * v - 1), p);
    TimesIs(Minus(DA, CB, p), Minus(DA, CB, p), 2 * (v - u), 2 * (v - u), p);
    TimesIs(x1, Times(Minus(DA, CB, p), Minus(DA, CB, p), p), x1, 4 * ((u - v) * (u - v)), p);
  }

  lemma AddingTerms(u: int, v: int)
    ensures (v - 1) * (u + 1) + (v + 1) * (u - 1) == 2 * (u * v - 1)
    ensures (v - 1) * (u + 1) - (v + 1) * (u - 1) == 2 * (v - u)
    ensures (2 * (u * v - 1)) * (2 * (u * v - 1)) == 4 * ((u * v - 1) * (u * v - 1))
    ensures (2 * (v - u)) * (2 * (v - u)) == 4 * ((u - v) * (u - v))
  {
  }

  /** A factor that is not zero cancels. */
  lemma CancelFactor(a: int, x: int, y: int, p: nat)
    requires IsPrime(p) && a % p != 0 && (a * x) % p == (a * y) % p
    ensures x % p == y % p
  {
    CongruentSum(a * x, a * y, a * y, a * y, p);
    DivUnique(0, p, 0, 0);
    MulAdd(a, x - y, y);
    ModMod(a, p);
    CongruentProduct(a % p, a, x - y, x - y, p);
    NoZeroDivisors(a % p, x - y, p);
    CongruentSum(x - y, 0, y, y, p);
  }

  lemma NotZero(a: int, b: int, p: nat)
    requires IsPrime(p) && a % p != 0 && b % p != 0
    ensures (a * b) % p != 0
  {
    if (a * b) % p == 0 {
      DivUnique(0, p, 0, 0);
      CancelFactor(a, b, 0, p);
      assert false;
    }
  }

  /** From the tangent law: the doubling gives the point's double, scaled by (2 y)^2. */
  lemma DoubleFollows(pt: Point, x: int, p: nat)
    requires IsPrime(p) && Doubles(pt, x, p)
    ensures var u, w := pt.x, 4 * (pt.y * pt.y);
            && w % p != 0 && (4 * Cubic(u, A)) % p == w % p && ((u * u - 1) * (u * u - 1)) % p == (w * x) % p
  {
    hide Cubic, TangentTop;
    var u, d, c, w := pt.x, 2 * pt.y, Cubic(pt.x, A), 4 * (pt.y * pt.y);
    var t := TangentTop(u, A) * TangentTop(u, A);
    SquareOfDouble(pt.y);
    NotZero(d, d, p);
    CongruentProduct(4, 4, pt.y * pt.y, c, p);
    TangentIdentity(u, A);
    DoubleScaled(A + 2 * u, w, 4 * c, t, x, p);
  }

  lemma SquareOfDouble(y: int)
    ensures (2 * y) * (2 * y) == 4 * (y * y)
  {
  }

  lemma DoubleScaled(m: int, w: int, c: int, t: int, x: int, p: nat)
    requires p > 1 && w % p == c % p && (x * w) % p == (t - m * w) % p
    ensures (t - m * c) % p == (w * x) % p
  {
    CongruentProduct(m, m, w, c, p);
    CongruentSum(t, t, m * w, m * c, p);
  }

  /** The product of the numerators for the sum and for the difference of two points. */
  lemma ChordsMultiply(pt: Point, qt: Point, p: nat)
    requires IsPrime(p) && OnCurve(pt, p) && OnCurve(qt, p)
    ensures var d, e, f := pt.x - qt.x, pt.y - qt.y, pt.y + qt.y;
            var m, t := (A + pt.x + qt.x) * (d * d), pt.x * qt.x - 1;
            ((f * f - m) * (e * e - m)) % p == ((d * d) * (t * t)) % p
  {
    hide Cubic;
    var d, a, b := pt.x - qt.x, pt.y * pt.y, qt.y * qt.y;
    var m := (A + pt.x + qt.x) * (d * d);
    SquaresMultiply(pt.y, qt.y, m);
    var cu, cv := Cubic(pt.x, A), Cubic(qt.x, A);
    CongruentSum(a, cu, b, cv, p);
    CongruentSum(a + b, cu + cv, m, m, p);
    CongruentProduct(a + b - m, cu + cv - m, a + b - m, cu + cv - m, p);
    CongruentProduct(a, cu, b, cv, p);
    CongruentProduct(4, 4, a * b, cu * cv, p);
    CongruentSum((a + b - m) * (a + b - m), (cu + cv - m) * (cu + cv - m), 4 * (a * b), 4 * (cu * cv), p);
    ChordIdentity(pt.x, qt.x, A);
  }

  lemma SquaresMultiply(y: int, z: int, m: int)
    ensures var a, b := y * y, z * z;
            ((y + z) * (y + z) - m) * ((y - z) * (y - z) - m) == (a + b - m) * (a + b - m) - 4 * (a * b)
  {
    var a, b, c := y * y, z * z, y * z;
    assert (y + z) * (y + z) == a + b + 2 * c && (y - z) * (y - z) == a + b - 2 * c;
    MulShuffle(y, z, y, z);
    DifferenceOfSquares(a + b - m, 2 * c);
  }

  lemma DifferenceOfSquares(x: int, y: int)
    ensures (x + y) * (x - y) == x * x - y * y
  {
  }

  /** From the chord law: the differential addition gives the sum, scaled by 4 x1 d^2 where x1 belongs to the difference
      of the two points and d is the difference of their x. */
  lemma AddFollows(x1: int, pt: Point, qt: Point, x: int, p: nat)
    requires IsPrime(p) && p > 4 && 0 < x1 < p && Adds(pt, qt, x, p) && Adds(pt, Opposite(qt), x1, p)
    ensures var u, v := pt.x, qt.x;
            var w := x1 * (4 * ((u - v) * (u - v)));
            w % p != 0 && (4 * ((u * v - 1) * (u * v - 1))) % p == (w * x) % p
  {
    hide Cubic;
    var u, v, d, e, f := pt.x, qt.x, pt.x - qt.x, pt.y - qt.y, pt.y + qt.y;
    var m, t := (A + u + v) * (d * d), u * v - 1;
    NotZero(d, d, p);
    ScaleNotZero(x1, d * d, p);
    ChordsMultiply(pt, qt, p);
    SumScaled(x1, x, d * d, f * f - m, e * e - m, t * t, p);
  }

  lemma ScaleNotZero(x1: int, dd: int, p: nat)
    requires IsPrime(p) && p > 4 && 0 < x1 < p && dd % p != 0
    ensures (x1 * (4 * dd)) % p != 0
  {
    DivUnique(4, p, 0, 4);
    DivUnique(x1, p, 0, x1);
    NotZero(4, dd, p);
    NotZero(x1, 4 * dd, p);
  }

  /** dd x1 D = S D = dd t, so that 4 x1 dd x = 4 x1 D = 4 t. */
  lemma SumScaled(x1: int, x: int, dd: int, S: int, D: int, t: int, p: nat)
    requires IsPrime(p) && dd % p != 0 && (x1 * dd) % p == S % p && (x * dd) % p == D % p
    requires (S * D) % p == (dd * t) % p
    ensures (4 * t) % p == (x1 * (4 * dd) * x) % p
  {
    CongruentProduct(x1 * dd, S, D, D, p);
    assert x1 * dd * D == dd * (x1 * D);
    CancelFactor(dd, x1 * D, t, p);
    CongruentProduct(4 * x1, 4 * x1, x * dd, D, p);
    CongruentProduct(4, 4, x1 * D, t, p);
    SumFactors(x1, x, dd, D);
  }

  lemma SumFactors(x1: int, x: int, dd: int, D: int)
    ensures x1 * (4 * dd) * x == (4 * x1) * (x * dd) && (4 * x1) * D == 4 * (x1 * D)
  {
  }

  // -- One step of the ladder --

  lemma OppositeOnCurve(pt: Point, p: nat)
    requires p > 0
    ensures OnCurve(Opposite(pt), p) == OnCurve(pt, p)
  {
    assert (-pt.y) * (-pt.y) == pt.y * pt.y;
  }

  /** The sum does not depend on the order, nor does the difference but for its sign. */
  lemma AddsSwaps(pt: Point, qt: Point, x: int, p: nat)
    requires IsPrime(p)
    ensures Adds(pt, qt, x, p) ==> Adds(qt, pt, x, p)
    ensures Adds(pt, Opposite(qt), x, p) ==> Adds(qt, Opposite(pt), x, p)
  {
    hide Cubic;
    var d, e := pt.x - qt.x, pt.y - qt.y;
    OppositeOnCurve(pt, p);
    OppositeOnCurve(qt, p);
    Negated(d, p);
    assert (-d) * (-d) == d * d && (-e) * (-e) == e * e;
    assert qt.y - (-pt.y) == pt.y - (-qt.y);
  }

  lemma Negated(d: int, p: nat)
    requires p > 0
    ensures (-d) % p != 0 <== d % p != 0
  {
    if (-d) % p == 0 {
      DivUnique(0, p, 0, 0);
      CongruentSum(0, 0, -d, 0, p);
    }
  }

  lemma ScaledBy(w: int, x: int, z: int, p: nat)
    requires p > 1 && z % p == (w * x) % p
    ensures z % p == Times(w % p, x, p)
  {
    ModMod(w, p);
    CongruentProduct(w % p, w, x, x, p);
  }

  /** Doubling one point and adding another, by the law of the curve. */
  lemma StepFollows(x1: int, pt: Point, qt: Point, xd: int, xs: int, p: nat) returns (a: int, b: int)
    requires IsPrime(p) && p > 4 && 0 < x1 < p
    requires Doubles(pt, xd, p) && Adds(pt, qt, xs, p) && Adds(pt, Opposite(qt), x1, p)
    ensures Unit(a, p) && Unit(b, p)
    ensures Scaled(State(xd, 1, xs, 1, false), DoubleAndAdd(x1, State(pt.x, 1, qt.x, 1, false), p), a, b, p)
  {
    hide Plus, Minus, Times, Cubic, Doubles, Adds;
    var u, v := pt.x, qt.x;
    var w, z := 4 * (pt.y * pt.y), x1 * (4 * ((u - v) * (u - v)));
    DoublingIs(u, p);
    DoubleFollows(pt, xd, p);
    AddingIs(x1, u, v, p);
    AddFollows(x1, pt, qt, xs, p);
    a, b := w % p, z % p;
    ScaledBy(w, xd, (u * u - 1) * (u * u - 1), p);
    ScaledBy(w, 1, w, p);
    ScaledBy(z, xs, 4 * ((u * v - 1) * (u * v - 1)), p);
    ScaledBy(z, 1, z, p);
  }

  /** The first step on a bit that is set: from the base point and the point at infinity. */
  lemma FirstAdd(x1: int, p: nat)
    requires p > 1
    ensures var S, D := Plus(x1, 1, p), Minus(x1, 1, p);
            var DA, CB := Times(Minus(1, 0, p), S, p), Times(Plus(1, 0, p), D, p);
            && Times(Plus(DA, CB, p), Plus(DA, CB, p), p) == Times(4 * x1 % p, x1, p)
            && Times(x1, Times(Minus(DA, CB, p), Minus(DA, CB, p), p), p) == Times(4 * x1 % p, 1, p)
  {
    hide Plus, Minus, Times;
    var S, D := Plus(x1, 1, p), Minus(x1, 1, p);
    var DA, CB := Times(Minus(1, 0, p), S, p), Times(Plus(1, 0, p), D, p);
    PlusIs(x1, 1, x1, 1, p);
    MinusIs(x1, 1, x1, 1, p);
    PlusIs(1, 0, 1, 0, p);
    MinusIs(1, 0, 1, 0, p);
    TimesIs(Minus(1, 0, p), S, 1, x1 + 1, p);
    TimesIs(Plus(1, 0, p), D, 1, x1 - 1, p);
    PlusIs(DA, CB, x1 + 1, x1 - 1, p);
    MinusIs(DA, CB, x1 + 1, x1 - 1, p);
    TimesIs(Plus(DA, CB, p), Plus(DA, CB, p), 2 * x1, 2 * x1, p);
    TimesIs(Minus(DA, CB, p), Minus(DA, CB, p), 2, 2, p);
    TimesIs(x1, Times(Minus(DA, CB, p), Minus(DA, CB, p), p), x1, 4, p);
    assert (2 * x1) * (2 * x1) == (4 * x1) * x1;
    ScaledBy(4 * x1, x1, (4 * x1) * x1, p);
    ScaledBy(4 * x1, 1, x1 * 4, p);
  }

  // -- Multiples --

  /** The points m(n) follow the law where the ladder goes on from n with one more bit: m(2n + 1) is the sum of m(n + 1)
      and m(n), whose difference has the x-coordinate x1, and m(2n) or m(2n + 2) is the double of one of them. */
  ghost predicate Follows(m: nat -> Point, x1: int, n: nat, bit: bool, p: nat)
    requires p > 0
  {
    if n == 0 then bit ==> Doubles(m(1), m(2).x, p)
    else
      && Adds(m(n + 1), m(n), m(2 * n + 1).x, p) && Adds(m(n + 1), Opposite(m(n)), x1, p)
      && (if bit then Doubles(m(n + 1), m(2 * n + 2).x, p) else Doubles(m(n), m(2 * n).x, p))
  }

  /** k without its low j bits. */
  function Shifted(k: nat, j: nat): nat
    decreases j
  {
    if j == 0 then k else Shifted(k / 2, j - 1)
  }

  lemma {:induction false} ShiftedNext(k: nat, j: nat)
    ensures Shifted(k, j) == 2 * Shifted(k, j + 1) + if Bit(k, j) then 1 else 0
    decreases j
  {
    if j > 0 { ShiftedNext(k / 2, j - 1); }
  }

  lemma {:induction false} ShiftedOut(k: nat, j: nat)
    requires k < Pow2(j)
    ensures Shifted(k, j) == 0
    decreases j
  {
    if j > 0 { ShiftedOut(k / 2, j - 1); }
  }

  /** m(n) is n times the base point for every n that the bits of k lead through. */
  ghost predicate Multiples(m: nat -> Point, x1: int, k: nat, bits: nat, p: nat)
    requires p > 0
  {
    m(1).x == x1 && forall j: nat :: j < bits ==> Follows(m, x1, Shifted(k, j + 1), Bit(k, j), p)
  }

  function Next(n: nat, bit: bool): nat { 2 * n + if bit then 1 else 0 }

  /** The points m(n) and m(n + 1), the first being at infinity for n = 0. */
  function Pair(m: nat -> Point, n: nat): State {
    State(if n == 0 then 1 else m(n).x, if n == 0 then 0 else 1, m(n + 1).x, 1, false)
  }

  lemma FirstBit(m: nat -> Point, x1: int, p: nat) returns (a: int, b: int)
    requires IsPrime(p) && p > 4 && 0 < x1 < p && m(1).x == x1 && Doubles(m(1), m(2).x, p)
    ensures Unit(a, p) && Unit(b, p)
    ensures Scaled(Pair(m, 1), Swapped(DoubleAndAdd(x1, Swapped(Pair(m, 0)), p)), a, b, p)
  {
    hide Plus, Minus, Times, Cubic, Doubles;
    var w := 4 * (m(1).y * m(1).y);
    DoublingIs(x1, p);
    DoubleFollows(m(1), m(2).x, p);
    FirstAdd(x1, p);
    FourIsUnit(x1, p);
    a, b := 4 * x1 % p, w % p;
    ScaledBy(w, m(2).x, (x1 * x1 - 1) * (x1 * x1 - 1), p);
    ScaledBy(w, 1, w, p);
  }

  lemma PairStep(m: nat -> Point, x1: int, n: nat, bit: bool, p: nat) returns (a: int, b: int)
    requires IsPrime(p) && p > 4 && 0 < x1 < p && m(1).x == x1 && Follows(m, x1, n, bit, p)
    ensures Unit(a, p) && Unit(b, p)
    ensures Scaled(Pair(m, Next(n, bit)), CSwap(bit, DoubleAndAdd(x1, CSwap(bit, Pair(m, n)), p)), a, b, p)
  {
    hide DoubleAndAdd, Times, Doubles, Adds;
    if n == 0 {
      if bit {
        a, b := FirstBit(m, x1, p);
      } else {
        ExtraStep(x1, p);
        FourIsUnit(x1, p);
        a, b := 1, 4 * x1 % p;
      }
    } else if bit {
      b, a := StepFollows(x1, m(n + 1), m(n), m(2 * n + 2).x, m(2 * n + 1).x, p);
    } else {
      AddsSwaps(m(n + 1), m(n), m(2 * n + 1).x, p);
      AddsSwaps(m(n + 1), m(n), x1, p);
      a, b := StepFollows(x1, m(n), m(n + 1), m(2 * n).x, m(2 * n + 1).x, p);
    }
  }

  // -- The whole ladder --

  lemma ScaledTwice(s: State, t: State, u: State, a: int, b: int, c: int, d: int, p: nat)
    requires p > 1 && Scaled(s, t, a, b, p) && Scaled(t, u, c, d, p)
    ensures Scaled(s, u, Times(c, a, p), Times(d, b, p), p)
  {
    hide Times;
    Regrouped(c, a, s.x2, p);
    Regrouped(c, a, s.z2, p);
    Regrouped(d, b, s.x3, p);
    Regrouped(d, b, s.z3, p);
  }

  lemma Regrouped(c: int, a: int, x: int, p: nat)
    requires p > 1
    ensures Times(c, Times(a, x, p), p) == Times(Times(c, a, p), x, p)
  {
    ModMod(a * x, p);
    ModMod(c * a, p);
    CongruentProduct(c, c, Times(a, x, p), a * x, p);
    CongruentProduct(Times(c, a, p), c * a, x, x, p);
    assert c * (a * x) == (c * a) * x;
  }

  /** The two points of a state in the order of the multiples, with no swap owed. */
  function Settled(s: State): State { CSwap(s.swap, s).(swap := false) }

  /** A step of the ladder, with the swaps before and after it. */
  lemma SettledStep(x1: int, s: State, bit: bool, p: nat)
    requires p > 0
    ensures Settled(Step(x1, s, bit, p)) == CSwap(bit, DoubleAndAdd(x1, CSwap(bit, Settled(s)), p))
  {
    hide Plus, Minus, Times;
  }

  lemma {:induction false} LadderFollows(m: nat -> Point, x1: int, k: nat, bits: nat, n: nat, p: nat)
    returns (a: int, b: int)
    requires IsPrime(p) && p > 4 && 0 < x1 < p && k < Pow2(bits) && n <= bits && Multiples(m, x1, k, bits, p)
    ensures Unit(a, p) && Unit(b, p)
    ensures Scaled(Pair(m, Shifted(k, bits - n)), Settled(Run(x1, k, bits, n, p)), a, b, p)
    decreases n
  {
    hide Pow2, DoubleAndAdd, Times, Follows, IsPrime;
    if n == 0 {
      ShiftedOut(k, bits);
      a, b := 1, 1;
      Unscaled(x1, m, p);
    } else {
      var c, d := LadderFollows(m, x1, k, bits, n - 1, p);
      var j := bits - n;
      ShiftedNext(k, j);
      var e, f := PairStep(m, x1, Shifted(k, j + 1), Bit(k, j), p);
      a, b := StepScaled(m, x1, Shifted(k, j + 1), Run(x1, k, bits, n - 1, p), Bit(k, j), c, d, e, f, p);
    }
  }

  lemma Unscaled(x1: int, m: nat -> Point, p: nat)
    requires p > 1 && 0 <= x1 < p && m(1).x == x1
    ensures Scaled(Pair(m, 0), State(1, 0, x1, 1, false), 1, 1, p)
  {
    DivUnique(1, p, 0, 1);
    DivUnique(0, p, 0, 0);
    DivUnique(x1, p, 0, x1);
  }

  /** A step scales what it is given, and its result. */
  lemma StepScaled(m: nat -> Point, x1: int, n: nat, s: State, bit: bool, c: int, d: int, e: int, f: int, p: nat)
    returns (a: int, b: int)
    requires IsPrime(p) && Unit(c, p) && Unit(d, p) && Unit(e, p) && Unit(f, p)
    requires Scaled(Pair(m, n), Settled(s), c, d, p)
    requires Scaled(Pair(m, Next(n, bit)), CSwap(bit, DoubleAndAdd(x1, CSwap(bit, Pair(m, n)), p)), e, f, p)
    ensures Unit(a, p) && Unit(b, p)
    ensures Scaled(Pair(m, Next(n, bit)), Settled(Step(x1, s, bit, p)), a, b, p)
  {
    hide DoubleAndAdd, Times, Pair, IsPrime;
    var u, v := if bit then d else c, if bit then c else d;
    var from, to := CSwap(bit, Pair(m, n)), CSwap(bit, Settled(s));
    SwapScales(bit, Pair(m, n), Settled(s), c, d, p);
    StepScales(x1, from, to, u, v, p);
    var g, h := Times(Times(u, u, p), Times(u, u, p), p), Times(Times(v, u, p), Times(v, u, p), p);
    UnitsMultiply(u, u, p);
    UnitsMultiply(v, u, p);
    UnitsMultiply(Times(u, u, p), Times(u, u, p), p);
    UnitsMultiply(Times(v, u, p), Times(v, u, p), p);
    SwapScales(bit, DoubleAndAdd(x1, from, p), DoubleAndAdd(x1, to, p), g, h, p);
    if bit { g, h := h, g; }
    SettledStep(x1, s, bit, p);
    var next := Pair(m, Next(n, bit));
    ScaledTwice(next, CSwap(bit, DoubleAndAdd(x1, from, p)), Settled(Step(x1, s, bit, p)), e, f, g, h, p);
    UnitsMultiply(g, e, p);
    UnitsMultiply(h, f, p);
    a, b := Times(g, e, p), Times(h, f, p);
  }

  lemma InRange(m: nat -> Point, x1: int, k: nat, bits: nat, p: nat)
    requires p > 0 && 0 <= x1 < p && 0 < k < Pow2(bits) && Multiples(m, x1, k, bits, p)
    ensures 0 <= m(k).x < p
  {
    assert Pow2(0) == 1;
    ShiftedNext(k, 0);
    assert Follows(m, x1, Shifted(k, 1), Bit(k, 0), p);
  }

  /** The ladder over k computes the x-coordinate of k times the base point. */
  lemma LadderMultiplies(m: nat -> Point, x1: int, k: nat, bits: nat, p: nat)
    requires IsPrime(p) && p > 4 && 0 < x1 < p && 0 < k < Pow2(bits) && Multiples(m, x1, k, bits, p)
    ensures Output(Run(x1, k, bits, bits, p), p) == m(k).x
  {
    hide Run, Multiples, Pow2, Pow, IsPrime;
    var a, b := LadderFollows(m, x1, k, bits, bits, p);
    InRange(m, x1, k, bits, p);
    QuotientScales(a, m(k).x, 1, p);
    PowOne(p - 2);
    DivUnique(m(k).x, p, 0, m(k).x);
  }

  /** X25519 computes the x-coordinate of the multiple of the base point by the clamped scalar. */
  lemma X25519Multiplies(m: nat -> Point, secret: seq<U8>, u: seq<U8>, p: nat)
    requires |secret| == 32 && |u| == 32 && IsPrime(p) && p > 4 && DecodeU(u, p) != 0
    requires Multiples(m, DecodeU(u, p), LittleEndian(Clamp(secret)), 255, p)
    ensures X25519(secret, u, 255, p) == m(LittleEndian(Clamp(secret))).x
  {
    hide Multiples, Run, Output, Clamp, LittleEndian, Pow2;
    Clamped(secret);
    PowersPositive(254);
    LadderMultiplies(m, DecodeU(u, p), LittleEndian(Clamp(secret)), 255, p);
  }

  lemma PowersPositive(n: nat)
    ensures Pow2(n) > 0
  {
  }
}
