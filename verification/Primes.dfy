/** Primes: inverses and Fermat's little theorem. */
module Primes {
  import opened Arithmetic

  // -- Inverses modulo a prime --

  ghost predicate IsPrime(q: int) { q > 1 && forall d :: 1 < d < q ==> q % d != 0 }

  /** The greatest common divisor with its coefficients, by Euclid's algorithm. */
  function Egcd(a: nat, b: nat): (r: (int, int, int))
    ensures a * r.1 + b * r.2 == r.0 && (a > 0 || b > 0 ==> r.0 > 0)
    decreases b
  {
    if b == 0 then (a, 1, 0)
    else
      var (g, x, y) := Egcd(b, a % b);
      EuclidStep(a, b, x, y);
      (g, y, x - (a / b) * y)
  }

  lemma EuclidStep(a: nat, b: nat, x: int, y: int)
    requires b > 0
    ensures a * y + b * (x - (a / b) * y) == b * x + (a % b) * y
  {
    var q, r := a / b, a % b;
    MulAdd(y, b * q, r);
    assert b * (x - q * y) == b * x - b * (q * y);
    assert b * (q * y) == (b * q) * y;
  }

  /** It divides both. */
  lemma {:induction false} EgcdDivides(a: nat, b: nat)
    requires a > 0 || b > 0
    ensures Egcd(a, b).0 > 0 && a % Egcd(a, b).0 == 0 && b % Egcd(a, b).0 == 0
    decreases b
  {
    if b == 0 {
      DivUnique(a, a, 1, 0);
      DivUnique(0, a, 0, 0);
    } else {
      EgcdDivides(b, a % b);
      DividesBack(a, b, Egcd(b, a % b).0);
    }
  }

  lemma DividesBack(a: nat, b: nat, g: int)
    requires b > 0 && g > 0 && b % g == 0 && (a % b) % g == 0
    ensures a % g == 0
  {
    var k, m, q := b / g, (a % b) / g, a / b;
    assert b == g * k && a % b == g * m && a == b * q + a % b;
    MulShuffle(g, k, 1, q);
    MulAdd(g, k * q, m);
    DivUnique(a, g, k * q + m, 0);
  }

  /** mp_invmod. */
  function InvMod(a: nat, q: nat): (w: nat)
    requires q > 0
    ensures w < q
  {
    Egcd(a, q).1 % q
  }

  lemma Inverse(a: nat, q: nat)
    requires IsPrime(q) && 0 < a < q
    ensures (a * InvMod(a, q)) % q == 1
  {
    var (g, x, y) := Egcd(a, q);
    EgcdDivides(a, q);
    OnlyOne(g, a, q);
    CongruentBy(a * x, 1, q, -y);
    DivUnique(1, q, 0, 1);
    ModMod(x, q);
    CongruentProduct(a, a, x, x % q, q);
  }

  /** A divisor of a prime and of something smaller is 1. */
  lemma OnlyOne(g: int, a: nat, q: nat)
    requires IsPrime(q) && 0 < a < q && g > 0 && a % g == 0 && q % g == 0
    ensures g == 1
  {
    var k := a / g;
    assert a == g * k;
    if g > a {
      DivUnique(a, g, 0, a);
    }
  }

  /** A prime that divides a product divides one of its factors. */
  lemma NoZeroDivisors(a: nat, b: int, q: nat)
    requires IsPrime(q) && 0 < a < q && (a * b) % q == 0
    ensures b % q == 0
  {
    hide InvMod;
    var w := InvMod(a, q);
    Inverse(a, q);
    DivUnique(0, q, 0, 0);
    DivUnique(1, q, 0, 1);
    CongruentProduct(w, w, a * b, 0, q);
    assert w * (a * b) == (a * w) * b;
    CongruentProduct(a * w, 1, b, b, q);
  }

  // -- The binomial theorem --

  function Choose(n: nat, k: nat): nat {
    if k == 0 then 1 else if n == 0 then 0 else Choose(n - 1, k - 1) + Choose(n - 1, k)
  }

  lemma {:induction false} ChooseEnds(n: nat, k: nat)
    ensures k > n ==> Choose(n, k) == 0
    ensures k == n ==> Choose(n, k) == 1
    decreases n
  {
    if n > 0 && k > 0 {
      ChooseEnds(n - 1, k - 1);
      ChooseEnds(n - 1, k);
    }
  }

  /** k C(n, k) = n C(n-1, k-1). */
  lemma {:induction false} Absorb(n: nat, k: nat)
    requires n > 0 && k > 0
    ensures k * Choose(n, k) == n * Choose(n - 1, k - 1)
    decreases n
  {
    if n == 1 {
      assert Choose(1, k) == Choose(0, k - 1) + Choose(0, k);
    } else if k == 1 {
      Absorb(n - 1, 1);
    } else {
      Absorb(n - 1, k);
      Absorb(n - 1, k - 1);
      var x, y := Choose(n - 1, k - 1), Choose(n - 1, k);
      AbsorbStep(n, k, x, y, Choose(n - 2, k - 2), Choose(n - 2, k - 1));
    }
  }

  lemma AbsorbStep(n: nat, k: nat, x: int, y: int, a: int, b: int)
    requires x == a + b && (k - 1) * x == (n - 1) * a && k * y == (n - 1) * b
    ensures k * (x + y) == n * x
  {
    MulAdd(k, x, y);
    MulAdd(n - 1, a, b);
    assert k * x == (k - 1) * x + x && n * x == (n - 1) * x + x;
  }

  /** The first k terms of (a + 1)^n. */
  function Terms(n: nat, a: nat, k: nat): nat {
    if k == 0 then 0 else Terms(n, a, k - 1) + Term(n, a, k - 1)
  }

  function Term(n: nat, a: nat, i: nat): nat {
    PowPositive(a, i);
    Choose(n, i) * Pow(a, i)
  }

  lemma {:induction false} PowPositive(a: nat, i: nat)
    ensures Pow(a, i) >= 0
    decreases i
  {
    if i > 0 { PowPositive(a, i - 1); }
  }

  lemma {:induction false} TermsNext(n: nat, a: nat, k: nat)
    ensures Terms(n + 1, a, k + 1) == Terms(n, a, k + 1) + a * Terms(n, a, k)
    decreases k
  {
    if k > 0 {
      TermsNext(n, a, k - 1);
      TermNext(n, a, k);
      MulAdd(a, Terms(n, a, k - 1), Term(n, a, k - 1));
    }
  }

  lemma TermNext(n: nat, a: nat, k: nat)
    requires k > 0
    ensures Term(n + 1, a, k) == Term(n, a, k) + a * Term(n, a, k - 1)
  {
    var c, p := Choose(n, k - 1), Pow(a, k - 1);
    assert Pow(a, k) == a * p;
    assert (c + Choose(n, k)) * Pow(a, k) == c * Pow(a, k) + Choose(n, k) * Pow(a, k);
    assert c * (a * p) == a * (c * p);
  }

  lemma {:induction false} Binomial(n: nat, a: nat)
    ensures Pow(a + 1, n) == Terms(n, a, n + 1)
    decreases n
  {
    if n == 0 {
      assert Terms(0, a, 1) == Terms(0, a, 0) + Term(0, a, 0);
    } else {
      Binomial(n - 1, a);
      TermsNext(n - 1, a, n);
      ChooseEnds(n - 1, n);
      assert Term(n - 1, a, n) == 0;
      var t := Terms(n - 1, a, n);
      assert (a + 1) * t == t + a * t;
    }
  }

  // -- Fermat --

  lemma PrimeDividesChoose(q: nat, k: nat)
    requires IsPrime(q) && 0 < k < q
    ensures Choose(q, k) % q == 0
  {
    Absorb(q, k);
    DivUnique(k * Choose(q, k), q, Choose(q - 1, k - 1), 0);
    NoZeroDivisors(k, Choose(q, k), q);
  }

  /** Modulo a prime only the first and the last term count. */
  lemma {:induction false} MiddleTermsVanish(q: nat, a: nat, k: nat)
    requires IsPrime(q) && 1 <= k <= q
    ensures Terms(q, a, k) % q == 1
    decreases k
  {
    DivUnique(1, q, 0, 1);
    if k == 1 {
      assert Terms(q, a, 1) == Terms(q, a, 0) + Term(q, a, 0);
    } else {
      MiddleTermsVanish(q, a, k - 1);
      PrimeDividesChoose(q, k - 1);
      DivUnique(0, q, 0, 0);
      CongruentProduct(Choose(q, k - 1), 0, Pow(a, k - 1), Pow(a, k - 1), q);
      CongruentSum(Terms(q, a, k - 1), 1, Term(q, a, k - 1), 0, q);
    }
  }

  lemma {:induction false} PowPrime(q: nat, a: nat)
    requires IsPrime(q)
    ensures Pow(a, q) % q == a % q
    decreases a
  {
    if a == 0 {
      PowZero(q);
    } else {
      PowPrime(q, a - 1);
      Binomial(q, a - 1);
      MiddleTermsVanish(q, a - 1, q);
      ChooseEnds(q, q);
      DivUnique(1, q, 0, 1);
      CongruentSum(Terms(q, a - 1, q), 1, Pow(a - 1, q), a - 1, q);
    }
  }

  lemma PowZero(n: nat)
    requires n > 0
    ensures Pow(0, n) == 0
  {
  }

  /** Fermat's little theorem. */
  lemma Fermat(q: nat, a: nat)
    requires IsPrime(q) && 0 < a < q
    ensures Pow(a, q - 1) % q == 1
  {
    hide InvMod, Pow;
    PowPrime(q, a);
    PowFirst(a, q);
    Inverse(a, q);
    Cancel(a, InvMod(a, q), Pow(a, q - 1), q);
  }

  lemma PowFirst(a: nat, n: nat)
    requires n > 0
    ensures Pow(a, n) == a * Pow(a, n - 1)
  {
  }

  /** What a factor with an inverse leaves alone is 1. */
  lemma Cancel(a: nat, w: nat, x: int, q: nat)
    requires q > 1 && (a * w) % q == 1 && (a * x) % q == a % q
    ensures x % q == 1
  {
    DivUnique(1, q, 0, 1);
    CongruentProduct(w, w, a * x, a, q);
    MulShuffle(w, 1, a, x);
    assert w * (a * x) == (a * w) * x;
    CongruentProduct(a * w, 1, x, x, q);
  }

  // -- Telling primes --

  /** A divisor of a divisor divides. */
  lemma DividesThrough(n: nat, d: nat, e: nat)
    requires d > 0 && e > 0 && n % d == 0 && d % e == 0
    ensures n % e == 0
  {
    var k, m := n / d, d / e;
    assert n == d * k && d == e * m;
    MulShuffle(e, m, 1, k);
    DivUnique(n, e, m * k, 0);
  }

  lemma {:induction false} PrimeDivisor(n: nat) returns (d: nat)
    requires n > 1
    ensures IsPrime(d) && d <= n && n % d == 0
    decreases n
  {
    d := n;
    if IsPrime(n) {
      DivUnique(n, n, 1, 0);
    } else {
      var e :| 1 < e < n && n % e == 0;
      d := PrimeDivisor(e);
      DividesThrough(n, e, d);
    }
  }

  /** A number that is not prime has a prime divisor no greater than its root. */
  lemma SmallDivisor(n: nat) returns (d: nat)
    requires n > 1 && !IsPrime(n)
    ensures IsPrime(d) && n % d == 0 && d * d <= n
  {
    var e :| 1 < e < n && n % e == 0;
    var k := n / e;
    assert n == e * k;
    Cofactor(n, e, k);
    if e <= k { d := DivisorOf(n, e, k); } else { d := DivisorOf(n, k, e); }
  }

  lemma DivisorOf(n: nat, e: nat, k: nat) returns (d: nat)
    requires n == e * k && 1 < e <= k && n % e == 0
    ensures IsPrime(d) && n % d == 0 && d * d <= n
  {
    d := PrimeDivisor(e);
    DividesThrough(n, e, d);
    MulMono(d, d, e);
    MulMono(e, d, k);
  }

  lemma Cofactor(n: nat, e: nat, k: nat)
    requires n == e * k && 1 < e < n
    ensures 1 < k < n && n % k == 0
  {
    assert k != 0 && k != 1;
    MulMono(k, 2, e);
    DivUnique(n, k, e, 0);
  }

  lemma ModDivisor(x: int, n: nat, d: nat)
    requires n > 0 && d > 0 && n % d == 0
    ensures (x % n) % d == x % d
  {
    var k := n / d;
    MulShuffle(d, k, 1, x / n);
    CongruentBy(x, x % n, d, k * (x / n));
  }

  /** If b has order q modulo the prime p then q divides p - 1. */
  lemma OrderDivides(p: nat, q: nat, b: nat)
    requires IsPrime(p) && IsPrime(q) && Pow(b, q) % p == 1 && b % p != 1
    ensures (p - 1) % q == 0
  {
    hide Pow, InvMod;
    var a := (p - 1) % q;
    if a != 0 {
      var w := InvMod(a, q);
      Inverse(a, q);
      ModMod(p - 1, q);
      CongruentProduct(p - 1, a, w, w, q);
      var v := ((p - 1) * w) / q;
      TwoWays(p, q, b, w, v);
    }
  }

  /** b^((p-1) w) is 1, and with (p-1) w = 1 + q v it is b. */
  lemma TwoWays(p: nat, q: nat, b: nat, w: nat, v: int)
    requires IsPrime(p) && q > 1 && Pow(b, q) % p == 1 && (p - 1) * w == 1 + q * v
    ensures b % p == 1
  {
    hide Pow;
    assert v >= 0 by { if v < 0 { MulMono(q, v, -1); MulNat(p - 1, w); } }
    DivUnique(1, p, 0, 1);
    NotZero(p, q, b);
    ModMod(b, p);
    PowCongruent(b % p, b, p - 1, p);
    Fermat(p, b % p);
    PowMul(b, p - 1, w);
    PowCongruent(Pow(b, p - 1), 1, w, p);
    PowOne(w);
    PowMul(b, q, v);
    PowCongruent(Pow(b, q), 1, v, p);
    PowOne(v);
    MulNat(q, v);
    PowFirst(b, 1 + q * v);
    CongruentProduct(b, b, Pow(b, q * v), 1, p);
  }

  lemma MulNat(a: nat, b: nat)
    ensures a * b >= 0
  {
  }

  lemma NotZero(p: nat, q: nat, b: nat)
    requires p > 1 && q > 0 && Pow(b, q) % p == 1
    ensures b % p != 0
  {
    hide Pow;
    if b % p == 0 {
      DivUnique(0, p, 0, 0);
      PowCongruent(b, 0, q, p);
      PowZero(q);
    }
  }

  lemma {:induction false} PowOne(n: nat)
    ensures Pow(1, n) == 1
    decreases n
  {
    if n > 0 { PowOne(n - 1); }
  }

  /** b has order q modulo n, and b - 1 has the inverse w: then q divides d - 1 for every prime d that divides n. */
  ghost predicate Order(n: nat, q: nat, b: nat, w: nat) {
    n > 1 && IsPrime(q) && Pow(b, q) % n == 1 && ((b - 1) * w) % n == 1
  }

  lemma OrderBelow(n: nat, q: nat, b: nat, w: nat, d: nat)
    requires Order(n, q, b, w) && IsPrime(d) && n % d == 0
    ensures (d - 1) % q == 0
  {
    hide Pow;
    ModDivisor(Pow(b, q), n, d);
    DivUnique(1, d, 0, 1);
    ModDivisor((b - 1) * w, n, d);
    if b % d == 1 {
      CongruentSum(b, 1, 1, 1, d);
      DivUnique(0, d, 0, 0);
      CongruentProduct(b - 1, 0, w, w, d);
    }
    OrderDivides(d, q, b);
  }

  /** Pocklington's test with one prime divisor of n - 1, above the root of n. */
  lemma PrimeByOne(n: nat, q: nat, b: nat, w: nat)
    requires Order(n, q, b, w) && q * q > n
    ensures IsPrime(n)
  {
    hide Order;
    OrderPrime(n, q, b, w);
    if !IsPrime(n) {
      var d := SmallDivisor(n);
      OrderBelow(n, q, b, w, d);
      AboveOne(n, d, q);
    }
  }

  lemma AboveOne(n: nat, d: nat, q: nat)
    requires q > 1 && d > 1 && (d - 1) % q == 0 && d * d <= n
    ensures q * q <= n
  {
    assert d - 1 == q * ((d - 1) / q);
    MulMono(q, 1, (d - 1) / q);
    MulMono(q, q, d);
    MulMono(d, q, d);
  }

  /** And with two, whose product is above the root. */
  lemma PrimeByTwo(n: nat, q: nat, b: nat, w: nat, r: nat, c: nat, v: nat)
    requires Order(n, q, b, w) && Order(n, r, c, v) && q != r && (q * r) * (q * r) > n
    ensures IsPrime(n)
  {
    hide Order;
    OrderPrime(n, q, b, w);
    OrderPrime(n, r, c, v);
    if !IsPrime(n) {
      var d := SmallDivisor(n);
      OrderBelow(n, q, b, w, d);
      OrderBelow(n, r, c, v, d);
      BothDivide(d - 1, q, r);
      AboveOne(n, d, q * r);
    }
  }

  lemma OrderPrime(n: nat, q: nat, b: nat, w: nat)
    requires Order(n, q, b, w)
    ensures n > 1 && IsPrime(q)
  {
  }

  /** Two primes that divide a number divide it together. */
  lemma BothDivide(x: nat, q: nat, r: nat)
    requires IsPrime(q) && IsPrime(r) && q != r && x % q == 0 && x % r == 0
    ensures q * r > 1 && x % (q * r) == 0
  {
    var k := x / q;
    assert x == q * k;
    var a := q % r;
    NotMultiple(q, r);
    ModMod(q, r);
    CongruentProduct(q, a, k, k, r);
    NoZeroDivisors(a, k, r);
    assert k == r * (k / r);
    MulShuffle(q, r, 1, k / r);
    MulMono(q, 2, r);
    DivUnique(x, q * r, k / r, 0);
  }

  lemma NotMultiple(q: nat, r: nat)
    requires IsPrime(q) && IsPrime(r) && q != r
    ensures q % r != 0
  {
    if q < r { DivUnique(q, r, 0, q); }
  }
}
