/** Facts about division, congruence and powers of integers that the other modules share. */
module Arithmetic {

  function Pow2(n: nat): (r: nat)
    ensures r >= 1
  {
    if n == 0 then 1 else 2 * Pow2(n - 1)
  }

  lemma {:induction false} Pow2Add(m: nat, n: nat)
    ensures Pow2(m + n) == Pow2(m) * Pow2(n)
  {
    if n > 0 { Pow2Add(m, n - 1); }
  }

  lemma Pow2Values()
    ensures Pow2(8) == 0x100 && Pow2(16) == 0x1_0000 && Pow2(24) == 0x100_0000
    ensures Pow2(25) == 0x200_0000 && Pow2(26) == 0x400_0000
    ensures Pow2(31) == 0x8000_0000 && Pow2(32) == 0x1_0000_0000
    ensures Pow2(63) == 0x8000_0000_0000_0000 && Pow2(64) == 0x1_0000_0000_0000_0000
  {
    assert Pow2(4) == 0x10 && Pow2(8) == 0x100;
    Pow2Add(8, 8);
    Pow2Add(16, 8);
    Pow2Add(24, 1);
    Pow2Add(25, 1);
    Pow2Add(16, 16);
    assert Pow2(32) == 2 * Pow2(31);
    Pow2Add(32, 32);
    assert Pow2(64) == 2 * Pow2(63);
  }

  lemma MulMono(n: int, a: int, b: int)
    requires n >= 0 && a <= b
    ensures n * a <= n * b
  {
  }

  lemma MulAdd(m: int, x: int, y: int)
    ensures m * (x + y) == m * x + m * y
  {
  }

  lemma MulAddMul(r: int, v: int, w: int, h: int)
    ensures r * (v + w * h) == r * v + (r * w) * h && (r * w) * h == w * (r * h)
  {
  }

  lemma AddMulMul(x: int, r: int, v: int, w: int)
    ensures (x + r * v) * w == x * w + r * (v * w)
  {
  }

  lemma MulShuffle(a: int, b: int, x: int, y: int)
    ensures (a * b) * (x * y) == (a * x) * (b * y)
  {
    assert (a * b) * (x * y) == a * (b * (x * y));
    assert b * (x * y) == x * (b * y);
    assert a * (x * (b * y)) == (a * x) * (b * y);
  }

  /** Quotient and remainder are determined by a == n * q + r with 0 <= r < n. */
  lemma DivUnique(a: int, n: int, q: int, r: int)
    requires 0 <= r < n && a == n * q + r
    ensures a / n == q && a % n == r
  {
    var q' := a / n;
    assert a == n * q' + a % n;
    assert n * (q' + 1) == n * q' + n && n * (q + 1) == n * q + n;
    if q > q' { MulMono(n, q' + 1, q); assert false; }
    if q < q' { MulMono(n, q + 1, q'); assert false; }
  }

  lemma DivDiv(a: int, m: int, d: int)
    requires m > 0 && d > 0
    ensures m * d > 0 && (a / m) / d == a / (m * d)
  {
    var q, r1, r2 := (a / m) / d, a % m, (a / m) % d;
    MulMono(m, r2, d - 1);
    assert m * (d - 1) == m * d - m;
    assert m * (d * q + r2) == (m * d) * q + m * r2;
    DivUnique(a, m * d, q, m * r2 + r1);
  }

  /** The remainder by m * d from the remainders by m and by d. */
  lemma ModSplit(a: int, m: int, d: int)
    requires m > 0 && d > 0
    ensures m * d > 0 && a % (m * d) == a % m + m * ((a / m) % d)
  {
    var q, r1, r2 := (a / m) / d, a % m, (a / m) % d;
    MulMono(m, r2, d - 1);
    assert m * (d - 1) == m * d - m;
    assert m * (d * q + r2) == (m * d) * q + m * r2;
    DivUnique(a, m * d, q, m * r2 + r1);
  }

  // -- Congruence: x and y are congruent modulo m when x % m == y % m --

  lemma CongruentBy(x: int, y: int, m: int, k: int)
    requires m > 0 && x == y + m * k
    ensures x % m == y % m
  {
    assert m * (y / m) + m * k == m * (y / m + k);
    DivUnique(x, m, y / m + k, y % m);
  }

  lemma CongruentWitness(x: int, y: int, m: int) returns (k: int)
    requires m > 0 && x % m == y % m
    ensures x == y + m * k
  {
    k := x / m - y / m;
    assert m * k == m * (x / m) - m * (y / m);
  }

  lemma CongruentSum(x: int, y: int, u: int, v: int, m: int)
    requires m > 0 && x % m == y % m && u % m == v % m
    ensures (x + u) % m == (y + v) % m && (x - u) % m == (y - v) % m
  {
    var j := CongruentWitness(x, y, m);
    var k := CongruentWitness(u, v, m);
    MulAdd(m, j, k);
    MulAdd(m, j, -k);
    CongruentBy(x + u, y + v, m, j + k);
    CongruentBy(x - u, y - v, m, j - k);
  }

  lemma CongruentProduct(x: int, y: int, u: int, v: int, m: int)
    requires m > 0 && x % m == y % m && u % m == v % m
    ensures (x * u) % m == (y * v) % m
  {
    var j := CongruentWitness(x, y, m);
    var k := CongruentWitness(u, v, m);
    ProductWitness(y, j, v, k, m);
    CongruentBy(x * u, y * v, m, j * v + y * k + m * (j * k));
  }

  lemma ProductWitness(y: int, j: int, v: int, k: int, m: int)
    ensures (y + m * j) * (v + m * k) == y * v + m * (j * v + y * k + m * (j * k))
  {
    var a, b := m * j, m * k;
    assert (y + a) * (v + b) == y * v + a * v + y * b + a * b;
    assert a * v == m * (j * v) && y * b == m * (y * k);
    assert a * b == m * (m * (j * k)) by { assert a * b == m * (j * (m * k)) && j * (m * k) == m * (j * k); }
    MulAdd(m, j * v, y * k);
    MulAdd(m, j * v + y * k, m * (j * k));
  }

  /** x and its remainder are congruent. */
  lemma ModMod(x: int, m: int)
    requires m > 0
    ensures (x % m) % m == x % m
  {
    DivUnique(x % m, m, 0, x % m);
  }

  /** b to the power e. */
  function Pow(b: int, e: nat): int
    decreases e, b
  {
    if e == 0 then 1 else b * Pow(b, e - 1)
  }

  lemma {:induction false} PowAdd(b: int, m: nat, n: nat)
    ensures Pow(b, m + n) == Pow(b, m) * Pow(b, n)
    decreases m
  {
    if m > 0 {
      PowAdd(b, m - 1, n);
      assert b * (Pow(b, m - 1) * Pow(b, n)) == (b * Pow(b, m - 1)) * Pow(b, n);
    }
  }

  lemma {:induction false} PowMul(b: int, m: nat, n: nat)
    ensures Pow(b, m * n) == Pow(Pow(b, m), n)
    decreases n
  {
    if n > 0 {
      PowMul(b, m, n - 1);
      assert m * n == m + m * (n - 1);
      PowAdd(b, m, m * (n - 1));
    }
  }

  lemma {:induction false} PowProduct(a: int, b: int, n: nat)
    ensures Pow(a * b, n) == Pow(a, n) * Pow(b, n)
    decreases n
  {
    if n > 0 {
      PowProduct(a, b, n - 1);
      MulShuffle(a, b, Pow(a, n - 1), Pow(b, n - 1));
    }
  }

  lemma {:induction false} PowCongruent(a: int, b: int, n: nat, m: int)
    requires m > 0 && a % m == b % m
    ensures Pow(a, n) % m == Pow(b, n) % m
    decreases n
  {
    if n > 0 {
      PowCongruent(a, b, n - 1, m);
      CongruentProduct(a, b, Pow(a, n - 1), Pow(b, n - 1), m);
    }
  }
}
