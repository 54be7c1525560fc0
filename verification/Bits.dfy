/** Two's complement machine integers and the bitwise operators the C code applies to them.

    Arithmetic on the newtypes below carries a proof obligation that no result leaves the type, so a
    body written over them also proves the absence of overflow. */
module Bits {
  import opened Arithmetic

  newtype U8 = x: int | 0 <= x < 0x100
  newtype S32 = x: int | -0x8000_0000 <= x < 0x8000_0000
  newtype S64 = x: int | -0x8000_0000_0000_0000 <= x < 0x8000_0000_0000_0000

  /** Bit i of an integer, negative integers having all their high bits set. */
  predicate Bit(a: int, i: nat)
    decreases i, a
  {
    if i == 0 then a % 2 == 1 else Bit(a / 2, i - 1)
  }

  /** a fits a signed word of w bits. */
  predicate Signed(w: nat, a: int) {
    w >= 1 && 0 - Pow2(w - 1) <= a < Pow2(w - 1)
  }

  /** Bit i from its arithmetic definition. */
  lemma {:induction false} BitIsDigit(a: int, i: nat)
    ensures Bit(a, i) <==> (a / Pow2(i)) % 2 == 1
    decreases i
  {
    if i > 0 {
      BitIsDigit(a / 2, i - 1);
      DivDiv(a, 2, Pow2(i - 1));
    }
  }

  /** A word is negative exactly when its top bit is set. */
  lemma {:induction false} TopBitIsSign(w: nat, a: int)
    requires Signed(w, a)
    ensures Bit(a, w - 1) <==> a < 0
    decreases w
  {
    if w > 1 { TopBitIsSign(w - 1, a / 2); }
  }

  /** Two words with the same bits are equal. */
  lemma {:induction false} SameBits(w: nat, a: int, b: int)
    requires Signed(w, a) && Signed(w, b)
    requires forall i :: 0 <= i < w ==> Bit(a, i) == Bit(b, i)
    ensures a == b
    decreases w
  {
    assert Bit(a, 0) == Bit(b, 0);
    if w > 1 {
      forall i | 0 <= i < w - 1 ensures Bit(a / 2, i) == Bit(b / 2, i) {
        assert Bit(a, i + 1) == Bit(b, i + 1);
      }
      SameBits(w - 1, a / 2, b / 2);
    }
  }

  /** a & b and a ^ b on signed words of w bits. */
  function AndW(w: nat, a: int, b: int): (r: int)
    requires w >= 1
    ensures Signed(w, r)
    decreases w, a
  {
    var bit := a % 2 == 1 && b % 2 == 1;
    if w == 1 then if bit then -1 else 0
    else (if bit then 1 else 0) + 2 * AndW(w - 1, a / 2, b / 2)
  }

  function XorW(w: nat, a: int, b: int): (r: int)
    requires w >= 1
    ensures Signed(w, r)
    decreases w, a
  {
    var bit := a % 2 != b % 2;
    if w == 1 then if bit then -1 else 0
    else (if bit then 1 else 0) + 2 * XorW(w - 1, a / 2, b / 2)
  }

  lemma {:induction false} AndBit(w: nat, a: int, b: int, i: nat)
    requires i < w
    ensures Bit(AndW(w, a, b), i) == (Bit(a, i) && Bit(b, i))
    decreases w
  {
    hide Pow2;
    if w > 1 {
      assert AndW(w, a, b) / 2 == AndW(w - 1, a / 2, b / 2);
      if i > 0 { AndBit(w - 1, a / 2, b / 2, i - 1); }
    }
  }

  lemma {:induction false} XorBit(w: nat, a: int, b: int, i: nat)
    requires i < w
    ensures Bit(XorW(w, a, b), i) == (Bit(a, i) != Bit(b, i))
    decreases w
  {
    hide Pow2;
    if w > 1 {
      assert XorW(w, a, b) / 2 == XorW(w - 1, a / 2, b / 2);
      if i > 0 { XorBit(w - 1, a / 2, b / 2, i - 1); }
    }
  }

  /** A mask of all ones keeps a word and a mask of zeros clears it. */
  lemma {:induction false} AndMask(w: nat, a: int)
    requires Signed(w, a)
    ensures AndW(w, a, -1) == a && AndW(w, -1, a) == a
    ensures AndW(w, a, 0) == 0 && AndW(w, 0, a) == 0
    decreases w
  {
    if w > 1 { AndMask(w - 1, a / 2); }
  }

  /** Masking with k low ones takes the remainder by 2^k. */
  lemma {:induction false} AndLow(w: nat, a: int, k: nat)
    requires Signed(w, a) && k < w
    ensures AndW(w, a, Pow2(k) - 1) == a % Pow2(k)
    decreases k
  {
    hide AndW, Pow2, Signed;
    if k == 0 {
      AndMask(w, a);
      OneAtLeast(0);
    } else {
      var p := Pow2(k - 1);
      Halved(w, a, k);
      AndLow(w - 1, a / 2, k - 1);
      AndNext(w, a, 2 * p - 1);
      ModSplit(a, 2, p);
    }
  }

  lemma OneAtLeast(k: nat)
    ensures Pow2(k) >= 1 && Pow2(0) == 1
  {
  }

  lemma Halved(w: nat, a: int, k: nat)
    requires Signed(w, a) && 0 < k < w
    ensures Signed(w - 1, a / 2) && Pow2(k) == 2 * Pow2(k - 1) && Pow2(k - 1) >= 1
  {
  }

  lemma AndNext(w: nat, a: int, b: int)
    requires w > 1
    ensures AndW(w, a, b) == (if a % 2 == 1 && b % 2 == 1 then 1 else 0) + 2 * AndW(w - 1, a / 2, b / 2)
  {
  }

  /** The same with the mask and the modulus given as a number m = 2^k. */
  lemma AndLowIs(w: nat, a: int, k: nat, m: int)
    requires k < w && 0 <= a < Pow2(w - 1) && m == Pow2(k)
    ensures AndW(w, a, m - 1) == a % m
    ensures a < m ==> AndW(w, a, m - 1) == a
  {
    AndLow(w, a, k);
    if a < m { DivUnique(a, m, 0, a); }
  }

  /** Exchanging by exclusive or: a ^ (a ^ b) is b, and a ^ 0 is a. */
  lemma {:induction false} XorCancel(w: nat, a: int, b: int)
    requires Signed(w, a) && Signed(w, b)
    ensures XorW(w, a, XorW(w, a, b)) == b && XorW(w, b, XorW(w, a, b)) == a
    ensures XorW(w, a, 0) == a
    decreases w
  {
    if w > 1 {
      assert Pow2(w - 1) == 2 * Pow2(w - 2);
      hide Pow2;
      var x := XorW(w, a, b);
      assert x / 2 == XorW(w - 1, a / 2, b / 2);
      assert x % 2 == 1 <==> a % 2 != b % 2;
      XorCancel(w - 1, a / 2, b / 2);
    }
  }

  /** The signed word of w bits congruent to a modulo 2^w. */
  function Wrap(w: nat, a: int): (r: int)
    requires w >= 1
    ensures Signed(w, r)
  {
    (a + Pow2(w - 1)) % Pow2(w) - Pow2(w - 1)
  }

  /** a << k on signed words of w bits, the bits shifted out being lost. */
  function ShlW(w: nat, a: int, k: nat): int
    requires w >= 1
    decreases k, a
  {
    if k == 0 then a else Wrap(w, 2 * ShlW(w, a, k - 1))
  }

  lemma {:induction false} BitAddHigh(a: int, c: int, n: nat, i: nat)
    requires i < n
    ensures Bit(a + c * Pow2(n), i) == Bit(a, i)
    decreases i
  {
    var h := c * Pow2(n - 1);
    assert c * Pow2(n) == 2 * h;
    if i > 0 {
      assert (a + 2 * h) / 2 == a / 2 + h;
      BitAddHigh(a / 2, c, n - 1, i - 1);
    }
  }

  /** Bit k + r is bit r of the quotient by 2^k. */
  lemma {:induction false} BitAbove(a: int, k: nat, r: nat)
    ensures Bit(a, k + r) == Bit(a / Pow2(k), r)
    decreases k
  {
    if k > 0 {
      BitAbove(a / 2, k - 1, r);
      DivDiv(a, 2, Pow2(k - 1));
    }
  }

  lemma WrapBit(w: nat, a: int, i: nat)
    requires i < w
    ensures Bit(Wrap(w, a), i) == Bit(a, i)
  {
    var h, m := Pow2(w - 1), Pow2(w);
    var c := -((a + h) / m);
    assert a + h == m * ((a + h) / m) + (a + h) % m;
    assert Wrap(w, a) == a + c * m;
    BitAddHigh(a, c, w, i);
  }

  lemma {:induction false} ShlBit(w: nat, a: int, k: nat, i: nat)
    requires i < w
    ensures Bit(ShlW(w, a, k), i) == (i >= k && Bit(a, i - k))
    decreases k
  {
    hide Pow2, Wrap;
    if k > 0 {
      var x := 2 * ShlW(w, a, k - 1);
      WrapBit(w, x, i);
      if i > 0 { ShlBit(w, a, k - 1, i - 1); }
    }
  }

  /** The 32-bit operators: x & y, x ^ y, x << k, ~x and the sign-extending x >> 31. */
  function And(x: S32, y: S32): S32 { Pow2Values(); AndW(32, x as int, y as int) as S32 }
  function Xor(x: S32, y: S32): S32 { Pow2Values(); XorW(32, x as int, y as int) as S32 }
  function Shl(x: S32, k: nat): S32
  {
    Pow2Values();
    ShlW(32, x as int, k) as S32
  }
  function Not(x: S32): S32 { -1 - x }
  function Sign(x: S32): S32 { if x < 0 then -1 else 0 }

  /** x | y on bytes. */
  function Or(x: U8, y: U8): U8 { OrW(8, x as int, y as int) as U8 }

  function OrW(w: nat, a: int, b: int): (r: int)
    ensures 0 <= r < Pow2(w)
    decreases w, a
  {
    if w == 0 then 0 else (if a % 2 == 1 || b % 2 == 1 then 1 else 0) + 2 * OrW(w - 1, a / 2, b / 2)
  }

  /** Bytes without a common bit are joined by adding them. */
  lemma {:induction false} OrDisjoint(w: nat, a: int, b: int, k: nat)
    requires k <= w && 0 <= a < Pow2(k) && 0 <= b < Pow2(w) && b % Pow2(k) == 0
    ensures OrW(w, a, b) == a + b
    decreases w
  {
    if w > 0 {
      if k == 0 {
        OrDisjoint(w - 1, 0, b / 2, 0);
      } else {
        ModSplit(b, 2, Pow2(k - 1));
        OrDisjoint(w - 1, a / 2, b / 2, k - 1);
      }
    }
  }
}
