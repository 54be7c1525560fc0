/** X25519 as section 5 of RFC 7748 states it, over the integers modulo p; the standard's p is 2^255 - 19. */
module Ladder {
  import opened Arithmetic
  import opened Bits
  import opened Limbs
  import opened Packing

  function Plus(a: int, b: int, p: nat): int
    requires p > 0
  {
    (a + b) % p
  }

  function Minus(a: int, b: int, p: nat): int
    requires p > 0
  {
    (a - b) % p
  }

  function Times(a: int, b: int, p: nat): int
    requires p > 0
  {
    (a * b) % p
  }

  /** The state of the ladder: two points in projective form and a swap that is still owed. */
  datatype State = State(x2: int, z2: int, x3: int, z3: int, swap: bool)

  function Swapped(s: State): State { s.(x2 := s.x3, x3 := s.x2, z2 := s.z3, z3 := s.z2) }

  function CSwap(swap: bool, s: State): State { if swap then Swapped(s) else s }

  /** One combined doubling and differential addition; x1 is the difference of the two points. */
  function DoubleAndAdd(x1: int, s: State, p: nat): State
    requires p > 0
  {
    var A := Plus(s.x2, s.z2, p);
    var AA := Times(A, A, p);
    var B := Minus(s.x2, s.z2, p);
    var BB := Times(B, B, p);
    var E := Minus(AA, BB, p);
    var C := Plus(s.x3, s.z3, p);
    var D := Minus(s.x3, s.z3, p);
    var DA := Times(D, A, p);
    var CB := Times(C, B, p);
    State(Times(AA, BB, p), Times(E, Plus(AA, Times(121665, E, p), p), p),
          Times(Plus(DA, CB, p), Plus(DA, CB, p), p), Times(x1, Times(Minus(DA, CB, p), Minus(DA, CB, p), p), p),
              s.swap)
  }

  function Step(x1: int, s: State, kt: bool, p: nat): State
    requires p > 0
  {
    DoubleAndAdd(x1, CSwap(s.swap != kt, s), p).(swap := kt)
  }

  /** The state after the top n of the given number of bits of k. */
  function Run(x1: int, k: nat, bits: nat, n: nat, p: nat): State
    requires n <= bits && p > 0
    decreases n, k
  {
    if n == 0 then State(1, 0, x1, 1, false)
    else Step(x1, Run(x1, k, bits, n - 1, p), Bit(k, bits - n), p)
  }

  /** The quotient x_2 / z_2 after all bits, with the swap that is still owed carried out. */
  function Output(s: State, p: nat): int
    requires p > 1
  {
    var r := CSwap(s.swap, s);
    Times(r.x2, Pow(r.z2, p - 2), p)
  }

  /** Decoding of scalars and of u-coordinates. */
  function Clamp(k: seq<U8>): seq<U8>
    requires |k| == 32
  {
    k[0 := 8 * (k[0] / 8)][31 := k[31] % 64 + 64]
  }

  function DecodeU(u: seq<U8>, p: nat): nat
    requires |u| == 32 && p > 0
  {
    LittleEndian(u) % (P + 19) % p
  }

  /** The function with the ladder run over the given number of bits. */
  function X25519(k: seq<U8>, u: seq<U8>, bits: nat, p: nat): int
    requires |k| == 32 && |u| == 32 && p > 1
  {
    Output(Run(DecodeU(u, p), LittleEndian(Clamp(k)), bits, bits, p), p)
  }

  // -- Scalars --

  lemma {:induction false} LittleBound(s: seq<U8>, i: nat, n: nat)
    requires i <= n <= |s|
    ensures Little(s, i, n) < Pow2(8 * (n - i))
    decreases n - i
  {
    if i < n {
      LittleBound(s, i + 1, n);
      Pow2Values();
      Pow2Add(8, 8 * (n - i - 1));
    }
  }

  /** A byte with its three low bits cleared, and one with its top bit cleared and the next one set. */
  lemma ByteBits(a: int, r: nat)
    requires 0 <= a < 0x100 && r < 8
    ensures r >= 3 ==> Bit(8 * (a / 8), r) == Bit(a, r)
    ensures r < 6 ==> Bit(a % 64 + 64, r) == Bit(a, r)
  {
    hide Bit, Pow2;
    SmallPowers();
    if r >= 3 {
      BitAbove(a, 3, r - 3);
      BitAbove(8 * (a / 8), 3, r - 3);
    }
    if r < 6 {
      BitAddHigh(a % 64, a / 64, 6, r);
      BitAddHigh(a % 64, 1, 6, r);
    }
  }

  /** The scalar of section 5 of RFC 7748: a multiple of 8, with bit 254 its highest, and the secret's bits between. */
  lemma Clamped(k: seq<U8>)
    requires |k| == 32
    ensures LittleEndian(Clamp(k)) % 8 == 0 && Pow2(254) <= LittleEndian(Clamp(k)) < Pow2(255)
    ensures forall i: nat :: 3 <= i < 254 ==> Bit(LittleEndian(Clamp(k)), i) == Bit(LittleEndian(k), i)
  {
    hide Pow2, Bit, Little;
    ClampedRange(k, Clamp(k));
    forall i: nat | 3 <= i < 254 ensures Bit(LittleEndian(Clamp(k)), i) == Bit(LittleEndian(k), i) {
      LittleBit(k, 0, i / 8, i % 8);
      LittleBit(Clamp(k), 0, i / 8, i % 8);
      ByteBits(k[i / 8] as int, i % 8);
    }
  }

  lemma ClampedRange(k: seq<U8>, e: seq<U8>)
    requires |k| == 32 && e == Clamp(k)
    ensures LittleEndian(e) % 8 == 0 && Pow2(254) <= LittleEndian(e) < Pow2(255)
  {
    hide Pow2, Little;
    SmallPowers();
    Pow2Add(248, 6);
    Pow2Add(248, 7);
    LittleSplit(e, 0, 31, 32);
    LittleBound(e, 0, 31);
    LastByte(e);
    TopByte(Little(e, 0, 31), e[31] as int, Pow2(248));
    FirstByte(e);
    LowByte(k[0] as int / 8, Little(e, 1, 32));
  }

  lemma TopByte(low: int, h: int, w: int)
    requires 0 <= low < w && 64 <= h < 128
    ensures w * 64 <= low + w * h < w * 128
  {
    MulMono(w, 64, h);
    MulMono(w, h, 127);
  }

  lemma LowByte(d: int, rest: int)
    ensures (8 * d + 0x100 * rest) % 8 == 0
  {
    DivUnique(8 * d + 0x100 * rest, 8, d + 32 * rest, 0);
  }

  lemma LastByte(e: seq<U8>)
    requires |e| == 32
    ensures Little(e, 31, 32) == e[31] as int
  {
  }

  lemma FirstByte(e: seq<U8>)
    requires |e| == 32
    ensures LittleEndian(e) == e[0] as int + 0x100 * Little(e, 1, 32)
  {
  }
}
