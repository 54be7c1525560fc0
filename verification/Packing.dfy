/** Packing: limbs from 32 little-endian bytes and back. */
module Packing {
  import opened Arithmetic
  import opened Bits
  import opened Limbs
  import opened FieldOps

  /** The little-endian value of bytes i .. n. */
  function Little(s: seq<U8>, i: nat, n: nat): nat
    requires n <= |s|
    decreases n - i, |s|
  {
    if i >= n then 0 else s[i] as nat + 0x100 * Little(s, i + 1, n)
  }

  function LittleEndian(s: seq<U8>): nat { Little(s, 0, |s|) }

  /** Four bytes joined by shifting and or. */
  function Join(b0: U8, b1: U8, b2: U8, b3: U8): int {
    OrW(64, OrW(64, OrW(64, b0 as int, b1 as int * 0x100), b2 as int * 0x1_0000), b3 as int * 0x100_0000)
  }

  /** A multiple of 2^k or-ed onto something below 2^k is added to it. */
  lemma OrMultiple(low: int, b: int, k: nat)
    requires k <= 64 && 0 <= low < Pow2(k) && 0 <= b && b * Pow2(k) < Pow2(64)
    ensures OrW(64, low, b * Pow2(k)) == low + b * Pow2(k)
  {
    DivUnique(b * Pow2(k), Pow2(k), b, 0);
    MulMono(Pow2(k), 0, b);
    OrDisjoint(64, low, b * Pow2(k), k);
  }

  lemma JoinIsSum(b0: U8, b1: U8, b2: U8, b3: U8)
    ensures Join(b0, b1, b2, b3) == b0 as int + 0x100 * b1 as int + 0x1_0000 * b2 as int + 0x100_0000 * b3 as int
  {
    Pow2Values();
    OrMultiple(b0 as int, b1 as int, 8);
    OrMultiple(b0 as int + b1 as int * 0x100, b2 as int, 16);
    OrMultiple(b0 as int + b1 as int * 0x100 + b2 as int * 0x1_0000, b3 as int, 24);
  }

  /** Shifting right by S the word whose low byte is b0 and whose other bytes are y; S * R = 256. */
  lemma ShiftWord(b0: int, y: int, S: int, R: int)
    requires 0 <= b0 < 0x100 && S > 0 && R > 0 && S * R == 0x100
    ensures (b0 + 0x100 * y) / S == b0 / S + R * y
    ensures 0 <= b0 / S < R
  {
    var q := b0 / S;
    MulAddMul(S, q, R, y);
    DivUnique(b0 + 0x100 * y, S, q + R * y, b0 % S);
    if q >= R { MulMono(S, R, q); assert false; }
  }

  /** Dropping the bits of b3 from T up out of a word in which b3 weighs K; K * T = W. */
  lemma CutWord(low: int, b3: int, K: int, T: int, W: int)
    requires 0 <= low < K && 0 <= b3 && T > 0 && K * T == W
    ensures W > 0 && (low + K * b3) % W == low + K * (b3 % T)
  {
    var h, l := b3 / T, b3 % T;
    MulAddMul(K, l, T, h);
    MulMono(K, 0, l);
    MulMono(K, l, T - 1);
    MulAdd(K, T, -1);
    MulMono(K, 1, T);
    DivUnique(low + K * b3, W, h, low + K * l);
  }

  /** The limb whose lowest bits are in byte start of b, from a bit of weight S up, and whose highest are below bit T of
      byte start + 3. */
  ghost predicate IsWindow(r: Limb, b: seq<U8>, start: nat, S: int, R: int, K: int, T: int)
    requires start + 4 <= |b| && S > 0 && T > 0
  {
    r as int == b[start] as int / S + R * (b[start + 1] as int + 0x100 * b[start + 2] as int) +
                K * (b[start + 3] as int % T)
  }

  /** What one limb takes from its four bytes: joined, shifted right and masked. The ghost arguments
      are the powers of two that place the bytes: 2^shift, 2^(8-shift), 2^(24-shift) and 2^(shift+width-24). */
  method Window(input: array<U8>, start: nat, shift: nat, width: nat, ghost S: int, ghost R: int, ghost K: int,
      ghost T: int)
    returns (r: Limb)
    requires start + 4 <= input.Length && shift < 8 && 24 < shift + width <= 32 && width <= 26
    requires S == Pow2(shift) && R == Pow2(8 - shift) && K == Pow2(24 - shift) && T == Pow2(shift + width - 24)
    ensures IsWindow(r, input[..], start, S, R, K, T)
    ensures 0 <= r as int < Pow2(width)
  {
    var joined := Join(input[start], input[start + 1], input[start + 2], input[start + 3]);
    WindowParts(input[start], input[start + 1], input[start + 2], input[start + 3], shift, width);
    WindowRange(joined, shift, width);
    r := AndW(64, joined / Pow2(shift), Pow2(width) - 1) as Limb;
  }

  lemma WindowRange(x: int, shift: nat, width: nat)
    requires 0 <= x < 0x1_0000_0000 && shift < 8 && width <= 26
    ensures AndW(64, x / Pow2(shift), Pow2(width) - 1) == (x / Pow2(shift)) % Pow2(width)
    ensures Pow2(width) <= 0x400_0000
  {
    DivSmaller(x, Pow2(shift));
    Pow2Values();
    AndLow(64, x / Pow2(shift), width);
    Pow2Add(width, 26 - width);
    MulMono(Pow2(width), 1, Pow2(26 - width));
  }

  lemma WindowParts(b0: U8, b1: U8, b2: U8, b3: U8, shift: nat, width: nat)
    requires shift < 8 && 24 < shift + width <= 32
    ensures 0 <= Join(b0, b1, b2, b3) < 0x1_0000_0000
    ensures Join(b0, b1, b2, b3) / Pow2(shift) % Pow2(width) ==
            b0 as int / Pow2(shift) + Pow2(8 - shift) * (b1 as int + 0x100 * b2 as int) +
            Pow2(24 - shift) * (b3 as int % Pow2(shift + width - 24))
  {
    JoinIsSum(b0, b1, b2, b3);
    Pow2Values();
    Pow2Add(shift, 8 - shift);
    Pow2Add(8 - shift, 16);
    Pow2Add(24 - shift, shift + width - 24);
    WindowArithmetic(b0 as int, b1 as int + 0x100 * b2 as int, b3 as int,
                     Pow2(shift), Pow2(8 - shift), Pow2(24 - shift), Pow2(shift + width - 24), Pow2(width));
  }

  lemma WindowArithmetic(b0: int, m: int, b3: int, S: int, R: int, K: int, T: int, W: int)
    requires 0 <= b0 < 0x100 && 0 <= m < 0x1_0000 && 0 <= b3 && S > 0 && R > 0 && T > 0 && W > 0
    requires S * R == 0x100 && R * 0x1_0000 == K && K * T == W
    ensures (b0 + 0x100 * (m + 0x1_0000 * b3)) / S % W == b0 / S + R * m + K * (b3 % T)
  {
    ShiftWord(b0, m + 0x1_0000 * b3, S, R);
    MulAddMul(R, m, 0x1_0000, b3);
    MulMono(R, m, 0xffff);
    MulMono(R, 0, m);
    CutWord(b0 / S + R * m, b3, K, T, W);
  }

  lemma DivSmaller(x: int, d: int)
    requires x >= 0 && d >= 1
    ensures 0 <= x / d <= x
  {
    MulMono(x / d, 1, d);
  }

  /** Takes 32 little-endian bytes into ten limbs; the top bit is dropped. */
  method FExpand(output: array<Limb>, input: array<U8>)
    requires output.Length >= 10 && input.Length == 32
    modifies output
    ensures V(output) == LittleEndian(input[..]) % (P + 19)
    ensures forall j :: 0 <= j < 10 ==> 0 <= output[j] as int < Radix(j)
  {
    hide LowWindows, HighWindows, LittleEndian, Radix;
    ExpandLow(output, input);
    ghost var low := output[..];
    ExpandHigh(output, input);
    SameWindows(low, output[..], input[..]);
    ExpandedValue(output[..], input[..]);
  }

  method ExpandLow(output: array<Limb>, input: array<U8>)
    requires output.Length >= 10 && input.Length == 32
    modifies output
    ensures LowWindows(output[..], input[..]) && forall j :: 0 <= j < 5 ==> 0 <= output[j] as int < Radix(j)
  {
    hide Pow2, IsWindow;
    SmallPowers();
    Pow2Values();
    var t0 := Window(input, 0, 0, 26, 1, 256, 0x1000000, 4);
    var t1 := Window(input, 3, 2, 25, 4, 64, 0x400000, 8);
    var t2 := Window(input, 6, 3, 26, 8, 32, 0x200000, 32);
    var t3 := Window(input, 9, 5, 25, 32, 8, 0x80000, 64);
    var t4 := Window(input, 12, 6, 26, 64, 4, 0x40000, 256);
    output[0], output[1], output[2], output[3], output[4] := t0, t1, t2, t3, t4;
  }

  method ExpandHigh(output: array<Limb>, input: array<U8>)
    requires output.Length >= 10 && input.Length == 32
    modifies output
    ensures HighWindows(output[..], input[..]) && forall j :: 5 <= j < 10 ==> 0 <= output[j] as int < Radix(j)
    ensures forall j :: 0 <= j < 5 ==> output[j] == old(output[j])
  {
    hide Pow2, IsWindow;
    SmallPowers();
    Pow2Values();
    var t5 := Window(input, 16, 0, 25, 1, 256, 0x1000000, 2);
    var t6 := Window(input, 19, 1, 26, 2, 128, 0x800000, 8);
    var t7 := Window(input, 22, 3, 25, 8, 32, 0x200000, 16);
    var t8 := Window(input, 25, 4, 26, 16, 16, 0x100000, 64);
    var t9 := Window(input, 28, 6, 25, 64, 4, 0x40000, 128);
    output[5], output[6], output[7], output[8], output[9] := t5, t6, t7, t8, t9;
  }

  lemma SmallPowers()
    ensures Pow2(0) == 1 && Pow2(1) == 2 && Pow2(2) == 4 && Pow2(3) == 8 && Pow2(4) == 16 && Pow2(5) == 32
    ensures Pow2(6) == 64 && Pow2(7) == 128
    ensures Pow2(18) == 0x4_0000 && Pow2(19) == 0x8_0000 && Pow2(20) == 0x10_0000
    ensures Pow2(21) == 0x20_0000 && Pow2(22) == 0x40_0000 && Pow2(23) == 0x80_0000
  {
    Pow2Values();
    assert Pow2(4) == 16;
    Pow2Add(16, 2);
    assert Pow2(19) == 2 * Pow2(18) && Pow2(20) == 2 * Pow2(19) && Pow2(21) == 2 * Pow2(20);
    assert Pow2(22) == 2 * Pow2(21) && Pow2(23) == 2 * Pow2(22);
  }

  /** Five limbs from an even one up, and five from an odd one up. */
  lemma FiveLimbs(t: seq<Limb>)
    requires |t| >= 10
    ensures Val(t, 0, 5) == t[0] as int + 0x400_0000 * (t[1] as int + 0x200_0000 * (t[2] as int +
                            0x400_0000 * (t[3] as int + 0x200_0000 * t[4] as int)))
    ensures Val(t, 5, 10) == t[5] as int + 0x200_0000 * (t[6] as int + 0x400_0000 * (t[7] as int +
                             0x200_0000 * (t[8] as int + 0x400_0000 * t[9] as int)))
  {
    assert Val(t, 4, 5) == t[4] as int && Val(t, 9, 10) == t[9] as int;
    assert Val(t, 3, 5) == t[3] as int + 0x200_0000 * t[4] as int;
    assert Val(t, 8, 10) == t[8] as int + 0x400_0000 * t[9] as int;
    assert Val(t, 2, 5) == t[2] as int + 0x400_0000 * Val(t, 3, 5);
    assert Val(t, 7, 10) == t[7] as int + 0x200_0000 * Val(t, 8, 10);
    assert Val(t, 1, 5) == t[1] as int + 0x200_0000 * Val(t, 2, 5);
    assert Val(t, 6, 10) == t[6] as int + 0x400_0000 * Val(t, 7, 10);
  }

  lemma FourBytes(b: seq<U8>, i: nat, n: nat)
    requires i + 4 <= n <= |b|
    ensures Little(b, i, n) == b[i] as int + 0x100 * b[i + 1] as int + 0x1_0000 * b[i + 2] as int +
                               0x100_0000 * b[i + 3] as int + 0x1_0000_0000 * Little(b, i + 4, n)
  {
    assert Little(b, i + 2, n) == b[i + 2] as int + 0x100 * Little(b, i + 3, n);
  }

  /** The five low limbs, each spelled out over its bytes, and the five high ones. */
  ghost predicate LowWindows(t: seq<Limb>, b: seq<U8>)
    requires |t| >= 10 && |b| == 32
  {
    && IsWindow(t[0], b, 0, 1, 256, 0x1000000, 4) && IsWindow(t[1], b, 3, 4, 64, 0x400000, 8)
    && IsWindow(t[2], b, 6, 8, 32, 0x200000, 32) && IsWindow(t[3], b, 9, 32, 8, 0x80000, 64)
    && IsWindow(t[4], b, 12, 64, 4, 0x40000, 256)
  }

  ghost predicate HighWindows(t: seq<Limb>, b: seq<U8>)
    requires |t| >= 10 && |b| == 32
  {
    && IsWindow(t[5], b, 16, 1, 256, 0x1000000, 2) && IsWindow(t[6], b, 19, 2, 128, 0x800000, 8)
    && IsWindow(t[7], b, 22, 8, 32, 0x200000, 16) && IsWindow(t[8], b, 25, 16, 16, 0x100000, 64)
    && IsWindow(t[9], b, 28, 64, 4, 0x40000, 128)
  }

  lemma SameWindows(t: seq<Limb>, u: seq<Limb>, b: seq<U8>)
    requires |t| >= 10 && |u| >= 10 && |b| == 32 && LowWindows(t, b) && forall j :: 0 <= j < 5 ==> t[j] == u[j]
    ensures LowWindows(u, b)
  {
  }

  lemma LittleEmpty(b: seq<U8>, n: nat)
    requires n <= |b|
    ensures Little(b, n, n) == 0
  {
  }

  lemma LowSpelled(t: seq<Limb>, b: seq<U8>)
    requires |t| >= 10 && |b| == 32 && LowWindows(t, b)
    ensures t[0] as int == b[0] as int + 256 * (b[1] as int + 0x100 * b[2] as int) + 0x1000000 * (b[3] as int % 4)
    ensures t[1] as int == b[3] as int / 4 + 64 * (b[4] as int + 0x100 * b[5] as int) + 0x400000 * (b[6] as int % 8)
    ensures t[2] as int == b[6] as int / 8 + 32 * (b[7] as int + 0x100 * b[8] as int) + 0x200000 * (b[9] as int % 32)
    ensures t[3] as int == b[9] as int / 32 + 8 * (b[10] as int + 0x100 * b[11] as int) + 0x80000 * (b[12] as int % 64)
    ensures t[4] as int == b[12] as int / 64 + 4 * (b[13] as int + 0x100 * b[14] as int) + 0x40000 * b[15] as int
  {
  }

  lemma LowValue(t: seq<Limb>, b: seq<U8>, i: nat)
    requires |t| >= 10 && |b| == 32 && LowWindows(t, b) && i == 0
    ensures Val(t, i, 5) == Little(b, i, 16)
  {
    hide Val, Little, LowWindows, IsWindow;
    LowSpelled(t, b);
    LittleEmpty(b, 16);
    FiveLimbs(t);
    FourBytes(b, i, 16); FourBytes(b, 4, 16); FourBytes(b, 8, 16); FourBytes(b, 12, 16);
  }

  lemma HighValue(t: seq<Limb>, b: seq<U8>)
    requires |t| >= 10 && |b| == 32 && HighWindows(t, b)
    ensures Val(t, 5, 10) + 0x8000_0000_0000_0000_0000_0000_0000_0000 * (b[31] as int / 128) == Little(b, 16, 32)
  {
    hide Val, Little;
    LittleEmpty(b, 32);
    FiveLimbs(t);
    FourBytes(b, 16, 32); FourBytes(b, 20, 32); FourBytes(b, 24, 32); FourBytes(b, 28, 32);
  }

  lemma {:induction false} LittleSplit(b: seq<U8>, i: nat, m: nat, n: nat)
    requires i <= m <= n <= |b|
    ensures Little(b, i, n) == Little(b, i, m) + Pow2(8 * (m - i)) * Little(b, m, n)
    decreases m - i
  {
    if i < m {
      LittleSplit(b, i + 1, m, n);
      Pow2Values();
      Pow2Add(8, 8 * (m - i - 1));
      MulAddMul(0x100, Little(b, i + 1, m), Pow2(8 * (m - i - 1)), Little(b, m, n));
    }
  }

  lemma Weights()
    ensures Weight(0, 5) == Pow2(128) == 0x1_0000_0000_0000_0000_0000_0000_0000_0000
    ensures Weight(5, 10) == 0x8000_0000_0000_0000_0000_0000_0000_0000
  {
    Pow2Values();
    Pow2Add(64, 64);
    assert Weight(3, 5) == 0x8_0000_0000_0000 && Weight(8, 10) == 0x8_0000_0000_0000;
  }

  lemma ExpandedValue(t: seq<Limb>, b: seq<U8>)
    requires |t| >= 10 && |b| == 32 && LowWindows(t, b) && HighWindows(t, b)
    requires forall j :: 0 <= j < 10 ==> 0 <= t[j] as int < Radix(j)
    ensures Value(t) == LittleEndian(b) % (P + 19)
  {
    hide LowWindows, HighWindows, Val, Little, Weight, Radix;
    LowValue(t, b, 0);
    HighValue(t, b);
    ValSplit(t, 0, 5, 10);
    LittleSplit(b, 0, 16, 32);
    Weights();
    WeightTen();
    ValBound(t, 0, 10);
    TopBitDropped(LittleEndian(b), Value(t), b[31] as int / 128, P + 19);
  }

  lemma TopBitDropped(full: int, v: int, h: int, m: int)
    requires 0 <= v < m && full == v + m * h
    ensures v == full % m
  {
    DivUnique(full, m, h, v);
  }

  /** Bit r of byte m is bit 8 m + r of the little-endian number. */
  lemma {:induction false} LittleBit(s: seq<U8>, i: nat, m: nat, r: nat)
    requires i <= m < |s| && r < 8
    ensures Bit(Little(s, i, |s|), 8 * (m - i) + r) == Bit(s[m] as int, r)
    decreases m - i
  {
    hide Pow2;
    var rest := Little(s, i + 1, |s|);
    Pow2Values();
    if m == i {
      BitAddHigh(s[i] as int, rest, 8, r);
    } else {
      LittleBit(s, i + 1, m, r);
      BitAbove(Little(s, i, |s|), 8, 8 * (m - i - 1) + r);
      DivUnique(Little(s, i, |s|), 0x100, rest, s[i] as int);
    }
  }

  /** Bytes are determined by the number they represent. */
  lemma {:induction false} LittleUnique(s: seq<U8>, t: seq<U8>, i: nat)
    requires i <= |s| == |t| && Little(s, i, |s|) == Little(t, i, |t|)
    ensures s[i..] == t[i..]
    decreases |s| - i
  {
    if i < |s| {
      DivUnique(Little(s, i, |s|), 0x100, Little(s, i + 1, |s|), s[i] as int);
      DivUnique(Little(t, i, |t|), 0x100, Little(t, i + 1, |t|), t[i] as int);
      LittleUnique(s, t, i + 1);
      assert s[i..] == [s[i]] + s[i + 1..] && t[i..] == [t[i]] + t[i + 1..];
    }
  }
}
