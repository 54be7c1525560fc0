/** Multiple precision integers as bytes, section 5 of RFC 4251. */
module Mpint {
  import opened Arithmetic
  import opened Bits
  import opened Bytes
  import opened Common

  const BUF_MAX_MPINT: nat := 1030


  /** The bytes of a number without leading zeros, as mp_to_unsigned_bin writes them. */
  function ToBytes(n: nat): (s: seq<U8>)
    ensures n == 0 <==> s == []
  {
    if n == 0 then [] else ToBytes(n / 0x100) + [(n % 0x100) as U8]
  }

  lemma {:induction false} BigOfBytes(n: nat)
    ensures Big(ToBytes(n)) == n && (n > 0 ==> ToBytes(n)[0] > 0)
    decreases n
  {
    if n > 0 {
      BigOfBytes(n / 0x100);
      var s := ToBytes(n / 0x100);
      assert (s + [(n % 0x100) as U8])[..|s|] == s;
    }
  }

  lemma {:induction false} BytesOfBig(s: seq<U8>)
    requires s != [] ==> s[0] > 0
    ensures ToBytes(Big(s)) == s
    decreases |s|
  {
    if s != [] {
      var t := s[..|s| - 1];
      BytesOfBig(t);
      BigZero(t);
      DivUnique(Big(s), 0x100, Big(t), s[|s| - 1] as int);
      assert s == t + [s[|s| - 1]];
    }
  }

  lemma {:induction false} BigZero(s: seq<U8>)
    requires s != [] ==> s[0] > 0
    ensures Big(s) == 0 <==> s == []
    decreases |s|
  {
    if s != [] { BigZero(s[..|s| - 1]); }
  }

  /** A leading zero does not count. */
  lemma {:induction false} BigLeadingZero(s: seq<U8>)
    ensures Big([0] + s) == Big(s)
    decreases |s|
  {
    if s == [] {
      assert [0] + s == [0] && ([0] + s)[..0] == [];
    } else {
      BigLeadingZero(s[..|s| - 1]);
      assert ([0] + s)[..|s|] == [0] + s[..|s| - 1];
    }
  }

  /** The number of bits, as mp_count_bits gives it. */
  function CountBits(n: nat): nat {
    if n == 0 then 0 else 1 + CountBits(n / 2)
  }

  /** Eight bits are a byte, and the top byte has as many bits as are left. */
  lemma {:induction false} BitsOfBytes(n: nat)
    requires n > 0
    ensures |ToBytes(n)| == (CountBits(n) + 7) / 8
    ensures ToBytes(n)[0] >= 0x80 <==> CountBits(n) % 8 == 0
    decreases n
  {
    if n < 0x100 {
      SmallBits(n);
      assert ToBytes(n) == [] + [n as U8] == [n as U8];
    } else {
      BitsOfBytes(n / 0x100);
      EightBits(n);
    }
  }

  lemma SmallBits(n: nat)
    requires 0 < n < 0x100
    ensures 1 <= CountBits(n) <= 8 && (CountBits(n) == 8 <==> n >= 0x80)
  {
    if n >= 0x10 {
      FourBits(n);
      TinyBits(n / 0x10);
    } else {
      TinyBits(n);
    }
  }

  lemma TinyBits(n: nat)
    requires 0 < n < 0x10
    ensures 1 <= CountBits(n) <= 4 && (CountBits(n) == 4 <==> n >= 8)
  {
    var a := n / 2;
    var b := a / 2;
    var c := b / 2;
    assert c / 2 == 0 && CountBits(c) == if c == 0 then 0 else 1;
    assert CountBits(b) == if b == 0 then 0 else 1 + CountBits(c);
    assert CountBits(a) == if a == 0 then 0 else 1 + CountBits(b);
  }

  lemma EightBits(n: nat)
    requires n >= 0x100
    ensures CountBits(n) == 8 + CountBits(n / 0x100)
  {
    FourBits(n);
    FourBits(n / 0x10);
    DivDiv(n, 0x10, 0x10);
  }

  lemma FourBits(n: nat)
    requires n >= 0x10
    ensures CountBits(n) == 4 + CountBits(n / 0x10)
  {
    var a := n / 2; var b := a / 2; var c := b / 2;
    DivDiv(n, 2, 2);
    DivDiv(n, 4, 2);
    DivDiv(n, 8, 2);
    assert CountBits(n) == 1 + CountBits(a) && CountBits(a) == 1 + CountBits(b) && CountBits(b) == 1 + CountBits(c);
  }

  /** The body of an mpint: the bytes of the number, after a zero byte if the top bit would be set. */
  function Body(n: nat): seq<U8> {
    var s := ToBytes(n);
    if s != [] && s[0] >= 0x80 then [0] + s else s
  }

  /** An mpint with its length. */
  function Encode(n: nat): seq<U8>
    requires |Body(n)| < 0x1_0000_0000
  {
    Put32(|Body(n)|) + Body(n)
  }

  /** buf_getmpint on the bytes from the position on: the number and how many bytes it took. It refuses a negative
      number and one that is too long, and the bytes must be there. */
  function Parse(s: seq<U8>): Option<(nat, nat)> {
    if |s| < 4 then None
    else
      var len := Get32(s[..4]);
      if len == 0 then Some((0, 4))
      else if len > BUF_MAX_MPINT || |s| < 4 + 1 || s[4] >= 0x80 || |s| < 4 + len then None
      else Some((Big(s[4..4 + len]), 4 + len))
  }

  predicate TopBitClear(s: seq<U8>) { s == [] || s[0] < 0x80 }

  /** The body stands for the number, its top bit is clear, and no shorter bytes with a clear top bit do. */
  lemma BodyIsMinimal(n: nat, t: seq<U8>)
    ensures Big(Body(n)) == n && TopBitClear(Body(n))
    ensures Big(t) == n && TopBitClear(t) ==> |Body(n)| <= |t|
    ensures Big(t) == n && TopBitClear(t) && |t| == |Body(n)| ==> t == Body(n)
  {
    BigOfBytes(n);
    BigLeadingZero(ToBytes(n));
    if Big(t) == n && TopBitClear(t) {
      if t != [] && t[0] == 0 {
        var u := t[1..];
        assert t == [0] + u;
        BigLeadingZero(u);
        Shorter(u);
      } else {
        BytesOfBig(t);
      }
    }
  }

  /** The bytes of a number are no longer than any bytes for it, and are those if as long. */
  lemma {:induction false} Shorter(u: seq<U8>)
    ensures |ToBytes(Big(u))| <= |u| && (|ToBytes(Big(u))| == |u| ==> ToBytes(Big(u)) == u)
    decreases |u|
  {
    if u != [] && u[0] == 0 {
      Shorter(u[1..]);
      assert u == [0] + u[1..];
      BigLeadingZero(u[1..]);
    } else {
      BytesOfBig(u);
    }
  }

  /** What is printed is parsed back, whatever follows it, exactly when it is short enough. */
  lemma ParseUndoesEncode(n: nat, rest: seq<U8>)
    requires |Body(n)| < 0x1_0000_0000
    ensures Parse(Encode(n) + rest) == if |Body(n)| <= BUF_MAX_MPINT then Some((n, |Encode(n)|)) else None
  {
    var s := Encode(n) + rest;
    assert s[..4] == Put32(|Body(n)|);
    GetPut(|Body(n)|);
    BodyIsMinimal(n, []);
    assert s[4..4 + |Body(n)|] == Body(n);
  }

  // -- Two's complement --

  lemma {:induction false} BigBound(s: seq<U8>)
    ensures Big(s) < Pow2(8 * |s|)
    decreases |s|
  {
    if s != [] {
      BigBound(s[..|s| - 1]);
      Pow2Values();
      Pow2Add(8, 8 * (|s| - 1));
    }
  }

  /** The number that bytes stand for in section 5 of RFC 4251, in two's complement. */
  function Twos(s: seq<U8>): int { Big(s) - if s != [] && s[0] >= 0x80 then Pow2(8 * |s|) else 0 }

  /** The body of a number stands for it. */
  lemma BodyIsTwos(n: nat)
    ensures Twos(Body(n)) == n
  {
    hide Big, ToBytes;
    BodyIsMinimal(n, []);
  }

  /** Bytes are parsed exactly when they are there, are no more than allowed and do not stand for a negative number, and
      then as the number they stand for. */
  lemma ParseExactly(s: seq<U8>)
    ensures Parse(s).Some? <==>
            |s| >= 4 && var len := Big(s[..4]); len <= BUF_MAX_MPINT && 4 + len <= |s| && Twos(s[4..4 + len]) >= 0
    ensures Parse(s).Some? ==>
            var len := Big(s[..4]); 4 + len <= |s| && Parse(s).value == (Twos(s[4..4 + len]), 4 + len)
  {
    hide Big, Get32, Pow2;
    if |s| >= 4 {
      GetIsBig(s[..4]);
      var len := Big(s[..4]);
      if 4 + len <= |s| {
        BigBound(s[4..4 + len]);
        NoBytes(s[4..4 + len]);
      }
    }
  }

  lemma NoBytes(s: seq<U8>)
    ensures s == [] ==> Big(s) == 0
  {
  }
}
