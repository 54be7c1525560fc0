/** The byte buffer with a cursor: a position, a used length and a size, kept in order by every operation. */
module Buffers {
  import opened Bits
  import opened Bytes
  import opened Common
  import opened Mpint
  import opened CircBuffers

  const BUF_MAX_INCR: nat := 1_000_000_000
  const BUF_MAX_SIZE: nat := 1_000_000_000
  const MAX_STRING_LEN: nat := 9000

  /** Unsigned 32-bit addition. */
  function Add32(a: nat, b: nat): nat { (a + b) % 0x1_0000_0000 }

  /** An unsigned 32-bit integer passed as a signed one. */
  function AsSigned(n: int): int { if n < 0x8000_0000 then n else n - 0x1_0000_0000 }

  class Buffer {
    var data: array<U8>
    var len: nat
    var pos: nat

    ghost predicate Valid()
      reads this
    {
      pos <= len <= data.Length <= BUF_MAX_SIZE
    }

    /** The bytes in use, and those from the position on. */
    ghost function Used(): seq<U8>
      requires Valid()
      reads this, data
    {
      data[..len]
    }

    ghost function Rest(): seq<U8>
      requires Valid()
      reads this, data
    {
      data[pos..len]
    }

    /** buf_new, for a size it does not refuse. */
    constructor (size: nat)
      requires size <= BUF_MAX_SIZE
      ensures Valid() && fresh(data) && data.Length == size && len == 0 && pos == 0
    {
      data := new U8[size](_ => 0);
      len, pos := 0, 0;
    }

    /** buf_resize; false is the exit on a size that is too big. */
    method Resize(newsize: nat) returns (ok: bool)
      requires Valid()
      modifies this
      ensures Valid() && (ok <==> newsize <= BUF_MAX_SIZE)
      ensures if ok then data.Length == newsize && fresh(data) && len == Min(newsize, old(len))
                  && pos == Min(newsize, old(pos))
                         && Used() == old(Used())[..len]
              else unchanged(this)
    {
      if newsize > BUF_MAX_SIZE { return false; }
      var fresh1 := new U8[newsize](_ => 0);
      var n := Min(newsize, len);
      CopyTo(fresh1, 0, data[..n]);
      data := fresh1;
      len := n;
      pos := Min(newsize, pos);
      ok := true;
    }

    method SetLen(n: nat) returns (ok: bool)
      requires Valid()
      modifies this`len, this`pos
      ensures Valid() && (ok <==> n <= data.Length)
      ensures if ok then len == n && pos == Min(old(pos), n) else unchanged(this)
    {
      if n > data.Length { return false; }
      len := n;
      pos := Min(pos, len);
      ok := true;
    }

    method IncrLen(incr: nat) returns (ok: bool)
      requires Valid()
      modifies this`len
      ensures Valid() && (ok <==> incr <= BUF_MAX_INCR && old(len) + incr <= data.Length)
      ensures len == old(len) + if ok then incr else 0
    {
      if incr > BUF_MAX_INCR || Add32(len, incr) > data.Length { return false; }
      len := len + incr;
      ok := true;
    }

    method SetPos(n: nat) returns (ok: bool)
      requires Valid()
      modifies this`pos
      ensures Valid() && (ok <==> n <= len) && pos == if ok then n else old(pos)
    {
      if n > len { return false; }
      pos := n;
      ok := true;
    }

    /** buf_incrpos; the position may go back. */
    method IncrPos(incr: int) returns (ok: bool)
      requires Valid()
      modifies this`pos
      ensures Valid() && (ok <==> 0 - BUF_MAX_INCR <= incr <= BUF_MAX_INCR && 0 <= old(pos) + incr <= len)
      ensures pos == old(pos) + if ok then incr else 0
    {
      if incr > BUF_MAX_INCR || incr < 0 - BUF_MAX_INCR || (pos + incr) % 0x1_0000_0000 > len || pos + incr < 0 {
        return false;
      }
      pos := pos + incr;
      ok := true;
    }

    method IncrWritePos(incr: nat) returns (ok: bool)
      requires Valid()
      modifies this`pos, this`len
      ensures Valid() && (ok <==> incr <= BUF_MAX_INCR && old(pos) + incr <= data.Length)
      ensures if ok then pos == old(pos) + incr && len == (if old(len) < pos then pos else old(len))
                  else unchanged(this)
    {
      if incr > BUF_MAX_INCR || Add32(pos, incr) > data.Length { return false; }
      pos := pos + incr;
      if pos > len { len := pos; }
      ok := true;
    }

    method GetByte() returns (ok: bool, b: U8)
      requires Valid()
      modifies this`pos
      ensures Valid() && (ok <==> old(pos) < len)
      ensures if ok then b == data[old(pos)] && pos == old(pos) + 1 else pos == old(pos)
    {
      if pos >= len { return false, 0; }
      ok, b := true, data[pos];
      pos := pos + 1;
    }

    /** buf_getptr: the next n bytes, if they are in use. */
    method GetPtr(n: nat) returns (ok: bool, s: seq<U8>)
      requires Valid()
      ensures ok <==> n <= BUF_MAX_INCR && pos + n <= len
      ensures ok ==> s == data[pos..pos + n]
    {
      if n > BUF_MAX_INCR || Add32(pos, n) > len { return false, []; }
      ok, s := true, data[pos..pos + n];
    }

    /** buf_putbytes: buf_getwriteptr, the copy, and buf_incrwritepos. */
    method PutBytes(s: seq<U8>) returns (ok: bool)
      requires Valid()
      modifies this`pos, this`len, data
      ensures Valid() && (ok <==> |s| <= BUF_MAX_INCR && old(pos) + |s| <= data.Length)
      ensures if ok then pos == old(pos) + |s| && len == (if old(len) < pos then pos else old(len))
                  && Written(old(data[..]), data[..], old(pos), s)
              else pos == old(pos) && len == old(len) && data[..] == old(data[..])
    {
      if |s| > BUF_MAX_INCR || Add32(pos, |s|) > data.Length { return false; }
      ghost var was := data[..];
      CopyTo(data, pos, s);
      WrittenAt(was, data[..], pos, s);
      ok := IncrWritePos(|s|);
    }

    method PutByte(b: U8) returns (ok: bool)
      requires Valid()
      modifies this`pos, this`len, data
      ensures Valid() && (ok <==> old(pos) < data.Length)
      ensures if ok then pos == old(pos) + 1 && len == (if old(len) < pos then pos else old(len))
                  && Written(old(data[..]), data[..], old(pos), [b])
              else pos == old(pos) && len == old(len) && data[..] == old(data[..])
    {
      if pos >= len {
        ok := IncrLen(1);
        if !ok { return; }
      }
      ghost var was := data[..];
      data[pos] := b;
      WrittenAt(was, data[..], pos, [b]);
      pos := pos + 1;
      ok := true;
    }

    method GetInt() returns (ok: bool, n: nat)
      requires Valid()
      modifies this`pos
      ensures Valid() && (ok <==> old(pos) + 4 <= len)
      ensures if ok then n == Get32(data[old(pos)..old(pos) + 4]) && pos == old(pos) + 4 else pos == old(pos)
      ensures ok ==> n == Big(data[old(pos)..pos])
    {
      var s;
      n := 0;
      ok, s := GetPtr(4);
      if !ok { return; }
      n := Get32(s);
      GetIsBig(s);
      ok := IncrPos(4);
    }

    method PutInt(n: nat) returns (ok: bool)
      requires Valid() && n < 0x1_0000_0000
      modifies this`pos, this`len, data
      ensures Valid() && (ok <==> old(pos) + 4 <= data.Length)
      ensures if ok then pos == old(pos) + 4 && len == (if old(len) < pos then pos else old(len))
                  && Written(old(data[..]), data[..], old(pos), Put32(n))
              else pos == old(pos) && len == old(len) && data[..] == old(data[..])
      ensures ok ==> Big(data[old(pos)..pos]) == n
    {
      ok := PutBytes(Put32(n));
      PutIsBig(n);
    }

    /** buf_putstring. */
    method PutString(s: seq<U8>) returns (ok: bool)
      requires Valid() && |s| < 0x1_0000_0000
      modifies this`pos, this`len, data
      ensures Valid() && (ok <==> |s| <= BUF_MAX_INCR && old(pos) + 4 + |s| <= data.Length)
      ensures ok ==> pos == old(pos) + 4 + |s| && len == (if old(len) < pos then pos else old(len))
                     && Written(old(data[..]), data[..], old(pos), Put32(|s|) + s)
    {
      ghost var was, at := data[..], pos;
      ok := PutInt(|s|);
      if !ok { return; }
      ghost var mid := data[..];
      ok := PutBytes(s);
      if ok { WrittenOn(was, mid, data[..], at, Put32(|s|), s); }
    }

    /** buf_getstring: a copy of the string with a zero byte after it, and its length. */
    method GetString() returns (ok: bool, ret: seq<U8>, retlen: nat)
      requires Valid()
      modifies this`pos
      ensures Valid()
      ensures ok <==> old(pos) + 4 <= len && Get32(data[old(pos)..old(pos) + 4]) <= MAX_STRING_LEN
                      && old(pos) + 4 + Get32(data[old(pos)..old(pos) + 4]) <= len
      ensures ok ==> retlen == Get32(data[old(pos)..old(pos) + 4]) && pos == old(pos) + 4 + retlen
      ensures ok ==> ret == data[old(pos) + 4..pos] + [0]
    {
      var src;
      ret := [];
      ok, retlen := GetInt();
      if !ok { return; }
      if retlen > MAX_STRING_LEN { return false, [], 0; }
      ok, src := GetPtr(retlen);
      if ok {
        ret := src + [0];
        ok := IncrPos(retlen);
      }
    }

    /** buf_eatstring: the length is taken for a signed integer, so that the position moves on past the string, or
        moves back exactly when the length is 2^32 - 10^9 or more and there is room before it. */
    method EatString() returns (ok: bool)
      requires Valid()
      modifies this`pos
      ensures Valid() && (ok ==> old(pos) + 4 <= len)
      ensures old(pos) + 4 <= len ==>
                var n, at := Get32(data[old(pos)..old(pos) + 4]), old(pos) + 4;
                && (ok <==> if n < 0x8000_0000 then n <= BUF_MAX_INCR && at + n <= len
                            else 0x1_0000_0000 - n <= BUF_MAX_INCR && 0x1_0000_0000 - n <= at)
                && (ok ==> pos == at + AsSigned(n))
                && (ok && pos < at <==> 0x1_0000_0000 - BUF_MAX_INCR <= n && 0x1_0000_0000 - n <= at)
    {
      var n;
      ok, n := GetInt();
      if !ok { return; }
      ok := IncrPos(AsSigned(n));
    }

    /** The padding byte, if any, and the bytes of an mpint. */
    method PutBody(pad: nat, bytes: seq<U8>) returns (ok: bool)
      requires Valid() && pad <= 1
      modifies this`pos, this`len, data
      ensures Valid() && (ok <==> old(pos) + pad + |bytes| <= data.Length)
      ensures ok ==> pos == old(pos) + pad + |bytes| && len == (if old(len) < pos then pos else old(len))
                     && Written(old(data[..]), data[..], old(pos), Padding(pad) + bytes)
    {
      hide Written;
      ghost var was, at := data[..], pos;
      if pad == 1 {
        ok := PutByte(0);
        if !ok { return; }
        ghost var mid := data[..];
        ok := PutBytes(bytes);
        if ok { WrittenOn(was, mid, data[..], at, [0], bytes); }
      } else {
        ok := PutBytes(bytes);
        assert Padding(pad) + bytes == bytes;
      }
    }

    /** buf_putmpint; false is an exit, for a negative number or for want of room. */
    method PutMpint(n: int) returns (ok: bool)
      requires Valid() && (n >= 0 ==> |Body(n)| < 0x1_0000_0000)
      modifies this`pos, this`len, data
      ensures Valid() && (ok <==> n >= 0 && old(pos) + |Encode(n)| <= data.Length)
      ensures ok ==> pos == old(pos) + |Encode(n)| && len == (if old(len) < pos then pos else old(len))
                     && Written(old(data[..]), data[..], old(pos), Encode(n))
    {
      hide ToBytes, Written, Body;
      if n < 0 { return false; }
      ghost var was, at := data[..], pos;
      var length, pad := MpintLength(n);
      ok := PutInt(length);
      if !ok { return; }
      ghost var mid := data[..];
      if length > 0 {
        ok := PutBody(pad, ToBytes(n));
        if ok { WrittenOn(was, mid, data[..], at, Put32(length), Body(n)); }
      } else {
        assert Encode(n) == Put32(length);
      }
    }

    /** buf_getmpint: a number, a refusal, or an exit when the bytes are not there. */
    method GetMpint() returns (r: MpintResult)
      requires Valid()
      modifies this`pos
      ensures Valid()
      ensures Parse(old(Rest())).Some? <==> r.Number?
      ensures r.Number? ==> r.n == Parse(old(Rest())).value.0 && pos == old(pos) + Parse(old(Rest())).value.1
    {
      hide Big, Get32;
      ghost var rest, at := Rest(), pos;
      var ok, length := GetInt();
      if !ok { return Exited; }
      SliceOf(data[..], at, len, 0, 4);
      if length == 0 { return Number(0); }
      if length > BUF_MAX_MPINT { return Refused; }
      var s;
      ok, s := GetPtr(1);
      if !ok { return Exited; }
      assert s[0] == rest[4];
      if s[0] >= 0x80 { return Refused; }
      ok, s := GetPtr(length);
      if !ok { return Exited; }
      SliceOf(data[..], at, len, 4, 4 + length);
      ok := IncrPos(length);
      r := Number(Big(s));
    }
  }

  lemma SliceOf(s: seq<U8>, at: nat, end: nat, i: nat, j: nat)
    requires at + j <= end <= |s| && i <= j
    ensures s[at..end][i..j] == s[at + i..at + j]
  {
    assert forall k :: 0 <= k < j - i ==> s[at..end][i..j][k] == s[at + i..at + j][k];
  }

  function Padding(pad: nat): seq<U8> { if pad == 1 then [0] else [] }

  /** The length and padding that buf_putmpint computes from the number of bits. */
  method MpintLength(n: nat) returns (length: nat, pad: nat)
    ensures pad <= 1 && length == |Body(n)| && Body(n) == Padding(pad) + ToBytes(n) && length == pad + |ToBytes(n)|
  {
    length, pad := 0, 0;
    if n == 0 {
      assert ToBytes(0) == [];
    } else {
      length := CountBits(n);
      pad := if length % 8 == 0 then 1 else 0;
      length := length / 8 + 1;
      BitsOfBytes(n);
      assert [] + ToBytes(n) == ToBytes(n);
    }
  }

  datatype MpintResult = Number(n: nat) | Refused | Exited

  /** now is was but for the bytes s at a position. */
  ghost predicate Written(was: seq<U8>, now: seq<U8>, at: nat, s: seq<U8>) {
    at + |s| <= |was| && now == was[..at] + s + was[at + |s|..]
  }

  lemma WrittenAt(was: seq<U8>, now: seq<U8>, at: nat, s: seq<U8>)
    requires |was| == |now| && at + |s| <= |was| && now[at..at + |s|] == s
    requires forall i :: 0 <= i < |was| && !(at <= i < at + |s|) ==> now[i] == was[i]
    ensures Written(was, now, at, s)
  {
    assert now == now[..at] + now[at..at + |s|] + now[at + |s|..];
    assert now[..at] == was[..at] && now[at + |s|..] == was[at + |s|..];
  }

  /** Writing on from where the last write ended. */
  lemma WrittenOn(was: seq<U8>, mid: seq<U8>, now: seq<U8>, at: nat, s: seq<U8>, t: seq<U8>)
    requires Written(was, mid, at, s) && Written(mid, now, at + |s|, t)
    ensures Written(was, now, at, s + t)
  {
    assert mid[..at + |s|] == was[..at] + s;
    assert mid[at + |s| + |t|..] == was[at + |s| + |t|..];
    assert was[..at] + s + t == was[..at] + (s + t);
  }

  /** A number put into a buffer is got back from the same place, with the position behind it, if it is short enough. */
  method MpintRoundTrip(b: Buffer, n: nat) returns (put: bool, r: MpintResult)
    requires b.Valid() && |Body(n)| < 0x1_0000_0000
    modifies b, b.data
    ensures b.Valid() && (put <==> old(b.pos) + |Encode(n)| <= b.data.Length)
    ensures put ==> (r == Number(n) <==> |Body(n)| <= BUF_MAX_MPINT)
    ensures put && |Body(n)| <= BUF_MAX_MPINT ==> b.pos == old(b.pos) + |Encode(n)|
  {
    hide Body, Encode, Parse, Big;
    ghost var at := b.pos;
    var start := b.pos;
    r := Exited;
    put := b.PutMpint(n);
    if !put { return; }
    var ok := b.SetPos(start);
    assert b.Rest() == Encode(n) + b.data[at + |Encode(n)|..b.len];
    ParseUndoesEncode(n, b.data[at + |Encode(n)|..b.len]);
    r := b.GetMpint();
  }
}
