/** The ring buffer that holds data on its way to a descriptor, as a refinement of a byte sequence. */
module CircBuffers {
  import opened Arithmetic
  import opened Bits

  const MAX_CBUF_SIZE: nat := 100_000_000

  /** n bytes of a ring from pos on: what lies up to the end, then what lies at the start. */
  ghost function Ring(s: seq<U8>, pos: nat, n: nat): (r: seq<U8>)
    requires pos < |s| && n <= |s|
    ensures |r| == n
  {
    if pos + n <= |s| then s[pos..pos + n] else s[pos..] + s[..pos + n - |s|]
  }

  /** Stepping once round a ring of the given size. */
  lemma Around(a: nat, size: nat)
    requires size > 0 && a < 2 * size
    ensures a % size == if a < size then a else a - size
  {
    if a < size { DivUnique(a, size, 0, a); } else { DivUnique(a, size, 1, a - size); }
  }

  /** Byte i of a ring is i places on from pos, modulo the size. */
  lemma RingAt(s: seq<U8>, pos: nat, n: nat, i: nat)
    requires pos < |s| && i < n <= |s|
    ensures Ring(s, pos, n)[i] == s[(pos + i) % |s|]
  {
    Around(pos + i, |s|);
  }

  /** The positions of the ring as cbuf_writelen asserts them, in unsigned arithmetic. */
  ghost predicate Placed(size: nat, used: nat, readpos: nat, writepos: nat) {
    && 0 < size && used <= size && readpos < size && writepos < size
    && writepos == (if readpos + used < size then readpos + used else readpos + used - size)
  }

  lemma PositionsAgree(size: nat, used: nat, readpos: nat, writepos: nat)
    requires Placed(size, used, readpos, writepos)
    ensures (2 * size + writepos - readpos) % size == used % size
    ensures (2 * size + readpos - writepos) % size == (size - used) % size
  {
    var wrap := if readpos + used < size then 0 else 1;
    Cycles(2 * size + writepos - readpos, used, 2 - wrap, size);
    Cycles(2 * size + readpos - writepos, size - used, 1 + wrap, size);
  }

  lemma Cycles(a: int, b: int, k: int, size: int)
    requires size > 0 && a == b + k * size
    ensures a % size == b % size
  {
    CongruentBy(a, b, size, k);
  }

  /** memcpy into an array. */
  method CopyTo(a: array<U8>, at: nat, src: seq<U8>)
    requires at + |src| <= a.Length
    modifies a
    ensures a[at..at + |src|] == src
    ensures forall i :: 0 <= i < a.Length && !(at <= i < at + |src|) ==> a[i] == old(a[i])
  {
    for k := 0 to |src|
      invariant a[at..at + k] == src[..k]
      invariant forall i :: 0 <= i < a.Length && !(at <= i < at + |src|) ==> a[i] == old(a[i])
    {
      a[at + k] := src[k];
      assert a[at..at + k + 1] == a[at..at + k] + [src[k]];
    }
  }

  class CircBuffer {
    const size: nat
    var data: array?<U8>
    var used: nat
    var readpos: nat
    var writepos: nat

    ghost predicate Valid()
      reads this
    {
      && Placed(size, used, readpos, writepos)
      && (data != null ==> data.Length == size)
      && (data == null ==> used == 0)
    }

    ghost function Contents(): (s: seq<U8>)
      requires Valid()
      reads this, data
      ensures |s| == used
    {
      if data == null then [] else Ring(data[..], readpos, used)
    }

    /** cbuf_new, for a size it does not refuse; data is allocated on the first write. */
    constructor (size: nat)
      requires 0 < size <= MAX_CBUF_SIZE
      ensures Valid() && this.size == size && data == null && Contents() == []
    {
      this.size := size;
      data := null;
      used, readpos, writepos := 0, 0, 0;
    }

    function Avail(): nat
      requires Valid()
      reads this
    {
      size - used
    }

    /** How much fits without wrapping: nothing exactly when the buffer is full. */
    method WriteLen() returns (n: nat)
      requires Valid()
      ensures n == Room() && (n == 0 <==> used == size)
      ensures n <= size - used && writepos + n <= size
      ensures n == size - used || writepos + n == size
    {
      assert used <= size;
      PositionsAgree(size, used, readpos, writepos);
      assert (2 * size + writepos - readpos) % size == used % size;
      assert (2 * size + readpos - writepos) % size == (size - used) % size;
      if used == size { return 0; }
      if writepos < readpos { return readpos - writepos; }
      return size - writepos;
    }

    /** The contents in one or two pieces: len1 bytes from readpos, then len2 bytes from the start. */
    method ReadPtrs() returns (len1: nat, len2: nat)
      requires Valid()
      ensures readpos + len1 <= size && len1 + len2 == used && len2 <= readpos
      ensures data != null ==> data[readpos..readpos + len1] + data[..len2] == Contents()
    {
      len1 := if used < size - readpos then used else size - readpos;
      len2 := if len1 < used then used - len1 else 0;
    }

    /** The bytes that fit without wrapping. */
    ghost function Room(): (n: nat)
      requires Valid()
      reads this
      ensures n == 0 <==> used == size
    {
      if used == size then 0 else if writepos < readpos then readpos - writepos else size - writepos
    }

    /** cbuf_writeptr: refuses more than fits, and allocates the memory on the first use. */
    method WritePtr(len: nat) returns (ok: bool)
      requires Valid()
      modifies this`data
      ensures Valid() && Contents() == old(Contents())
      ensures ok <==> len <= Room()
      ensures if ok then data != null && (data == old(data) || (old(data) == null && fresh(data)))
                  else data == old(data)
    {
      var room := WriteLen();
      ok := len <= room;
      if ok && data == null {
        data := new U8[size](_ => 0);
      }
    }

    /** cbuf_incrwrite: the bytes placed behind the contents become part of them. */
    method IncrWrite(len: nat) returns (ok: bool)
      requires Valid() && data != null
      modifies this`used, this`writepos
      ensures Valid()
      ensures ok <==> len <= old(Room())
      ensures if ok then Contents() == old(Contents()) + data[old(writepos)..old(writepos) + len]
                  && used == old(used) + len
              else unchanged(this)
    {
      hide Ring;
      var room := WriteLen();
      if len > room { return false; }
      RingGrows(data[..], readpos, used, writepos, len);
      used := used + len;
      Around(writepos + len, size);
      writepos := (writepos + len) % size;
      ok := true;
    }

    /** One round of the copy loop: get the pointer, copy, advance. */
    method Put(src: seq<U8>)
      requires Valid() && |src| <= Room()
      modifies this, data
      ensures Valid() && Contents() == old(Contents()) + src
      ensures data != null && (data == old(data) || fresh(data)) && used == old(used) + |src|
      ensures |src| == old(Room()) ==> Room() == size - used
    {
      hide Ring;
      var ok := WritePtr(|src|);
      ghost var before := data[..];
      CopyTo(data, writepos, src);
      RingFrame(before, data[..], readpos, used, writepos, |src|);
      ok := IncrWrite(|src|);
    }

    /** cbuf_incrread. */
    method IncrRead(len: nat)
      requires Valid() && len <= used
      modifies this
      ensures Valid() && data == old(data)
      ensures Contents() == old(Contents())[len..] && used == old(used) - len
    {
      hide Ring;
      Around(readpos + len, size);
      var next := (readpos + len) % size;
      if data != null { RingShrinks(data[..], readpos, used, len, next); }
      used := used - len;
      readpos := next;
    }
  }

  /** The copy loop of common_recv_msg_channel_data: data that fits goes in within two rounds. */
  method CopyIn(cbuf: CircBuffer, src: seq<U8>) returns (rounds: nat)
    requires cbuf.Valid() && |src| <= cbuf.Avail()
    modifies cbuf, cbuf.data
    ensures cbuf.Valid() && cbuf.Contents() == old(cbuf.Contents()) + src && rounds <= 2
    ensures cbuf.data == old(cbuf.data) || fresh(cbuf.data)
  {
    hide Ring, Placed;
    rounds := 0;
    var i := 0;
    ghost var was := cbuf.Contents();
    while i < |src|
      invariant cbuf.Valid() && 0 <= i <= |src| && cbuf.used + (|src| - i) <= cbuf.size
      invariant cbuf.Contents() == was + src[..i]
      invariant cbuf.data == old(cbuf.data) || fresh(cbuf.data)
      invariant rounds == 0 || i == |src| || (rounds == 1 && cbuf.Room() >= |src| - i)
      invariant rounds <= 2
      decreases |src| - i
    {
      var n := cbuf.WriteLen();
      if n > |src| - i { n := |src| - i; }
      cbuf.Put(src[i..i + n]);
      NextPiece(was, src, i, n);
      i := i + n;
      rounds := rounds + 1;
    }
    assert src[..i] == src;
  }

  lemma NextPiece(was: seq<U8>, src: seq<U8>, i: nat, n: nat)
    requires i + n <= |src|
    ensures was + src[..i] + src[i..i + n] == was + src[..i + n]
  {
  }

  /** Writing behind the contents does not touch them. */
  lemma RingFrame(s: seq<U8>, t: seq<U8>, readpos: nat, used: nat, writepos: nat, len: nat)
    requires |s| == |t| && Placed(|s|, used, readpos, writepos) && used + len <= |s| && writepos + len <= |s|
    requires forall i :: 0 <= i < |s| && !(writepos <= i < writepos + len) ==> t[i] == s[i]
    ensures Ring(t, readpos, used) == Ring(s, readpos, used)
  {
  }

  /** The bytes behind the contents follow them round the ring. */
  lemma RingGrows(s: seq<U8>, readpos: nat, used: nat, writepos: nat, len: nat)
    requires Placed(|s|, used, readpos, writepos) && used + len <= |s| && writepos + len <= |s|
    ensures Ring(s, readpos, used + len) == Ring(s, readpos, used) + s[writepos..writepos + len]
  {
  }

  /** Reading from the front leaves the rest, from the new position q on. */
  lemma RingShrinks(s: seq<U8>, pos: nat, n: nat, len: nat, q: nat)
    requires pos < |s| && len <= n <= |s| && q == if pos + len < |s| then pos + len else pos + len - |s|
    ensures Ring(s, pos, n)[len..] == Ring(s, q, n - len)
  {
  }
}
