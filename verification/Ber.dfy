/** ASN.1 headers and sequences of integers, as the key converter writes and reads them. */
module Ber {
  import opened Arithmetic
  import opened Bits
  import opened Bytes
  import opened Common
  import opened Mpint
  import opened CircBuffers
  import P = Primes

  const ASN1_CONSTRUCTED: nat := 32
  const ID_INTEGER: nat := 2
  const ID_SEQUENCE: nat := 16

  // -- Headers --

  /** x >> (8 * n). */
  function Shr(x: nat, n: nat): nat
    decreases n, x
  {
    if n == 0 then x else Shr(x / 0x100, n - 1)
  }

  predicate GoodHeader(id: nat, length: nat, flags: nat) {
    id <= 30 && length < 0x100_0000 && flags < 0x100 && flags % 0x20 == 0
  }

  /** The length: one byte if it is below 128, else its bytes after their number. */
  function LengthBytes(length: nat): seq<U8>
    requires length < 0x100_0000
  {
    if length < 128 then [length as U8]
    else
      FewBytes(length);
      [(0x80 + |ToBytes(length)|) as U8] + ToBytes(length)
  }

  /** The identifier with its flags, and the length. */
  function Header(id: nat, length: nat, flags: nat): seq<U8>
    requires GoodHeader(id, length, flags)
  {
    [(id + flags) as U8] + LengthBytes(length)
  }

  lemma FewBytes(n: nat)
    requires n < 0x100_0000
    ensures |ToBytes(n)| <= 3 && (n > 0 ==> |ToBytes(n)| >= 1)
  {
    var a := n / 0x100;
    var b := a / 0x100;
    assert b / 0x100 == 0 && |ToBytes(b)| <= 1;
    assert |ToBytes(a)| <= 1 + |ToBytes(b)|;
  }

  /** Byte k of a number is found by shifting right. */
  lemma {:induction false} ByteAt(n: nat, k: nat)
    requires k < |ToBytes(n)|
    ensures ToBytes(n)[k] as int == Shr(n, |ToBytes(n)| - 1 - k) % 0x100
    decreases n
  {
    if k < |ToBytes(n)| - 1 { ByteAt(n / 0x100, k); }
  }

  /** A number has as many bytes as it takes shifts to lose it. */
  lemma {:induction false} ShiftsToZero(n: nat, k: nat)
    ensures Shr(n, k) == 0 <==> k >= |ToBytes(n)|
    decreases k
  {
    if k > 0 { ShiftsToZero(n / 0x100, k - 1); }
  }

  /** Setting bits that are clear adds them. */
  lemma OrFlags(id: nat, flags: nat)
    requires id <= 30 && flags < 0x100 && flags % 0x20 == 0
    ensures OrW(8, id, flags) == id + flags
  {
    hide OrW;
    assert Pow2(5) == 0x20;
    Pow2Values();
    var k: nat := 5;
    OrDisjoint(8, id, flags, k);
  }

  lemma OrTop(n: nat)
    requires n < 0x80
    ensures OrW(8, n, 0x80) == n + 0x80
  {
    hide OrW;
    assert Pow2(7) == 0x80;
    Pow2Values();
    var k: nat := 7;
    OrDisjoint(8, n, 0x80, k);
  }

  /** The bytes of a multi-byte length, from the top. */
  method WriteLength(dest: array?<U8>, at: nat, length: nat) returns (len: nat)
    requires 128 <= length < 0x100_0000 && (dest != null ==> at + |LengthBytes(length)| <= dest.Length)
    modifies dest
    ensures len == |LengthBytes(length)|
    ensures dest != null ==> dest[at..at + len] == LengthBytes(length)
    ensures dest != null ==> forall i :: 0 <= i < dest.Length && !(at <= i < at + len) ==> dest[i] == old(dest[i])
  {
    hide ToBytes, Shr, OrW;
    FewBytes(length);
    var n := 1;
    ShiftsToZero(length, n);
    while Shr(length, n) > 0
      invariant 1 <= n <= |ToBytes(length)| && (Shr(length, n) == 0 <==> n >= |ToBytes(length)|)
      invariant dest != null ==> dest[..] == old(dest[..])
      decreases 4 - n
    {
      n := n + 1;
      ShiftsToZero(length, n);
    }
    len := 1;
    OrTop(n);
    if dest != null { dest[at] := OrW(8, n, 0x80) as U8; }
    ghost var all := n;
    while n > 0
      invariant 0 <= n <= all == |ToBytes(length)| && len == 1 + (all - n)
      invariant dest != null ==> dest[at..at + len] == LengthBytes(length)[..len]
      invariant dest != null ==>
                forall i :: 0 <= i < dest.Length && !(at <= i < at + 1 + all) ==> dest[i] == old(dest[i])
    {
      n := n - 1;
      ByteAt(length, len - 1);
      if dest != null {
        dest[at + len] := (Shr(length, n) % 0x100) as U8;
        assert dest[at..at + len + 1] == dest[at..at + len] + [dest[at + len]];
      }
      len := len + 1;
    }
    assert LengthBytes(length)[..len] == LengthBytes(length);
  }

  /** ber_write_id_len for one-byte identifiers. Without a destination it only counts. */
  method BerWriteIdLen(dest: array?<U8>, at: nat, id: nat, length: nat, flags: nat) returns (len: nat)
    requires GoodHeader(id, length, flags) && (dest != null ==> at + |Header(id, length, flags)| <= dest.Length)
    modifies dest
    ensures len == |Header(id, length, flags)|
    ensures dest != null ==> dest[at..at + len] == Header(id, length, flags)
    ensures dest != null ==> forall i :: 0 <= i < dest.Length && !(at <= i < at + len) ==> dest[i] == old(dest[i])
  {
    hide ToBytes, OrW, LengthBytes;
    OrFlags(id, flags);
    len := 1;
    if dest != null { dest[at] := OrW(8, id, flags) as U8; }
    var more;
    if length < 128 {
      more := WriteShort(dest, at + 1, length);
    } else {
      more := WriteLength(dest, at + 1, length);
    }
    len := len + more;
    if dest != null { assert dest[at..at + len] == [dest[at]] + dest[at + 1..at + len]; }
  }

  /** A length below 128 in its own byte. */
  method WriteShort(dest: array?<U8>, at: nat, length: nat) returns (len: nat)
    requires length < 128 && (dest != null ==> at + |LengthBytes(length)| <= dest.Length)
    modifies dest
    ensures len == |LengthBytes(length)|
    ensures dest != null ==> dest[at..at + len] == LengthBytes(length)
    ensures dest != null ==> forall i :: 0 <= i < dest.Length && !(at <= i < at + len) ==> dest[i] == old(dest[i])
  {
    len := 1;
    if dest != null { dest[at] := length as U8; }
  }

  datatype Head = Head(id: nat, length: nat, flags: nat, used: nat)

  /** ber_read_id_len: what it reads, or nothing if bytes are missing, the identifier takes more than one byte or the
      length does not fit a signed 32-bit integer. */
  function ReadHeader(s: seq<U8>): Option<Head> {
    if |s| < 2 || s[0] as nat % 0x20 == 31 then None
    else
      var id, flags := s[0] as nat % 0x20, s[0] as nat - s[0] as nat % 0x20;
      if s[1] < 0x80 then Some(Head(id, s[1] as nat, flags, 2))
      else
        var n := s[1] as nat - 0x80;
        if |s| < 2 + n then None
        else
          var length := Big(s[2..2 + n]) % 0x1_0000_0000;
          if length >= 0x8000_0000 then None else Some(Head(id, length, flags, 2 + n))
  }

  method BerReadIdLen(source: seq<U8>) returns (r: Option<Head>)
    ensures r == ReadHeader(source)
  {
    if |source| == 0 { return None; }
    if source[0] as nat % 0x20 == 31 { return None; }
    var flags := source[0] as nat - source[0] as nat % 0x20;
    var id := source[0] as nat % 0x20;
    var p := 1;
    if |source| - p == 0 { return None; }
    var length;
    if source[p] >= 0x80 {
      var n := source[p] as nat - 0x80;
      p := p + 1;
      if |source| - p < n { return None; }
      length := 0;
      ghost var all := n;
      while n > 0
        invariant 0 <= n <= all && p == 2 + (all - n) && length == Big(source[2..p]) % 0x1_0000_0000
      {
        assert source[2..p + 1] == source[2..p] + [source[p]];
        BigNext(source[2..p], source[p]);
        length := (0x100 * length + source[p] as nat) % 0x1_0000_0000;
        p := p + 1;
        n := n - 1;
      }
      if length >= 0x8000_0000 { return None; }
    } else {
      length := source[p] as nat;
      p := p + 1;
    }
    r := Some(Head(id, length, flags, p));
  }

  /** One more byte, modulo 2^32. */
  lemma BigNext(s: seq<U8>, b: U8)
    ensures Big(s + [b]) == 0x100 * Big(s) + b as nat
    ensures (0x100 * (Big(s) % 0x1_0000_0000) + b as nat) % 0x1_0000_0000 == Big(s + [b]) % 0x1_0000_0000
  {
    assert (s + [b])[..|s|] == s;
    var q := Big(s) / 0x1_0000_0000;
    CongruentBy(Big(s + [b]), 0x100 * (Big(s) % 0x1_0000_0000) + b as nat, 0x1_0000_0000, 0x100 * q);
  }

  /** Reading undoes writing, whatever follows. */
  lemma ReadUndoesWrite(id: nat, length: nat, flags: nat, rest: seq<U8>)
    requires GoodHeader(id, length, flags)
    ensures ReadHeader(Header(id, length, flags) + rest) == Some(Head(id, length, flags, |Header(id, length, flags)|))
  {
    hide ToBytes, Big;
    var s := Header(id, length, flags) + rest;
    assert s[0] as nat == id + flags && s[1] == LengthBytes(length)[0];
    FewBytes(length);
    BigOfBytes(length);
    if length >= 128 {
      var n := |ToBytes(length)|;
      assert s[2..2 + n] == ToBytes(length);
    }
  }

  /** The header written is the shortest that reads as it does, and but for the byte 0x80 as a length the only one of
      its size, as the distinguished encoding rules of X.690 demand. */
  lemma HeaderIsShortest(id: nat, length: nat, flags: nat, s: seq<U8>)
    requires GoodHeader(id, length, flags)
    requires var h := ReadHeader(s); h.Some? && h.value.id == id && h.value.length == length && h.value.flags == flags
    ensures var used, header := ReadHeader(s).value.used, Header(id, length, flags);
            |header| <= used <= |s| && (used == |header| && s[1] != 0x80 ==> s[..used] == header)
  {
    hide ToBytes, Big, LengthBytes;
    if s[1] >= 0x80 {
      var n := s[1] as nat - 0x80;
      LengthIsShortest(length, s[2..2 + n]);
      assert s[..2 + n] == [s[0]] + ([s[1]] + s[2..2 + n]);
    } else {
      ShortLength(length);
      assert s[..2] == [s[0], s[1]];
    }
  }

  lemma ShortLength(length: nat)
    requires length < 128
    ensures LengthBytes(length) == [length as U8]
  {
  }

  /** A length in a byte for its size and the bytes t. */
  lemma LengthIsShortest(length: nat, t: seq<U8>)
    requires length < 0x100_0000 && Big(t) % 0x1_0000_0000 == length && |t| < 0x80
    ensures |LengthBytes(length)| <= 1 + |t|
    ensures |LengthBytes(length)| == 1 + |t| && t != [] ==> LengthBytes(length) == [(0x80 + |t|) as U8] + t
  {
    hide ToBytes, Big;
    FewBytes(length);
    if |t| <= 3 {
      ThreeBytes(t);
      Shorter(t);
    }
  }

  lemma ThreeBytes(t: seq<U8>)
    requires |t| <= 3
    ensures Big(t) < 0x100_0000
  {
    if t != [] {
      var u := t[..|t| - 1];
      if u != [] {
        var v := u[..|u| - 1];
        assert Big(v) < 0x100;
      }
    }
  }

  // -- Sequences of integers --

  predicate GoodInts(ns: seq<seq<U8>>) { forall i :: 0 <= i < |ns| ==> |ns[i]| < 0x100_0000 }

  /** One integer with its header, and many. */
  function Int(n: seq<U8>): seq<U8>
    requires |n| < 0x100_0000
  {
    Header(ID_INTEGER, |n|, 0) + n
  }

  function Ints(ns: seq<seq<U8>>): seq<U8>
    requires GoodInts(ns)
  {
    if ns == [] then [] else Int(ns[0]) + Ints(ns[1..])
  }

  /** The ASN.1 form of a key. */
  function Wrapped(ns: seq<seq<U8>>): seq<U8>
    requires GoodInts(ns) && |Ints(ns)| < 0x100_0000
  {
    Header(ID_SEQUENCE, |Ints(ns)|, ASN1_CONSTRUCTED) + Ints(ns)
  }

  lemma {:induction false} IntsNext(ns: seq<seq<U8>>, n: seq<U8>)
    requires GoodInts(ns) && |n| < 0x100_0000
    ensures Ints(ns + [n]) == Ints(ns) + Int(n)
    decreases |ns|
  {
    if ns == [] {
      assert ns + [n] == [n] && [n][1..] == [];
      assert Int(n) + [] == [] + Int(n);
    } else {
      IntsNext(ns[1..], n);
      assert (ns + [n])[1..] == ns[1..] + [n];
      assert Int(ns[0]) + (Ints(ns[1..]) + Int(n)) == Int(ns[0]) + Ints(ns[1..]) + Int(n);
    }
  }

  lemma {:induction false} IntsPrefix(ns: seq<seq<U8>>, i: nat)
    requires GoodInts(ns) && i <= |ns|
    ensures |Ints(ns[..i])| <= |Ints(ns)|
    ensures (i < |ns| ==> Ints(ns[..i + 1]) == Ints(ns[..i]) + Int(ns[i]) && |Ints(ns[..i + 1])| <= |Ints(ns)|)
    decreases |ns| - i
  {
    if i == |ns| {
      assert ns[..i] == ns;
    } else {
      IntsPrefix(ns, i + 1);
      assert ns[..i + 1] == ns[..i] + [ns[i]];
      IntsNext(ns[..i], ns[i]);
    }
  }

  /** The dry run of openssh_write predicts the length. */
  method CountInts(ns: seq<seq<U8>>) returns (len: nat)
    requires GoodInts(ns)
    ensures len == |Ints(ns)|
  {
    hide Ints, Header;
    NoInts(ns);
    len := 0;
    for i := 0 to |ns|
      invariant len == |Ints(ns[..i])|
    {
      IntsPrefix(ns, i);
      var h := BerWriteIdLen(null, 0, ID_INTEGER, |ns[i]|, 0);
      len := len + h;
      len := len + |ns[i]|;
    }
    assert ns[..|ns|] == ns;
  }

  lemma NoInts(ns: seq<seq<U8>>)
    ensures ns[..0] == [] && Ints([]) == []
  {
  }

  /** One integer into the output. */
  method WriteInt(out: array<U8>, pos: nat, n: seq<U8>) returns (next: nat)
    requires |n| < 0x100_0000 && pos + |Int(n)| <= out.Length
    modifies out
    ensures next == pos + |Int(n)| && out[..next] == old(out[..pos]) + Int(n)
  {
    hide Header;
    ghost var was := out[..pos];
    var h := BerWriteIdLen(out, pos, ID_INTEGER, |n|, 0);
    assert out[..pos] == was;
    ghost var head := out[pos..pos + h];
    CopyTo(out, pos + h, n);
    next := pos + h + |n|;
    assert out[..next] == out[..pos] + out[pos..pos + h] + out[pos + h..next];
    assert out[..pos] == was && out[pos..pos + h] == head;
    assert was + head + n == was + (head + n);
  }

  /** The RSA and DSS part of openssh_write: the length is counted first, and what is written has that length. */
  method WriteInts(ns: seq<seq<U8>>) returns (out: array<U8>)
    requires GoodInts(ns) && |Ints(ns)| < 0x100_0000
    ensures fresh(out) && out[..] == Wrapped(ns)
  {
    hide Ints, Header;
    var seqlen := CountInts(ns);
    var h := BerWriteIdLen(null, 0, ID_SEQUENCE, seqlen, ASN1_CONSTRUCTED);
    var len := seqlen + h;
    out := new U8[len](_ => 0);
    var pos := BerWriteIdLen(out, 0, ID_SEQUENCE, seqlen, ASN1_CONSTRUCTED);
    NoInts(ns);
    ghost var head := Header(ID_SEQUENCE, seqlen, ASN1_CONSTRUCTED);
    assert out[..pos] == head + [];
    for i := 0 to |ns|
      invariant pos == h + |Ints(ns[..i])| && pos <= len && out[..pos] == head + Ints(ns[..i])
    {
      IntsPrefix(ns, i);
      ghost var before := Ints(ns[..i]);
      pos := WriteInt(out, pos, ns[i]);
      assert head + before + Int(ns[i]) == head + (before + Int(ns[i]));
    }
    assert ns[..|ns|] == ns;
    assert pos == len;
    assert out[..len] == out[..];
  }

  /** The next integer of a sequence, and how many bytes it takes with its header. */
  function TakeInt(s: seq<U8>): Option<(seq<U8>, nat)> {
    var h := ReadHeader(s);
    if h.None? || h.value.id != ID_INTEGER || |s| - h.value.used < h.value.length then None
    else Some((s[h.value.used..h.value.used + h.value.length], h.value.used + h.value.length))
  }

  function TakeInts(s: seq<U8>, n: nat): Option<seq<seq<U8>>>
    decreases n
  {
    if n == 0 then Some([])
    else
      var first := TakeInt(s);
      if first.None? then None
      else
        var rest := TakeInts(s[first.value.1..], n - 1);
        if rest.None? then None else Some([first.value.0] + rest.value)
  }

  lemma TakeIntOf(n: seq<U8>, rest: seq<U8>)
    requires |n| < 0x100_0000
    ensures TakeInt(Int(n) + rest) == Some((n, |Int(n)|)) && (Int(n) + rest)[|Int(n)|..] == rest
  {
    hide Header, ReadHeader;
    var head := Header(ID_INTEGER, |n|, 0);
    ReadUndoesWrite(ID_INTEGER, |n|, 0, n + rest);
    assert Int(n) + rest == head + (n + rest);
    assert (Int(n) + rest)[|head|..|head| + |n|] == n;
  }

  /** Reading a sequence of integers undoes writing it. */
  lemma {:induction false} TakeIntsOf(ns: seq<seq<U8>>, rest: seq<U8>)
    requires GoodInts(ns)
    ensures TakeInts(Ints(ns) + rest, |ns|) == Some(ns)
    decreases |ns|
  {
    hide Int, TakeInt;
    if ns != [] {
      assert Ints(ns) + rest == Int(ns[0]) + (Ints(ns[1..]) + rest);
      TakeIntOf(ns[0], Ints(ns[1..]) + rest);
      TakeIntsOf(ns[1..], rest);
      assert [ns[0]] + ns[1..] == ns;
    }
  }

  // -- Key blobs --

  const KEYBLOB_SIZE: nat := 3000
  const EXTRABLOB_SIZE: nat := 2000
  /** ssh-rsa and ssh-dss */
  const SSH_RSA: seq<U8> := [115, 115, 104, 45, 114, 115, 97]
  const SSH_DSS: seq<U8> := [115, 115, 104, 45, 100, 115, 115]

  /** What reading integer i of a key adds to its blob; the modulus of an RSA key waits for the exponent. */
  function Piece(rsa: bool, ns: seq<seq<U8>>, i: nat): seq<U8>
    requires i < |ns| && GoodInts(ns)
  {
    if i == 0 then []
    else if !rsa then Str(ns[i])
    else if i == 2 then Str(ns[2]) + Str(ns[1])
    else if 3 <= i <= 5 then Str(ns[i])
    else []
  }

  function Assembled(rsa: bool, ns: seq<seq<U8>>, i: nat): seq<U8>
    requires i <= |ns| && GoodInts(ns)
    decreases i, |ns|
  {
    if i == 0 then Str(if rsa then SSH_RSA else SSH_DSS) else Assembled(rsa, ns, i - 1) + Piece(rsa, ns, i - 1)
  }

  function Count(rsa: bool): nat { if rsa then 9 else 6 }

  /** The integers that a file must hold: a sequence, the version 0 and the numbers of the key. */
  function Numbers(blob: seq<U8>, rsa: bool): Option<seq<seq<U8>>> {
    var h := ReadHeader(blob);
    if h.None? || h.value.id != ID_SEQUENCE || |blob| - h.value.used < h.value.length then None
    else
      var ns := TakeInts(blob[h.value.used..], Count(rsa));
      if ns.None? || |ns.value| != Count(rsa) || ns.value[0] != [0] then None else ns
  }

  /** Integer i of a file goes to its place in the key blob. */
  method Place(rsa: bool, i: nat, bytes: seq<U8>, blobbuf0: seq<U8>, mod0: seq<U8>, ghost done: seq<seq<U8>>)
    returns (blobbuf: seq<U8>, mod: seq<U8>)
    requires |done| == i && GoodInts(done) && |bytes| < 0x100_0000
    requires blobbuf0 == Assembled(rsa, done, i) && (i > 1 && rsa ==> mod0 == done[1])
    ensures GoodInts(done + [bytes]) && blobbuf == Assembled(rsa, done + [bytes], i + 1)
    ensures i > 0 && rsa ==> mod == (done + [bytes])[1]
  {
    hide Assembled, Str;
    AssembledNext(rsa, done, bytes);
    blobbuf, mod := blobbuf0, mod0;
    if i > 0 && rsa {
      if i == 1 {
        mod := bytes;
      } else if 2 <= i <= 5 {
        blobbuf := blobbuf + Str(bytes);
        if i == 2 { blobbuf := blobbuf + Str(mod); }
      }
    } else if i > 0 {
      blobbuf := blobbuf + Str(bytes);
    }
  }

  /** The integer part of openssh_read: the key blob, or nothing on any decoding failure. */
  method OpensshRead(blob: seq<U8>, rsa: bool) returns (r: Option<seq<U8>>)
    requires |blob| < 0x100_0000
    ensures Numbers(blob, rsa).None? ==> r == None
    ensures Numbers(blob, rsa).Some? ==>
              var ns := Numbers(blob, rsa).value;
              && |ns| == Count(rsa) && GoodInts(ns)
              && r == if |Assembled(rsa, ns, |ns|)| <= KEYBLOB_SIZE then Some(Assembled(rsa, ns, |ns|)) else None
  {
    hide ReadHeader, Assembled, TakeInts;
    var head := BerReadIdLen(blob);
    if head.None? || head.value.id != ID_SEQUENCE || |blob| - head.value.used < head.value.length { return None; }
    var p := head.value.used;
    ghost var start := p;
    var n := Count(rsa);
    var blobbuf := Str(if rsa then SSH_RSA else SSH_DSS);
    var mod: seq<U8> := [];
    ghost var done: seq<seq<U8>> := [];
    NoneTaken(blob[start..], n, rsa);
    for i := 0 to n
      invariant |done| == i && GoodInts(done) && 0 <= p <= |blob|
      invariant TakeInts(blob[start..], n) == Put(done, TakeInts(blob[p..], n - i))
      invariant blobbuf == Assembled(rsa, done, i) && (i > 0 ==> done[0] == [0]) && (i > 1 && rsa ==> mod == done[1])
    {
      var h := BerReadIdLen(blob[p..]);
      TakeStep(blob, p, n - i, done);
      if h.None? || h.value.id != ID_INTEGER || |blob| - p - h.value.used < h.value.length { return None; }
      p := p + h.value.used;
      var bytes := blob[p..p + h.value.length];
      if i == 0 && (h.value.length != 1 || blob[p] != 0) {
        assert bytes != [0];
        return None;
      }
      blobbuf, mod := Place(rsa, i, bytes, blobbuf, mod, done);
      done := done + [bytes];
      p := p + h.value.length;
    }
    AllTaken(blob[p..], done);
    r := if |blobbuf| <= KEYBLOB_SIZE then Some(blobbuf) else None;
  }

  lemma AllTaken(s: seq<U8>, done: seq<seq<U8>>)
    ensures Put(done, TakeInts(s, 0)) == Some(done)
  {
    assert done + [] == done;
  }

  lemma NoneTaken(s: seq<U8>, n: nat, rsa: bool)
    ensures Put([], TakeInts(s, n)) == TakeInts(s, n)
    ensures Assembled(rsa, [], 0) == Str(if rsa then SSH_RSA else SSH_DSS)
  {
    if TakeInts(s, n).Some? { assert [] + TakeInts(s, n).value == TakeInts(s, n).value; }
  }

  /** Taking one more integer of a blob, from position p on. */
  lemma TakeStep(blob: seq<U8>, p: nat, n: nat, done: seq<seq<U8>>)
    requires p <= |blob| && n > 0
    ensures var h := ReadHeader(blob[p..]);
            if h.None? || h.value.id != ID_INTEGER ||
                |blob| - p - h.value.used < h.value.length then Put(done, TakeInts(blob[p..], n)) == None
            else var q := p + h.value.used;
                 && q + h.value.length <= |blob|
                 && Put(done, TakeInts(blob[p..], n)) ==
                      Put(done + [blob[q..q + h.value.length]], TakeInts(blob[q + h.value.length..], n - 1))
                 && (TakeInts(blob[p..], n).Some? ==>
                      TakeInts(blob[p..], n).value != [] && TakeInts(blob[p..], n).value[0] ==
                          blob[q..q + h.value.length])
  {
    hide ReadHeader;
    var s, h := blob[p..], ReadHeader(blob[p..]);
    if !(h.None? || h.value.id != ID_INTEGER || |s| - h.value.used < h.value.length) {
      var u := h.value.used;
      var x := s[u..u + h.value.length];
      assert x == blob[p + u..p + u + h.value.length] && s[u + h.value.length..] == blob[p + u + h.value.length..];
      var rest := TakeInts(s[u + h.value.length..], n - 1);
      if rest.Some? { assert done + ([x] + rest.value) == done + [x] + rest.value; }
    }
  }

  lemma {:induction false} AssembledPrefix(rsa: bool, ns: seq<seq<U8>>, x: seq<U8>, i: nat)
    requires i <= |ns| && GoodInts(ns) && |x| < 0x100_0000
    ensures Assembled(rsa, ns + [x], i) == Assembled(rsa, ns, i)
    decreases i
  {
    if i > 0 { AssembledPrefix(rsa, ns, x, i - 1); }
  }

  lemma AssembledNext(rsa: bool, ns: seq<seq<U8>>, x: seq<U8>)
    requires GoodInts(ns) && |x| < 0x100_0000
    ensures Assembled(rsa, ns + [x], |ns| + 1) == Assembled(rsa, ns, |ns|) + Piece(rsa, ns + [x], |ns|)
  {
    AssembledPrefix(rsa, ns, x, |ns|);
  }

  /** Integers already taken, before those still to take. */
  ghost function Put(done: seq<seq<U8>>, rest: Option<seq<seq<U8>>>): Option<seq<seq<U8>>> {
    if rest.None? then None else Some(done + rest.value)
  }

  /** Strings one after another. */
  function Strs(ns: seq<seq<U8>>): seq<U8>
    requires GoodInts(ns)
  {
    if ns == [] then [] else Str(ns[0]) + Strs(ns[1..])
  }

  /** The string at a position: buf_getint, buf_getptr and buf_incrpos; nothing is an exit. */
  function TakeStr(s: seq<U8>): Option<(seq<U8>, nat)> {
    if |s| < 4 || |s| - 4 < Get32(s[..4]) then None else Some((s[4..4 + Get32(s[..4])], 4 + Get32(s[..4])))
  }

  lemma TakeStrOf(n: seq<U8>, rest: seq<U8>)
    requires |n| < 0x1_0000_0000
    ensures TakeStr(Str(n) + rest) == Some((n, |Str(n)|)) && (Str(n) + rest)[|Str(n)|..] == rest
  {
    var s := Str(n) + rest;
    assert s[..4] == Put32(|n|);
    GetPut(|n|);
    assert s[4..4 + |n|] == n;
  }

  /** Takes count strings of a blob behind its first one. */
  method BlobStrings(blob: seq<U8>, count: nat, ghost ns: seq<seq<U8>>, ghost name: seq<U8>)
    returns (ok: bool, out: seq<seq<U8>>)
    requires |name| < 0x1_0000_0000 && GoodInts(ns) && |ns| == count && blob == Str(name) + Strs(ns)
    ensures ok && out == ns
  {
    hide Strs, Str, TakeStr;
    var first := TakeStr(blob);
    TakeStrOf(name, Strs(ns));
    var p := first.value.1;
    ok, out := true, [];
    assert ns[0..] == ns;
    for i := 0 to count
      invariant 0 <= p <= |blob| && out == ns[..i] && blob[p..] == Strs(ns[i..])
    {
      StrsHead(ns, i);
      TakeStrOf(ns[i], Strs(ns[i + 1..]));
      var t := TakeStr(blob[p..]);
      assert blob[p..][t.value.1..] == blob[p + t.value.1..];
      out := out + [t.value.0];
      p := p + t.value.1;
    }
  }

  lemma StrsHead(ns: seq<seq<U8>>, i: nat)
    requires GoodInts(ns) && i < |ns|
    ensures GoodInts(ns[i..]) && GoodInts(ns[i + 1..]) && Strs(ns[i..]) == Str(ns[i]) + Strs(ns[i + 1..])
  {
    assert ns[i..][1..] == ns[i + 1..];
  }

  /** The numbers that openssh_write puts into the file, in the order of the file, from those of the key blob: the
      version, then for RSA the modulus before the exponent and three computed numbers at the end. */
  function FileOrder(rsa: bool, key: seq<seq<U8>>, extra: seq<seq<U8>>): seq<seq<U8>>
    requires |key| == 5
  {
    if rsa then [[0], key[1], key[0], key[2], key[3], key[4]] + extra else [[0]] + key
  }

  /** A key: e, n, d, p, q for RSA and p, q, g, y, x for DSS, printed as a blob. */
  function KeyBlob(rsa: bool, key: seq<seq<U8>>): seq<U8>
    requires |key| == 5 && GoodInts(key)
  {
    Str(if rsa then SSH_RSA else SSH_DSS) + Strs(key)
  }

  /** openssh_write for a key blob; extra is d mod (p-1), d mod (q-1) and 1/q mod p for an RSA key. */
  method OpensshWrite(rsa: bool, blob: seq<U8>, extra: seq<seq<U8>>, ghost key: seq<seq<U8>>)
    returns (ok: bool, out: seq<U8>)
    requires |key| == 5 && GoodInts(key) && GoodInts(extra) && |extra| == (if rsa then 3 else 0)
    requires blob == KeyBlob(rsa, key)
    requires |Ints(FileOrder(rsa, key, extra))| < 0x100_0000
    ensures ok && out == Wrapped(FileOrder(rsa, key, extra))
  {
    hide Strs, Str, Ints, Header;
    var ns;
    ok, ns := BlobStrings(blob, 5, key, if rsa then SSH_RSA else SSH_DSS);
    var numbers := if rsa then [[0], ns[1], ns[0], ns[2], ns[3], ns[4]] + extra else [[0]] + ns;
    var a := WriteInts(numbers);
    out := a[..];
  }

  /** The blob that reading a file gives is the blob it was written from. */
  lemma ReadUndoesFileOrder(rsa: bool, key: seq<seq<U8>>, extra: seq<seq<U8>>)
    requires |key| == 5 && GoodInts(key) && GoodInts(extra) && |extra| == if rsa then 3 else 0
    ensures var ns := FileOrder(rsa, key, extra);
            GoodInts(ns) && |ns| == Count(rsa) && ns[0] == [0] && Assembled(rsa, ns, |ns|) == KeyBlob(rsa, key)
  {
    hide Str;
    var ns := FileOrder(rsa, key, extra);
    var name := Str(if rsa then SSH_RSA else SSH_DSS);
    FiveStrs(key);
    assert Assembled(rsa, ns, 1) == name + [] == name;
    if rsa {
      AssembledRsa(ns);
    } else {
      AssembledDss(ns);
    }
  }

  lemma FiveStrs(k: seq<seq<U8>>)
    requires |k| == 5 && GoodInts(k)
    ensures Strs(k) == Str(k[0]) + Str(k[1]) + Str(k[2]) + Str(k[3]) + Str(k[4])
  {
    hide Str;
    assert k[1..][1..] == k[2..] && k[2..][1..] == k[3..] && k[3..][1..] == k[4..] && k[4..][1..] == [];
    assert Strs(k[4..]) == Str(k[4]) + [] == Str(k[4]);
    assert Strs(k[3..]) == Str(k[3]) + Str(k[4]);
    assert Strs(k[2..]) == Str(k[2]) + Strs(k[3..]);
    assert Strs(k[1..]) == Str(k[1]) + Strs(k[2..]);
  }

  lemma AssembledStep(rsa: bool, ns: seq<seq<U8>>, i: nat, before: seq<U8>, piece: seq<U8>)
    requires i < |ns| && GoodInts(ns) && Assembled(rsa, ns, i) == before && Piece(rsa, ns, i) == piece
    ensures Assembled(rsa, ns, i + 1) == before + piece && before + [] == before
  {
  }

  lemma AssembledDss(ns: seq<seq<U8>>)
    requires |ns| == 6 && GoodInts(ns)
    ensures Assembled(false, ns, 6) == Str(SSH_DSS) + (Str(ns[1]) + Str(ns[2]) + Str(ns[3]) + Str(ns[4]) + Str(ns[5]))
  {
    hide Str, Assembled;
    var a, n1, n2, n3, n4, n5 := Str(SSH_DSS), Str(ns[1]), Str(ns[2]), Str(ns[3]), Str(ns[4]), Str(ns[5]);
    AssembledStart(false, ns);
    AssembledStep(false, ns, 0, a, []);
    AssembledStep(false, ns, 1, a, n1);
    AssembledStep(false, ns, 2, a + n1, n2);
    AssembledStep(false, ns, 3, a + n1 + n2, n3);
    AssembledStep(false, ns, 4, a + n1 + n2 + n3, n4);
    AssembledStep(false, ns, 5, a + n1 + n2 + n3 + n4, n5);
    FromTheLeft(a, n1, n2, n3, n4, n5);
  }

  lemma AssembledStart(rsa: bool, ns: seq<seq<U8>>)
    requires GoodInts(ns)
    ensures Assembled(rsa, ns, 0) == Str(if rsa then SSH_RSA else SSH_DSS)
  {
  }

  lemma FromTheLeft(a: seq<U8>, b: seq<U8>, c: seq<U8>, d: seq<U8>, e: seq<U8>, f: seq<U8>)
    ensures a + b + c + d + e + f == a + (b + c + d + e + f)
  {
    assert a + b + c == a + (b + c);
    assert a + (b + c) + d == a + (b + c + d);
    assert a + (b + c + d) + e == a + (b + c + d + e);
  }

  lemma AssembledRsa(ns: seq<seq<U8>>)
    requires |ns| == 9 && GoodInts(ns)
    ensures Assembled(true, ns, 9) == Str(SSH_RSA) + (Str(ns[2]) + Str(ns[1]) + Str(ns[3]) + Str(ns[4]) + Str(ns[5]))
  {
    hide Str, Assembled;
    var a, n1, n2, n3, n4, n5 := Str(SSH_RSA), Str(ns[1]), Str(ns[2]), Str(ns[3]), Str(ns[4]), Str(ns[5]);
    AssembledStart(true, ns);
    AssembledStep(true, ns, 0, a, []);
    AssembledStep(true, ns, 1, a, []);
    AssembledStep(true, ns, 2, a, n2 + n1);
    assert a + (n2 + n1) == a + n2 + n1;
    AssembledStep(true, ns, 3, a + n2 + n1, n3);
    AssembledStep(true, ns, 4, a + n2 + n1 + n3, n4);
    AssembledStep(true, ns, 5, a + n2 + n1 + n3 + n4, n5);
    var b := a + n2 + n1 + n3 + n4 + n5;
    AssembledStep(true, ns, 6, b, []);
    AssembledStep(true, ns, 7, b, []);
    AssembledStep(true, ns, 8, b, []);
    FromTheLeft(a, n2, n1, n3, n4, n5);
  }

  lemma {:induction false} StrsEach(ns: seq<seq<U8>>, i: nat)
    requires GoodInts(ns) && i < |ns|
    ensures |ns[i]| <= |Strs(ns)|
    decreases |ns|
  {
    if i > 0 { StrsEach(ns[1..], i - 1); }
  }

  lemma {:induction false} IntsBound(ns: seq<seq<U8>>, m: nat)
    requires GoodInts(ns) && forall i :: 0 <= i < |ns| ==> |ns[i]| <= m
    ensures |Ints(ns)| <= (m + 5) * |ns|
    decreases |ns|
  {
    hide Int;
    if ns != [] {
      IntsBound(ns[1..], m);
      IntLength(ns[0]);
      MulAdd(m + 5, |ns| - 1, 1);
    }
  }

  lemma IntLength(n: seq<U8>)
    requires |n| < 0x100_0000
    ensures |Int(n)| <= |n| + 5
  {
    hide ToBytes;
    FewBytes(|n|);
  }

  /** The integers of a key whose blob fits its buffer are few bytes. */
  lemma FileIsShort(rsa: bool, key: seq<seq<U8>>, extra: seq<seq<U8>>)
    requires |key| == 5 && GoodInts(key) && GoodInts(extra) && |extra| == if rsa then 3 else 0
    requires |Strs(key)| <= KEYBLOB_SIZE && |Strs(extra)| <= EXTRABLOB_SIZE
    ensures GoodInts(FileOrder(rsa, key, extra)) && |Ints(FileOrder(rsa, key, extra))| <= (KEYBLOB_SIZE + 5) * 9
  {
    forall i | 0 <= i < |key| ensures |key[i]| <= KEYBLOB_SIZE { StrsEach(key, i); }
    forall i | 0 <= i < |extra| ensures |extra[i]| <= KEYBLOB_SIZE { StrsEach(extra, i); }
    IntsBound(FileOrder(rsa, key, extra), KEYBLOB_SIZE);
  }

  /** A key exported and imported again is the same key. */
  method ExportImport(rsa: bool, key: seq<nat>, extra: seq<nat>) returns (back: Option<seq<U8>>, blob: seq<U8>)
    requires |key| == 5 && (|extra| == if rsa then 3 else 0) && GoodInts(Bodies(key)) && GoodInts(Bodies(extra))
    requires |KeyBlob(rsa, Bodies(key))| <= KEYBLOB_SIZE && |Strs(Bodies(extra))| <= EXTRABLOB_SIZE
    ensures blob == KeyBlob(rsa, Bodies(key)) && back == Some(blob)
  {
    hide Strs, Ints, Header, ReadHeader, TakeInts, Assembled;
    ghost var k, x := Bodies(key), Bodies(extra);
    blob := KeyBlob(rsa, Bodies(key));
    FileIsShort(rsa, k, x);
    ReadUndoesFileOrder(rsa, k, x);
    var ok, out := OpensshWrite(rsa, blob, Bodies(extra), k);
    ghost var ns := FileOrder(rsa, k, x);
    ShortHeader(|Ints(ns)|);
    ReadUndoesWrite(ID_SEQUENCE, |Ints(ns)|, ASN1_CONSTRUCTED, Ints(ns));
    TakeIntsOf(ns, []);
    assert Ints(ns) + [] == Ints(ns);
    assert out[|Header(ID_SEQUENCE, |Ints(ns)|, ASN1_CONSTRUCTED)|..] == Ints(ns);
    back := OpensshRead(out, rsa);
  }

  lemma ShortHeader(n: nat)
    requires n < 0x100_0000
    ensures |Header(ID_SEQUENCE, n, ASN1_CONSTRUCTED)| <= 5
  {
    FewBytes(n);
  }

  // -- What the numbers of a file are to each other --

  /** The last three numbers of an RSA file, as openssh_write computes them. */
  method RsaExtra(d: nat, p: nat, q: nat) returns (dmp1: nat, dmq1: nat, iqmp: nat)
    requires P.IsPrime(p) && P.IsPrime(q) && p != q
    ensures dmp1 == d % (p - 1) && dmq1 == d % (q - 1) && iqmp < p && (iqmp * q) % p == 1
  {
    hide P.InvMod;
    dmp1, dmq1 := d % (p - 1), d % (q - 1);
    iqmp := P.InvMod(q % p, p);
    NotDivided(p, q);
    P.Inverse(q % p, p);
    ModMod(q, p);
    CongruentProduct(iqmp, iqmp, q % p, q, p);
  }

  lemma NotDivided(p: nat, q: nat)
    requires P.IsPrime(p) && P.IsPrime(q) && p != q
    ensures q % p != 0
  {
    if q < p { DivUnique(q, p, 0, q); }
  }

  /** An RSA key: the modulus is the product of two primes, and the exponents undo each other. */
  ghost predicate RsaKey(e: nat, n: nat, d: nat, p: nat, q: nat) {
    P.IsPrime(p) && P.IsPrime(q) && p != q && n == p * q && (e * d) % ((p - 1) * (q - 1)) == 1
  }

  /** The numbers of an RSA file as section A.1.2 of RFC 8017 has them: version, modulus, exponents, primes, the private
      exponent modulo each prime less one, and the inverse of the second prime modulo the first. */
  lemma RsaFile(e: nat, n: nat, d: nat, p: nat, q: nat, dmp1: nat, dmq1: nat, iqmp: nat)
    requires RsaKey(e, n, d, p, q) && dmp1 == d % (p - 1) && dmq1 == d % (q - 1) && (iqmp * q) % p == 1
    ensures var f := FileOrder(true, Bodies([e, n, d, p, q]), Bodies([dmp1, dmq1, iqmp]));
            && |f| == 9 && f[0] == [0] && RsaKey(Big(f[2]), Big(f[1]), Big(f[3]), Big(f[4]), Big(f[5]))
            && Big(f[6]) == Big(f[3]) % (Big(f[4]) - 1) && Big(f[7]) == Big(f[3]) % (Big(f[5]) - 1)
            && (Big(f[8]) * Big(f[5])) % Big(f[4]) == 1
  {
    hide P.IsPrime, Body, Big;
    BodyIsMinimal(e, []);
    BodyIsMinimal(n, []);
    BodyIsMinimal(d, []);
    BodyIsMinimal(p, []);
    BodyIsMinimal(q, []);
    BodyIsMinimal(dmp1, []);
    BodyIsMinimal(dmq1, []);
    BodyIsMinimal(iqmp, []);
  }

  /** The numbers of a DSS file: version, p, q, g, y and x, with g^q = 1 and y = g^x modulo p. */
  lemma DssFile(p: nat, q: nat, g: nat, y: nat, x: nat)
    requires p > 1 && Pow(g, q) % p == 1 && y == Pow(g, x) % p
    ensures var f := FileOrder(false, Bodies([p, q, g, y, x]), []);
            && |f| == 6 && f[0] == [0] && Big(f[1]) > 1 && Pow(Big(f[3]), Big(f[2])) % Big(f[1]) == 1
            && Big(f[4]) == Pow(Big(f[3]), Big(f[5])) % Big(f[1])
  {
    hide Pow, Body, Big;
    BodyIsMinimal(p, []);
    BodyIsMinimal(q, []);
    BodyIsMinimal(g, []);
    BodyIsMinimal(y, []);
    BodyIsMinimal(x, []);
  }

  function Bodies(ns: seq<nat>): seq<seq<U8>> { seq(|ns|, i requires 0 <= i < |ns| => Body(ns[i])) }
}
