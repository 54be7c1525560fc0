/** Numbers as big-endian bytes. */
module Bytes {
  import opened Arithmetic
  import opened Bits

  /** The number that bytes represent, the first being the most significant. */
  function Big(s: seq<U8>): nat {
    if s == [] then 0 else 0x100 * Big(s[..|s| - 1]) + s[|s| - 1] as nat
  }

  /** A 32-bit integer as STORE32H writes it. */
  function Put32(n: nat): (s: seq<U8>)
    requires n < 0x1_0000_0000
    ensures |s| == 4
  {
    [(n / 0x100_0000) as U8, (n / 0x1_0000 % 0x100) as U8, (n / 0x100 % 0x100) as U8, (n % 0x100) as U8]
  }

  /** A 32-bit integer as LOAD32H reads it. */
  function Get32(s: seq<U8>): (n: nat)
    requires |s| == 4
    ensures n < 0x1_0000_0000
  {
    0x100_0000 * s[0] as nat + 0x1_0000 * s[1] as nat + 0x100 * s[2] as nat + s[3] as nat
  }

  lemma GetPut(n: nat)
    requires n < 0x1_0000_0000
    ensures Get32(Put32(n)) == n
  {
    DivDiv(n, 0x100, 0x100);
    DivDiv(n, 0x100, 0x1_0000);
    DivDiv(n / 0x100, 0x100, 0x100);
  }

  /** LOAD32H reads the most significant byte first. */
  lemma GetIsBig(s: seq<U8>)
    requires |s| == 4
    ensures Get32(s) == Big(s)
  {
    var a, b, c := s[..1], s[..2], s[..3];
    assert c[..2] == b && b[..1] == a && a[..0] == [];
    assert Big(a) == s[0] as nat && Big(b) == 0x100 * Big(a) + s[1] as nat;
    assert Big(c) == 0x100 * Big(b) + s[2] as nat;
  }

  /** STORE32H writes the most significant byte first. */
  lemma PutIsBig(n: nat)
    requires n < 0x1_0000_0000
    ensures Big(Put32(n)) == n
  {
    GetPut(n);
    GetIsBig(Put32(n));
  }

  /** Numbers of one length are in the order of their first bytes that differ. */
  lemma {:induction false} BigOrders(s: seq<U8>, t: seq<U8>, i: nat)
    requires |s| == |t| && i < |s| && s[..i] == t[..i] && s[i] < t[i]
    ensures Big(s) < Big(t)
    decreases |s|
  {
    var n := |s| - 1;
    assert s[..n][..i] == s[..i] && t[..n][..i] == t[..i];
    if i < n { BigOrders(s[..n], t[..n], i); }
  }

  /** A string with its length. */
  function Str(s: seq<U8>): seq<U8>
    requires |s| < 0x1_0000_0000
  {
    Put32(|s|) + s
  }
}
