/** DSS signatures, FIPS 186: what buf_put_dss_sign writes and when buf_dss_verify accepts it. The hash of the data is
    any twenty bytes. */
module Dss {
  import opened Arithmetic
  import opened Bits
  import opened Bytes
  import opened Mpint
  import opened Primes

  const SHA1_HASH_SIZE: nat := 20

  // -- Signing and verifying --

  datatype Key = Key(p: nat, q: nat, g: nat, x: nat, y: nat)

  /** A key as it is generated: q prime and of at most 160 bits, g of order q modulo p, and y = g^x mod p. */
  ghost predicate GoodKey(k: Key) {
    && k.p > 1 && IsPrime(k.q) && CountBits(k.q) <= 8 * SHA1_HASH_SIZE
    && Pow(k.g, k.q) % k.p == 1 && k.y == Pow(k.g, k.x) % k.p
  }

  /** r and s of FIPS 186 for the hash m and the random number k. */
  function R(key: Key, k: nat): nat
    requires key.p > 0 && key.q > 0
  {
    Pow(key.g, k) % key.p % key.q
  }

  function S(key: Key, k: nat, m: nat): nat
    requires key.p > 0 && key.q > 0
  {
    (InvMod(k, key.q) * ((m + key.x * R(key, k)) % key.q)) % key.q
  }

  /** A number in twenty bytes, with leading zeros. */
  function Padded(n: nat): seq<U8>
    requires |ToBytes(n)| <= SHA1_HASH_SIZE
  {
    seq(SHA1_HASH_SIZE - |ToBytes(n)|, _ => 0) + ToBytes(n)
  }

  lemma PaddedIs(n: nat)
    requires |ToBytes(n)| <= SHA1_HASH_SIZE
    ensures |Padded(n)| == SHA1_HASH_SIZE && Big(Padded(n)) == n
  {
    BigOfBytes(n);
    LeadingZeros(SHA1_HASH_SIZE - |ToBytes(n)|, ToBytes(n));
  }

  lemma {:induction false} LeadingZeros(z: nat, s: seq<U8>)
    ensures Big(seq(z, _ => 0) + s) == Big(s)
    decreases z
  {
    if z == 0 {
      assert seq(z, _ => 0 as U8) + s == s;
    } else {
      LeadingZeros(z - 1, s);
      assert seq(z, _ => 0 as U8) + s == [0] + (seq(z - 1, _ => 0 as U8) + s);
      BigLeadingZero(seq(z - 1, _ => 0 as U8) + s);
    }
  }

  /** Numbers below q fit twenty bytes. */
  lemma {:induction false} FewerBits(n: nat, q: nat)
    requires n < q
    ensures CountBits(n) <= CountBits(q)
    decreases q
  {
    if n > 0 { if n / 2 < q / 2 { FewerBits(n / 2, q / 2); } }
  }

  lemma Fits(n: nat, key: Key)
    requires GoodKey(key) && n < key.q
    ensures |ToBytes(n)| <= SHA1_HASH_SIZE
  {
    FewerBits(n, key.q);
    if n > 0 { BitsOfBytes(n); }
  }

  /** One number of a signature, padded byte by byte. */
  method PutPadded(buf: seq<U8>, n: nat) returns (out: seq<U8>)
    requires |ToBytes(n)| <= SHA1_HASH_SIZE
    ensures out == buf + Padded(n)
  {
    var writelen := |ToBytes(n)|;
    out := buf;
    for i := 0 to SHA1_HASH_SIZE - writelen
      invariant out == buf + seq(i, _ => 0)
    {
      out := out + [0];
    }
    out := out + ToBytes(n);
  }

  /** buf_put_dss_sign: the forty bytes of the signature, for the hash of the data and a random k. */
  method DssSign(key: Key, msghash: seq<U8>, k: nat) returns (sig: seq<U8>)
    requires GoodKey(key) && |msghash| == SHA1_HASH_SIZE && 0 < k < key.q
    ensures |ToBytes(R(key, k))| <= SHA1_HASH_SIZE && |ToBytes(S(key, k, Big(msghash)))| <= SHA1_HASH_SIZE
    ensures sig == Padded(R(key, k)) + Padded(S(key, k, Big(msghash)))
  {
    hide Pow, ToBytes, InvMod, Padded;
    var m := Big(msghash);
    var temp1 := Pow(key.g, k) % key.p;
    var r := temp1 % key.q;
    temp1 := (r * key.x) % key.q;
    var temp2 := (m + temp1) % key.q;
    temp1 := InvMod(k, key.q);
    var s := (temp1 * temp2) % key.q;
    SameSum(m, key.x, r, key.q);
    Fits(r, key);
    Fits(s, key);
    sig := PutPadded([], r);
    sig := PutPadded(sig, s);
    assert [] + Padded(r) == Padded(r);
  }

  lemma SameSum(m: int, x: int, r: int, q: int)
    requires q > 0
    ensures (m + (r * x) % q) % q == (m + x * r) % q
  {
    ModMod(r * x, q);
    CongruentSum(m, m, (r * x) % q, x * r, q);
  }

  /** When buf_dss_verify accepts a signature. */
  function Accepts(key: Key, sig: seq<U8>, m: nat): bool
    requires key.p > 0 && key.q > 0
  {
    |sig| == 2 * SHA1_HASH_SIZE &&
    var r, s := Big(sig[..SHA1_HASH_SIZE]), Big(sig[SHA1_HASH_SIZE..]);
    && 0 < s < key.q && 0 < r < key.q
    && V(key, r, InvMod(s, key.q), m) == r
  }

  /** v of FIPS 186: g^(mw) y^(rw) mod p mod q. */
  function V(key: Key, r: nat, w: nat, m: nat): nat
    requires key.p > 0 && key.q > 0
  {
    ((Pow(key.g, (m * w) % key.q) % key.p) * (Pow(key.y, (r * w) % key.q) % key.p)) % key.p % key.q
  }

  /** buf_dss_verify, from the signature string on. */
  method DssVerify(key: Key, sig: seq<U8>, msghash: seq<U8>) returns (ok: bool)
    requires key.p > 0 && key.q > 0
    ensures ok == Accepts(key, sig, Big(msghash)) && (GoodKey(key) ==> ok == Genuine(key, sig, Big(msghash)))
  {
    hide Pow, InvMod, GoodKey, Genuine;
    if GoodKey(key) { OnlySigned(key, sig, Big(msghash)); }
    if |sig| != 2 * SHA1_HASH_SIZE { return false; }
    var val1 := Big(sig[SHA1_HASH_SIZE..]);
    if !(val1 < key.q) { return false; }
    if !(val1 > 0) { return false; }
    var val2 := InvMod(val1, key.q);
    val1 := Big(msghash);
    var val3 := (val1 * val2) % key.q;
    val1 := Big(sig[..SHA1_HASH_SIZE]);
    if !(val1 < key.q) { return false; }
    if !(val1 > 0) { return false; }
    var val4 := (val1 * val2) % key.q;
    val2 := Pow(key.g, val3) % key.p;
    val3 := Pow(key.y, val4) % key.p;
    val4 := (val2 * val3) % key.p;
    val2 := val4 % key.q;
    ok := val2 == val1;
  }

  // -- Agreement --

  /** Powers of an element of order q repeat. */
  lemma PowPeriod(g: int, q: nat, p: int, a: nat)
    requires p > 1 && q > 0 && Pow(g, q) % p == 1
    ensures Pow(g, a) % p == Pow(g, a % q) % p
  {
    hide Pow;
    var n, r := a / q, a % q;
    assert a == q * n + r;
    PowAdd(g, q * n, r);
    PowMul(g, q, n);
    DivUnique(1, p, 0, 1);
    PowCongruent(Pow(g, q), 1, n, p);
    PowOne(n);
    CongruentProduct(Pow(g, q * n), 1, Pow(g, r), Pow(g, r), p);
  }

  /** k s = m + x r makes the exponents of verification add up to k. */
  lemma ExponentsMeet(m: nat, x: nat, r: nat, k: nat, s: nat, w: nat, q: nat)
    requires q > 1 && k < q && (s * w) % q == 1 && (k * s) % q == (m + x * r) % q
    ensures ((m * w) % q + x * ((r * w) % q)) % q == k
  {
    CongruentProduct(k * s, m + x * r, w, w, q);
    assert k * s * w == k * (s * w);
    DivUnique(1, q, 0, 1);
    CongruentProduct(k, k, s * w, 1, q);
    DivUnique(k, q, 0, k);
    SumOfProducts(m, x, r, w, q);
  }

  /** k s = k k^-1 z = z. */
  lemma KTimesS(z: nat, k: nat, ki: nat, s: nat, q: nat)
    requires q > 1 && (k * ki) % q == 1 && s == (ki * (z % q)) % q
    ensures (k * s) % q == z % q
  {
    ModMod(z, q);
    ModMod(ki * (z % q), q);
    CongruentProduct(ki, ki, z % q, z, q);
    CongruentProduct(k, k, s, ki * z, q);
    assert k * (ki * z) == (k * ki) * z;
    DivUnique(1, q, 0, 1);
    CongruentProduct(k * ki, 1, z, z, q);
  }

  /** (m + x r) w = m w + x (r w). */
  lemma SumOfProducts(m: nat, x: nat, r: nat, w: nat, q: nat)
    requires q > 0
    ensures ((m * w) % q + x * ((r * w) % q)) % q == ((m + x * r) * w) % q
  {
    AddMulMul(m, x, r, w);
    ModMod(m * w, q);
    ModMod(r * w, q);
    CongruentProduct(x, x, (r * w) % q, r * w, q);
    CongruentSum((m * w) % q, m * w, x * ((r * w) % q), x * (r * w), q);
  }

  /** g^a y^b is g^(a + x b). */
  lemma PowersCombine(g: nat, x: nat, a: nat, b: nat, p: int)
    requires p > 0
    ensures ((Pow(g, a) % p) * (Pow(Pow(g, x) % p, b) % p)) % p == Pow(g, a + x * b) % p
  {
    hide Pow;
    ModMod(Pow(g, x), p);
    PowCongruent(Pow(g, x) % p, Pow(g, x), b, p);
    PowMul(g, x, b);
    PowAdd(g, a, x * b);
    ModMod(Pow(g, a), p);
    ModMod(Pow(Pow(g, x) % p, b), p);
    CongruentProduct(Pow(g, a) % p, Pow(g, a), Pow(Pow(g, x) % p, b) % p, Pow(g, x * b), p);
  }

  /** The number that verification computes is the r of the k for which k s = m + x r. */
  lemma VIsFor(key: Key, r: nat, s: nat, m: nat, k: nat)
    requires GoodKey(key) && 0 < s < key.q && k < key.q && (k * s) % key.q == (m + key.x * r) % key.q
    ensures V(key, r, InvMod(s, key.q), m) == R(key, k)
  {
    hide Pow, InvMod;
    var q, w := key.q, InvMod(s, key.q);
    Inverse(s, q);
    ExponentsMeet(m, key.x, r, k, s, w, q);
    var u1, u2 := (m * w) % q, (r * w) % q;
    PowersCombine(key.g, key.x, u1, u2, key.p);
    PowPeriod(key.g, q, key.p, u1 + key.x * u2);
  }

  /** s is zero exactly when the hash and the private key make it so. */
  lemma WhenZero(key: Key, k: nat, m: nat)
    requires GoodKey(key) && 0 < k < key.q
    ensures S(key, k, m) == 0 <==> (m + key.x * R(key, k)) % key.q == 0
  {
    hide R, InvMod;
    var q, z := key.q, m + key.x * R(key, k);
    Inverse(k, q);
    KTimesS(z, k, InvMod(k, q), S(key, k, m), q);
    DivUnique(0, q, 0, 0);
  }

  /** Every signature is accepted on the same data exactly when g^k mod p mod q and m + x r are not zero modulo q, that
      is when neither of its numbers is zero. */
  lemma SignatureAccepted(key: Key, k: nat, m: nat)
    requires GoodKey(key) && 0 < k < key.q
    ensures |ToBytes(R(key, k))| <= SHA1_HASH_SIZE && |ToBytes(S(key, k, m))| <= SHA1_HASH_SIZE
    ensures Accepts(key, Padded(R(key, k)) + Padded(S(key, k, m)), m) <==>
            R(key, k) != 0 && (m + key.x * R(key, k)) % key.q != 0
  {
    hide Pow, ToBytes, InvMod, Padded, Big;
    var r, s := R(key, k), S(key, k, m);
    Fits(r, key);
    Fits(s, key);
    PaddedIs(r);
    PaddedIs(s);
    var sig := Padded(r) + Padded(s);
    assert sig[..SHA1_HASH_SIZE] == Padded(r) && sig[SHA1_HASH_SIZE..] == Padded(s);
    WhenZero(key, k, m);
    if r != 0 && s != 0 { VIsR(key, k, m); }
  }

  lemma VIsR(key: Key, k: nat, m: nat)
    requires GoodKey(key) && 0 < k < key.q && S(key, k, m) != 0
    ensures V(key, R(key, k), InvMod(S(key, k, m), key.q), m) == R(key, k)
  {
    hide Pow, InvMod;
    Inverse(k, key.q);
    KTimesS(m + key.x * R(key, k), k, InvMod(k, key.q), S(key, k, m), key.q);
    VIsFor(key, R(key, k), S(key, k, m), m, k);
  }

  /** Any forty bytes with numbers r and s in range are accepted exactly when r is the one of the k for which
      k s = m + x r. */
  lemma AcceptedFor(key: Key, sig: seq<U8>, m: nat, k: nat)
    requires GoodKey(key) && |sig| == 2 * SHA1_HASH_SIZE && k < key.q
    requires var r, s := Big(sig[..SHA1_HASH_SIZE]), Big(sig[SHA1_HASH_SIZE..]);
             0 < r < key.q && 0 < s < key.q && (k * s) % key.q == (m + key.x * r) % key.q
    ensures Accepts(key, sig, m) <==> R(key, k) == Big(sig[..SHA1_HASH_SIZE])
  {
    hide V, InvMod, Big, R;
    VIsFor(key, Big(sig[..SHA1_HASH_SIZE]), Big(sig[SHA1_HASH_SIZE..]), m, k);
  }

  /** The only k that can have led to r and s. */
  function Unsign(key: Key, r: nat, s: nat, m: nat): nat
    requires key.q > 0
  {
    (InvMod(s, key.q) * ((m + key.x * r) % key.q)) % key.q
  }

  lemma UnsignIs(key: Key, r: nat, s: nat, m: nat)
    requires GoodKey(key) && 0 < s < key.q
    ensures Unsign(key, r, s, m) < key.q && (Unsign(key, r, s, m) * s) % key.q == (m + key.x * r) % key.q
  {
    hide InvMod;
    Inverse(s, key.q);
    KTimesS(m + key.x * r, s, InvMod(s, key.q), Unsign(key, r, s, m), key.q);
  }

  /** k s = m + x r says that s is the one of k. */
  lemma SignedIs(key: Key, k: nat, s: nat, m: nat)
    requires GoodKey(key) && 0 < k < key.q && s < key.q
    ensures (k * s) % key.q == (m + key.x * R(key, k)) % key.q <==> s == S(key, k, m)
  {
    hide R, InvMod;
    var q, ki, z := key.q, InvMod(k, key.q), m + key.x * R(key, k);
    Inverse(k, q);
    KTimesS(z, k, ki, S(key, k, m), q);
    DivUnique(s, q, 0, s);
    KTimesS(s, ki, k, (k * (s % q)) % q, q);
  }

  ghost predicate SignedWith(key: Key, k: nat, r: nat, s: nat, m: nat)
    requires key.p > 0 && key.q > 0
  {
    0 < k < key.q && r == R(key, k) && s == S(key, k, m)
  }

  /** Forty bytes, with numbers in range that are what signing gives for some random number, or with r as 1 and a hash
      that cancels the private key, which is what a random number of zero would give. */
  ghost predicate Genuine(key: Key, sig: seq<U8>, m: nat)
    requires key.p > 0 && key.q > 0
  {
    |sig| == 2 * SHA1_HASH_SIZE &&
    var r, s := Big(sig[..SHA1_HASH_SIZE]), Big(sig[SHA1_HASH_SIZE..]);
    && 0 < r < key.q && 0 < s < key.q
    && ((exists k :: SignedWith(key, k, r, s, m)) || (r == 1 && (m + key.x) % key.q == 0))
  }

  /** Nothing else is accepted. */
  lemma OnlySigned(key: Key, sig: seq<U8>, m: nat)
    requires GoodKey(key)
    ensures Accepts(key, sig, m) <==> Genuine(key, sig, m)
  {
    hide V, InvMod, Big, R, S, Unsign;
    if |sig| != 2 * SHA1_HASH_SIZE { return; }
    var r, s := Big(sig[..SHA1_HASH_SIZE]), Big(sig[SHA1_HASH_SIZE..]);
    if 0 < r < key.q && 0 < s < key.q {
      if Accepts(key, sig, m) {
        var k := Unsign(key, r, s, m);
        UnsignIs(key, r, s, m);
        AcceptedFor(key, sig, m, k);
        NoNumber(key, m);
        if k > 0 {
          SignedIs(key, k, s, m);
          assert SignedWith(key, k, r, s, m);
        } else {
          assert k * s == 0;
        }
      }
      if exists k :: SignedWith(key, k, r, s, m) {
        var k :| SignedWith(key, k, r, s, m);
        SignedIs(key, k, s, m);
        AcceptedFor(key, sig, m, k);
      }
      if r == 1 && (m + key.x) % key.q == 0 {
        NoNumber(key, m);
        assert 0 * s == 0;
        AcceptedFor(key, sig, m, 0);
      }
    }
  }

  lemma NoNumber(key: Key, m: nat)
    requires GoodKey(key)
    ensures R(key, 0) == 1 && 0 % key.q == 0
  {
    DivUnique(1, key.p, 0, 1);
    DivUnique(1, key.q, 0, 1);
  }

  /** For every key and every random number there is a hash for which s is zero and the signature, though written, is
      not accepted. */
  lemma ZeroForEveryKey(key: Key, k: nat) returns (msghash: seq<U8>)
    requires GoodKey(key) && 0 < k < key.q
    ensures |msghash| == SHA1_HASH_SIZE && Big(msghash) < key.q && S(key, k, Big(msghash)) == 0
    ensures |ToBytes(R(key, k))| <= SHA1_HASH_SIZE && |ToBytes(0)| <= SHA1_HASH_SIZE
    ensures !Accepts(key, Padded(R(key, k)) + Padded(0), Big(msghash))
  {
    hide Pow, R, S, ToBytes, Padded, Big, Accepts;
    var q, xr := key.q, key.x * R(key, k);
    var m: nat := -xr % q;
    Fits(m, key);
    PaddedIs(m);
    msghash := Padded(m);
    ModMod(-xr, q);
    CongruentSum(m, -xr, xr, xr, q);
    DivUnique(0, q, 0, 0);
    WhenZero(key, k, m);
    SignatureAccepted(key, k, m);
  }

  /** A signature made is verified. */
  method SignThenVerify(key: Key, msghash: seq<U8>, k: nat) returns (ok: bool)
    requires GoodKey(key) && |msghash| == SHA1_HASH_SIZE && 0 < k < key.q
    ensures ok <==> R(key, k) != 0 && (Big(msghash) + key.x * R(key, k)) % key.q != 0
  {
    hide Pow, ToBytes, InvMod, Padded, Accepts, S, R;
    var sig := DssSign(key, msghash, k);
    SignatureAccepted(key, k, Big(msghash));
    ok := DssVerify(key, sig, msghash);
  }
}
