/** Keys out of a key exchange, sections 7.2 and 8 of RFC 4253. The hash is any function with a fixed output size. */
module KeyDerivation {
  import opened Arithmetic
  import opened Bits
  import opened Bytes
  import opened Common
  import opened Mpint
  import opened CircBuffers

  const MAX_IV_LEN: nat := 20
  const MAX_KEY_LEN: nat := 32

  type Hash = seq<U8> -> seq<U8>

  ghost predicate Sized(h: Hash, size: nat) { size > 0 && forall m: seq<U8> :: |h(m)| == size }

  // -- Key material of any length --

  /** K1 || K2 || ... || Kn with K1 = HASH(base || seed) and each further one the hash of base and all before it. */
  ghost function KeyStream(h: Hash, base: seq<U8>, seed: seq<U8>, n: nat): seq<U8> {
    if n == 0 then []
    else if n == 1 then h(base + seed)
    else KeyStream(h, base, seed, n - 1) + h(base + KeyStream(h, base, seed, n - 1))
  }

  lemma {:induction false} StreamGrows(h: Hash, base: seq<U8>, seed: seq<U8>, m: nat, n: nat)
    requires m <= n
    ensures KeyStream(h, base, seed, m) <= KeyStream(h, base, seed, n)
    decreases n
  {
    if m < n && n > 1 { StreamGrows(h, base, seed, m, n - 1); }
  }

  /** out is the beginning of the key stream, for however many blocks it takes. */
  ghost predicate BeginsStream(h: Hash, size: nat, base: seq<U8>, seed: seq<U8>, out: seq<U8>) {
    forall n: nat :: |out| <= |KeyStream(h, base, seed, n)| ==> out <= KeyStream(h, base, seed, n)
  }

  lemma Begins(h: Hash, size: nat, base: seq<U8>, seed: seq<U8>, out: seq<U8>, k: nat)
    requires Sized(h, size) && out <= KeyStream(h, base, seed, k)
    ensures BeginsStream(h, size, base, seed, out)
  {
    forall n: nat | |out| <= |KeyStream(h, base, seed, n)| ensures out <= KeyStream(h, base, seed, n) {
      if n <= k { StreamGrows(h, base, seed, n, k); } else { StreamGrows(h, base, seed, k, n); }
    }
  }

  /** One more block of key material, as far as there is room. */
  method ExtendKey(out: array<U8>, offset: nat, h: Hash, size: nat, base: seq<U8>, seed: seq<U8>, ghost k: nat)
    requires Sized(h, size) && offset < out.Length && k >= 1 && out[..offset] == KeyStream(h, base, seed, k)
    modifies out
    ensures out[..Min(offset + size, out.Length)] <= KeyStream(h, base, seed, k + 1)
    ensures |KeyStream(h, base, seed, k + 1)| == offset + size
  {
    hide KeyStream;
    NextBlock(h, base, seed, k);
    var tmpout := h(base + out[..offset]);
    ghost var was := out[..offset];
    var n := Min(out.Length - offset, size);
    CopyTo(out, offset, tmpout[..n]);
    assert out[..offset] == was;
    assert out[..offset + n] == out[..offset] + out[offset..offset + n];
    assert was + tmpout[..n] <= was + tmpout;
  }

  lemma NextBlock(h: Hash, base: seq<U8>, seed: seq<U8>, k: nat)
    requires k >= 1
    ensures KeyStream(h, base, seed, k + 1) == KeyStream(h, base, seed, k) + h(base + KeyStream(h, base, seed, k))
    ensures KeyStream(h, base, seed, 1) == h(base + seed)
  {
  }

  /** hashkeys: fills out, of any length. */
  method HashKeys(out: array<U8>, h: Hash, size: nat, base: seq<U8>, seed: seq<U8>)
    requires Sized(h, size)
    modifies out
    ensures BeginsStream(h, size, base, seed, out[..])
  {
    hide KeyStream, BeginsStream;
    NextBlock(h, base, seed, 1);
    var tmpout := h(base + seed);
    CopyTo(out, 0, tmpout[..Min(size, out.Length)]);
    ghost var k := 1;
    var offset := size;
    while offset < out.Length
      invariant k >= 1 && |KeyStream(h, base, seed, k)| == offset
      invariant out[..Min(offset, out.Length)] <= KeyStream(h, base, seed, k)
    {
      ExtendKey(out, offset, h, size, base, seed, k);
      offset := offset + size;
      k := k + 1;
    }
    assert out[..out.Length] == out[..];
    Begins(h, size, base, seed, out[..], k);
  }

  lemma {:induction false} StreamLength(h: Hash, size: nat, base: seq<U8>, seed: seq<U8>, n: nat)
    requires Sized(h, size)
    ensures |KeyStream(h, base, seed, n)| == size * n
  {
    if n > 1 {
      StreamLength(h, size, base, seed, n - 1);
      MulAdd(size, n - 1, 1);
    }
  }

  /** Material is made block by block: the first is the hash of the base and the seed, and each further one that of the
      base and all material before it. */
  lemma BlocksOf(h: Hash, size: nat, base: seq<U8>, seed: seq<U8>, out: seq<U8>, i: nat)
    requires Sized(h, size) && BeginsStream(h, size, base, seed, out) && size * i + size <= |out|
    ensures out[size * i..size * i + size] == h(base + if i == 0 then seed else out[..size * i])
  {
    hide KeyStream, BeginsStream;
    StreamLength(h, size, base, seed, i);
    StreamLength(h, size, base, seed, i + 1);
    MulAdd(size, i, 1);
    StreamBegins(h, size, base, seed, out, i + 1);
    if i > 0 { NextBlock(h, base, seed, i); } else { NextBlock(h, base, seed, 1); }
    StreamGrows(h, base, seed, i, i + 1);
    var s, t := KeyStream(h, base, seed, i), KeyStream(h, base, seed, i + 1);
    assert t <= out && s <= t;
    assert out[..size * i] == s && out[size * i..size * i + size] == t[size * i..];
  }

  /** As many whole blocks as there are in the material begin it. */
  lemma StreamBegins(h: Hash, size: nat, base: seq<U8>, seed: seq<U8>, out: seq<U8>, n: nat)
    requires Sized(h, size) && BeginsStream(h, size, base, seed, out) && |KeyStream(h, base, seed, n)| <= |out|
    ensures KeyStream(h, base, seed, n) <= out
  {
    hide KeyStream;
    LongEnough(h, size, base, seed, |out|);
    var all := KeyStream(h, base, seed, |out|);
    if n <= |out| { StreamGrows(h, base, seed, n, |out|); } else { StreamGrows(h, base, seed, |out|, n); }
    assert out <= all;
  }

  // -- Keys for both directions --

  /** The material of one direction: the first bytes for the cipher, the rest of it unused, and for the MAC. */
  datatype Direction = Direction(iv: seq<U8>, key: seq<U8>, mackey: seq<U8>)

  /** The key material that letter x stands for, when it is len bytes long. */
  ghost predicate Derived(h: Hash, size: nat, base: seq<U8>, sessionId: seq<U8>, x: U8, len: nat, out: seq<U8>) {
    |out| == len && BeginsStream(h, size, base, [x] + sessionId, out)
  }

  /** Material for a letter and a length is unique. */
  lemma DerivedUnique(h: Hash, size: nat, base: seq<U8>, sessionId: seq<U8>, x: U8, len: nat, a: seq<U8>, b: seq<U8>)
    requires Sized(h, size) && Derived(h, size, base, sessionId, x, len, a)
    requires Derived(h, size, base, sessionId, x, len, b)
    ensures a == b
  {
    LongEnough(h, size, base, [x] + sessionId, len);
    var s := KeyStream(h, base, [x] + sessionId, len);
    assert a <= s && b <= s;
    assert a == s[..len] == b;
  }

  lemma {:induction false} LongEnough(h: Hash, size: nat, base: seq<U8>, seed: seq<U8>, n: nat)
    requires Sized(h, size)
    ensures |KeyStream(h, base, seed, n)| >= n
  {
    if n > 1 { LongEnough(h, size, base, seed, n - 1); }
  }

  /** The six letters of section 7.2 of RFC 4253, for client to server and for server to client. */
  ghost predicate IsDirection(h: Hash, size: nat, base: seq<U8>, sessionId: seq<U8>, toServer: bool, macLen: nat,
      d: Direction) {
    && Derived(h, size, base, sessionId, if toServer then 'A' as U8 else 'B' as U8, MAX_IV_LEN, d.iv)
    && Derived(h, size, base, sessionId, if toServer then 'C' as U8 else 'D' as U8, MAX_KEY_LEN, d.key)
    && Derived(h, size, base, sessionId, if toServer then 'E' as U8 else 'F' as U8, macLen, d.mackey)
  }

  method Material(h: Hash, size: nat, base: seq<U8>, sessionId: seq<U8>, x: U8, len: nat) returns (out: seq<U8>)
    requires Sized(h, size)
    ensures Derived(h, size, base, sessionId, x, len, out)
  {
    var a := new U8[len](_ => 0);
    HashKeys(a, h, size, base, [x] + sessionId);
    out := a[..];
  }

  /** gen_new_keys: the shared secret and the exchange hash come first in every hash. */
  method GenNewKeys(client: bool, h: Hash, size: nat, secret: nat, hash: seq<U8>, sessionId: seq<U8>, transMacLen: nat,
      recvMacLen: nat)
    returns (trans: Direction, recv: Direction)
    requires Sized(h, size) && |Body(secret)| < 0x1_0000_0000
    ensures IsDirection(h, size, Encode(secret) + hash, sessionId, client, transMacLen, trans)
    ensures IsDirection(h, size, Encode(secret) + hash, sessionId, !client, recvMacLen, recv)
    ensures var base := Encode(secret) + hash;
            var toServer, toClient := if client then trans else recv, if client then recv else trans;
            && Derived(h, size, base, sessionId, 'A' as U8, MAX_IV_LEN, toServer.iv)
            && Derived(h, size, base, sessionId, 'B' as U8, MAX_IV_LEN, toClient.iv)
            && Derived(h, size, base, sessionId, 'C' as U8, MAX_KEY_LEN, toServer.key)
            && Derived(h, size, base, sessionId, 'D' as U8, MAX_KEY_LEN, toClient.key)
            && Derived(h, size, base, sessionId, 'E' as U8, |toServer.mackey|, toServer.mackey)
            && Derived(h, size, base, sessionId, 'F' as U8, |toClient.mackey|, toClient.mackey)
  {
    hide BeginsStream, Encode;
    var base := Encode(secret) + hash;
    var c2sIv := Material(h, size, base, sessionId, 'A' as U8, MAX_IV_LEN);
    var s2cIv := Material(h, size, base, sessionId, 'B' as U8, MAX_IV_LEN);
    var c2sKey := Material(h, size, base, sessionId, 'C' as U8, MAX_KEY_LEN);
    var s2cKey := Material(h, size, base, sessionId, 'D' as U8, MAX_KEY_LEN);
    var mactransletter := if client then 'E' as U8 else 'F' as U8;
    var macrecvletter := if client then 'F' as U8 else 'E' as U8;
    var transMac := Material(h, size, base, sessionId, mactransletter, transMacLen);
    var recvMac := Material(h, size, base, sessionId, macrecvletter, recvMacLen);
    if client {
      trans, recv := Direction(c2sIv, c2sKey, transMac), Direction(s2cIv, s2cKey, recvMac);
    } else {
      trans, recv := Direction(s2cIv, s2cKey, transMac), Direction(c2sIv, c2sKey, recvMac);
    }
  }

  /** What one side sends with the other side receives with. */
  lemma DirectionsAgree(h: Hash, size: nat, base: seq<U8>, sessionId: seq<U8>, toServer: bool, macLen: nat,
      a: Direction, b: Direction)
    requires Sized(h, size) && IsDirection(h, size, base, sessionId, toServer, macLen, a)
    requires IsDirection(h, size, base, sessionId, toServer, macLen, b)
    ensures a == b
  {
    hide BeginsStream;
    DerivedUnique(h, size, base, sessionId, if toServer then 'A' as U8 else 'B' as U8, MAX_IV_LEN, a.iv, b.iv);
    DerivedUnique(h, size, base, sessionId, if toServer then 'C' as U8 else 'D' as U8, MAX_KEY_LEN, a.key, b.key);
    DerivedUnique(h, size, base, sessionId, if toServer then 'E' as U8 else 'F' as U8, macLen, a.mackey, b.mackey);
  }

  // -- The shared secret and the exchange hash --

  /** mp_exptmod. */
  function ExptMod(b: int, e: nat, m: int): int
    requires m > 0
  {
    Pow(b, e) % m
  }

  /** Both sides' secrets: (g^y)^x and (g^x)^y modulo p. */
  lemma SecretsAgree(g: int, x: nat, y: nat, p: int)
    requires p > 0
    ensures ExptMod(ExptMod(g, y, p), x, p) == ExptMod(ExptMod(g, x, p), y, p)
  {
    ModMod(Pow(g, y), p);
    ModMod(Pow(g, x), p);
    PowCongruent(Pow(g, y) % p, Pow(g, y), x, p);
    PowCongruent(Pow(g, x) % p, Pow(g, x), y, p);
    PowMul(g, y, x);
    PowMul(g, x, y);
    assert x * y == y * x;
  }

  /** What the exchange hash is taken over: versions, KEXINITs, host key, both public values and the secret. */
  datatype Transcript = Transcript(vc: seq<U8>, vs: seq<U8>, ic: seq<U8>, is_: seq<U8>, ks: seq<U8>, e: nat, f: nat,
      k: nat)

  predicate Short(s: seq<U8>) { |s| < 0x1_0000_0000 }
  predicate ShortNumber(n: nat) { |Body(n)| < 0x1_0000_0000 }

  predicate Printable(t: Transcript) {
    Short(t.vc) && Short(t.vs) && Short(t.ic) && Short(t.is_) && Short(t.ks) && ShortNumber(t.e) && ShortNumber(t.f)
        && ShortNumber(t.k)
  }

  function Opening(t: Transcript): seq<U8>
    requires Printable(t)
  {
    Str(t.vc) + Str(t.vs) + Str(t.ic) + Str(t.is_)
  }

  /** The input of the exchange hash. */
  function HashInput(t: Transcript): seq<U8>
    requires Printable(t)
  {
    Opening(t) + Str(t.ks) + Encode(t.e) + Encode(t.f) + Encode(t.k)
  }

  lemma SplitString(a: seq<U8>, x: seq<U8>, b: seq<U8>, y: seq<U8>)
    requires Short(a) && Short(b) && Str(a) + x == Str(b) + y
    ensures a == b && x == y
  {
    var s := Str(a) + x;
    assert s[..4] == Put32(|a|) && s[..4] == Put32(|b|);
    GetPut(|a|);
    GetPut(|b|);
    assert s[4..4 + |a|] == a && s[4..4 + |b|] == b;
    assert s[4 + |a|..] == x && s[4 + |b|..] == y;
  }

  lemma SplitNumber(m: nat, x: seq<U8>, n: nat, y: seq<U8>)
    requires ShortNumber(m) && ShortNumber(n) && Encode(m) + x == Encode(n) + y
    ensures m == n && x == y
  {
    SplitString(Body(m), x, Body(n), y);
    BodyIsMinimal(m, []);
    BodyIsMinimal(n, []);
  }

  lemma FromTheRight(a: seq<U8>, b: seq<U8>, c: seq<U8>, d: seq<U8>, e: seq<U8>, f: seq<U8>, g: seq<U8>, h: seq<U8>)
    ensures a + b + c + d + e + f + g + h == a + (b + (c + (d + (e + (f + (g + (h + [])))))))
  {
    var z := h + [];
    assert z == h;
    Regroup(a + b + c + d + e + f, g, z);
    Regroup(a + b + c + d + e, f, g + z);
    Regroup(a + b + c + d, e, f + (g + z));
    Regroup(a + b + c, d, e + (f + (g + z)));
    Regroup(a + b, c, d + (e + (f + (g + z))));
    Regroup(a, b, c + (d + (e + (f + (g + z)))));
  }

  /** Equal hash inputs mean equal transcripts: nothing can be moved from one field to another. */
  lemma TranscriptDetermined(t: Transcript, u: Transcript)
    requires Printable(t) && Printable(u) && HashInput(t) == HashInput(u)
    ensures t == u
  {
    hide Encode, Str;
    var t4, u4 := Encode(t.e) + (Encode(t.f) + (Encode(t.k) + [])), Encode(u.e) + (Encode(u.f) + (Encode(u.k) + []));
    FromTheRight(Str(t.vc), Str(t.vs), Str(t.ic), Str(t.is_), Str(t.ks), Encode(t.e), Encode(t.f), Encode(t.k));
    FromTheRight(Str(u.vc), Str(u.vs), Str(u.ic), Str(u.is_), Str(u.ks), Encode(u.e), Encode(u.f), Encode(u.k));
    SplitString(t.vc, Str(t.vs) + (Str(t.ic) + (Str(t.is_) + (Str(t.ks) + t4))), u.vc, Str(u.vs) +
        (Str(u.ic) + (Str(u.is_) + (Str(u.ks) + u4))));
    SplitString(t.vs, Str(t.ic) + (Str(t.is_) + (Str(t.ks) + t4)), u.vs, Str(u.ic) + (Str(u.is_) + (Str(u.ks) + u4)));
    SplitString(t.ic, Str(t.is_) + (Str(t.ks) + t4), u.ic, Str(u.is_) + (Str(u.ks) + u4));
    SplitString(t.is_, Str(t.ks) + t4, u.is_, Str(u.ks) + u4);
    SplitString(t.ks, t4, u.ks, u4);
    SplitNumber(t.e, Encode(t.f) + (Encode(t.k) + []), u.e, Encode(u.f) + (Encode(u.k) + []));
    SplitNumber(t.f, Encode(t.k) + [], u.f, Encode(u.k) + []);
    SplitNumber(t.k, [], u.k, []);
  }

  /** One side's part in an exchange: its version and KEXINIT, the other side's, and its key pair. */
  datatype Party = Party(client: bool, local: seq<U8>, remote: seq<U8>, ours: seq<U8>, theirs: seq<U8>, priv: nat,
      pub: nat)

  /** The transcript as a party sees it when the other's public value is them. */
  function Seen(a: Party, hostkey: seq<U8>, them: nat, p: nat): Transcript
    requires p > 0
  {
    var k := ExptMod(them, a.priv, p);
    if a.client then Transcript(a.local, a.remote, a.ours, a.theirs, hostkey, a.pub, them, k)
    else Transcript(a.remote, a.local, a.theirs, a.ours, hostkey, them, a.pub, k)
  }

  /** The part of recv_msg_kexinit that begins the exchange hash. */
  method StartKexHash(a: Party) returns (kexhashbuf: seq<U8>)
    requires Short(a.local) && Short(a.remote) && Short(a.ours) && Short(a.theirs)
    ensures forall hostkey: seq<U8>, them: nat, p: nat :: p > 0 && Printable(Seen(a, hostkey, them, p)) ==>
              kexhashbuf == Opening(Seen(a, hostkey, them, p))
  {
    hide Str, Printable, ExptMod;
    kexhashbuf := [];
    if a.client {
      kexhashbuf := kexhashbuf + Str(a.local);
      kexhashbuf := kexhashbuf + Str(a.remote);
      kexhashbuf := kexhashbuf + Str(a.ours);
      kexhashbuf := kexhashbuf + Str(a.theirs);
    } else {
      kexhashbuf := kexhashbuf + Str(a.remote);
      kexhashbuf := kexhashbuf + Str(a.local);
      kexhashbuf := kexhashbuf + Str(a.theirs);
      kexhashbuf := kexhashbuf + Str(a.ours);
    }
  }

  /** kexdh_comb_key: refuses a public value outside [2, p-2]; else the secret and the input of the exchange hash. */
  method KexdhCombKey(a: Party, hostkey: seq<U8>, them: nat, p: nat, start: seq<U8>) returns (r: Option<(nat, seq<U8>)>)
    requires p > 0 && Printable(Seen(a, hostkey, them, p)) && start == Opening(Seen(a, hostkey, them, p))
    ensures r.Some? <==> 2 <= them <= p - 2
    ensures r.Some? ==> r.value == (Seen(a, hostkey, them, p).k, HashInput(Seen(a, hostkey, them, p)))
    ensures r.Some? ==>
              var k := Pow(them, a.priv) % p;
              && r.value.0 == k && ShortNumber(k)
              && r.value.1 == (if a.client then Str(a.local) + Str(a.remote) + Str(a.ours) + Str(a.theirs)
                               else Str(a.remote) + Str(a.local) + Str(a.theirs) + Str(a.ours))
                              + Str(hostkey) + Encode(if a.client then a.pub else them)
                              + Encode(if a.client then them else a.pub) + Encode(k)
  {
    hide Str, Encode;
    if !(them < p - 1) || !(them > 1) { return None; }
    var k := ExptMod(them, a.priv, p);
    var e := if a.client then a.pub else them;
    var f := if a.client then them else a.pub;
    var kexhashbuf := start + Str(hostkey);
    kexhashbuf := kexhashbuf + Encode(e);
    kexhashbuf := kexhashbuf + Encode(f);
    kexhashbuf := kexhashbuf + Encode(k);
    r := Some((k, kexhashbuf));
  }

  /** Two parties to one exchange: each has the other's version and KEXINIT, and the public values are powers of g. */
  predicate Opposite(c: Party, s: Party, g: nat, p: nat)
    requires p > 0
  {
    && c.client && !s.client && c.local == s.remote && c.remote == s.local && c.ours == s.theirs && c.theirs == s.ours
    && c.pub == ExptMod(g, c.priv, p) && s.pub == ExptMod(g, s.priv, p)
  }

  /** Both parties see one transcript. */
  lemma SameTranscript(c: Party, s: Party, hostkey: seq<U8>, g: nat, p: nat)
    requires p > 0 && Opposite(c, s, g, p)
    ensures Seen(c, hostkey, s.pub, p) == Seen(s, hostkey, c.pub, p)
  {
    hide Pow;
    SecretsAgree(g, c.priv, s.priv, p);
  }

  /** The whole exchange for one party: the hash input, the secret and the keys. */
  method Exchange(a: Party, hostkey: seq<U8>, them: nat, p: nat, h: Hash, size: nat, sessionId: Option<seq<U8>>,
      transMacLen: nat, recvMacLen: nat)
    returns (r: Option<(Direction, Direction)>)
    requires p > 0 && Printable(Seen(a, hostkey, them, p)) && Sized(h, size)
    ensures r.Some? <==> 2 <= them <= p - 2
    ensures r.Some? ==>
              var t := Seen(a, hostkey, them, p);
              var hash := h(HashInput(t));
              var id := if sessionId.Some? then sessionId.value else hash;
              && IsDirection(h, size, Encode(t.k) + hash, id, a.client, transMacLen, r.value.0)
              && IsDirection(h, size, Encode(t.k) + hash, id, !a.client, recvMacLen, r.value.1)
  {
    hide IsDirection, Str, Encode, Pow;
    var start := StartKexHash(a);
    var comb := KexdhCombKey(a, hostkey, them, p, start);
    if comb.None? { return None; }
    var hash := h(comb.value.1);
    var id := if sessionId.Some? then sessionId.value else hash;
    var trans, recv := GenNewKeys(a.client, h, size, comb.value.0, hash, id, transMacLen, recvMacLen);
    r := Some((trans, recv));
  }

  /** Client and server come out with the same keys, each sending with what the other receives with. */
  method ExchangeAgrees(c: Party, s: Party, hostkey: seq<U8>, g: nat, p: nat, h: Hash, size: nat,
      sessionId: Option<seq<U8>>, macToServer: nat, macToClient: nat)
    returns (atClient: Option<(Direction, Direction)>, atServer: Option<(Direction, Direction)>)
    requires p > 0 && Opposite(c, s, g, p) && Printable(Seen(c, hostkey, s.pub, p)) && Sized(h, size)
    ensures atClient.Some? && atServer.Some? ==>
                atClient.value.0 == atServer.value.1 && atClient.value.1 == atServer.value.0
    ensures atClient.Some? <==> 2 <= s.pub <= p - 2
    ensures atServer.Some? <==> 2 <= c.pub <= p - 2
    ensures atClient.Some? ==>
              var t := Seen(c, hostkey, s.pub, p);
              var hash := h(HashInput(t));
              var id := if sessionId.Some? then sessionId.value else hash;
              && IsDirection(h, size, Encode(t.k) + hash, id, true, macToServer, atClient.value.0)
              && IsDirection(h, size, Encode(t.k) + hash, id, false, macToClient, atClient.value.1)
  {
    hide IsDirection, Str, Encode, Pow, HashInput, Seen;
    SameTranscript(c, s, hostkey, g, p);
    atClient := Exchange(c, hostkey, s.pub, p, h, size, sessionId, macToServer, macToClient);
    atServer := Exchange(s, hostkey, c.pub, p, h, size, sessionId, macToClient, macToServer);
    if atClient.Some? && atServer.Some? {
      var t := Seen(c, hostkey, s.pub, p);
      var hash := h(HashInput(t));
      var id := if sessionId.Some? then sessionId.value else hash;
      DirectionsAgree(h, size, Encode(t.k) + hash, id, true, macToServer, atClient.value.0, atServer.value.1);
      DirectionsAgree(h, size, Encode(t.k) + hash, id, false, macToClient, atClient.value.1, atServer.value.0);
    }
  }
}
