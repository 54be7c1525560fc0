/** Packets as bytes on the wire, section 6 of RFC 4253: padding, encryption and MAC, queued and written in
    pieces of any size, read in pieces of any size and taken apart again. */
module Framing {
  import opened Arithmetic
  import opened Bits
  import opened Bytes
  import opened Common

  const MIN_PACKET_LEN: nat := 16
  const RECV_MAX_PAYLOAD_LEN: nat := 32768
  const TRANS_MAX_PAYLOAD_LEN: nat := 16384
  const RECV_MAX_PACKET_LEN: nat := 35000
  const ZLIB_COMPRESS_EXPANSION: nat := (RECV_MAX_PAYLOAD_LEN / 16384 + 1) * 5 + 6
  const MAX_MAC_LEN: nat := 64
  const PACKET_PAYLOAD_OFF: nat := 5

  // -- The cipher --

  /** A cipher with chaining: what it does to one block depends on its state, which it changes. */
  type BlockStep = (seq<U8>, seq<U8>) -> (seq<U8>, seq<U8>)
  datatype Cipher = Cipher(blocksize: nat, enc: BlockStep, dec: BlockStep)

  /** Block sizes as the ciphers have them; blocks stay blocks, and deciphering undoes enciphering and follows its
      state. */
  ghost predicate Sound(c: Cipher) {
    && (c.blocksize == 8 || c.blocksize == 16)
    && (forall s: seq<U8>, b: seq<U8> :: |b| == c.blocksize ==>
          |c.enc(s, b).0| == c.blocksize && c.dec(s, c.enc(s, b).0) == (b, c.enc(s, b).1))
    && (forall s: seq<U8>, b: seq<U8> :: |b| == c.blocksize ==> |c.dec(s, b).0| == c.blocksize)
  }

  /** A mode of operation over any number of blocks: the output and the new state. */
  function Crypt(f: BlockStep, size: nat, state: seq<U8>, data: seq<U8>): (seq<U8>, seq<U8>)
    requires size > 0
    decreases |data|
  {
    if |data| < size then ([], state)
    else
      var (block, next) := f(state, data[..size]);
      var (rest, last) := Crypt(f, size, next, data[size..]);
      (block + rest, last)
  }

  /** Going on with a second piece is the same as taking both at once, after whole blocks. */
  lemma {:induction false} CryptSplit(f: BlockStep, size: nat, state: seq<U8>, a: seq<U8>, b: seq<U8>)
    requires size > 0 && |a| % size == 0
    ensures var (x, s1) := Crypt(f, size, state, a);
            var (y, s2) := Crypt(f, size, s1, b);
            Crypt(f, size, state, a + b) == (x + y, s2)
    decreases |a|
  {
    if |a| < size {
      DivUnique(|a|, size, 0, |a|);
      assert a == [] && a + b == b;
      var y := Crypt(f, size, state, b).0;
      assert [] + y == y;
    } else {
      var (block, next) := f(state, a[..size]);
      ModSmaller(|a|, size);
      CryptSplit(f, size, next, a[size..], b);
      assert (a + b)[..size] == a[..size] && (a + b)[size..] == a[size..] + b;
      var (x, s1) := Crypt(f, size, next, a[size..]);
      var (y, s2) := Crypt(f, size, s1, b);
      assert block + x + y == block + (x + y);
    }
  }

  lemma ModSmaller(n: int, m: int)
    requires m > 0 && n >= m && n % m == 0
    ensures (n - m) % m == 0
  {
    CongruentBy(n - m, n, m, -1);
  }

  /** Deciphering undoes enciphering over any number of blocks. */
  lemma {:induction false} DecryptUndoes(c: Cipher, state: seq<U8>, data: seq<U8>)
    requires Sound(c) && |data| % c.blocksize == 0
    ensures var (x, s) := Crypt(c.enc, c.blocksize, state, data);
            |x| == |data| && Crypt(c.dec, c.blocksize, state, x) == (data, s)
    decreases |data|
  {
    var n := c.blocksize;
    if |data| < n {
      DivUnique(|data|, n, 0, |data|);
      assert data == [];
    } else {
      var (block, next) := c.enc(state, data[..n]);
      ModSmaller(|data|, n);
      DecryptUndoes(c, next, data[n..]);
      var (rest, last) := Crypt(c.enc, n, next, data[n..]);
      assert (block + rest)[..n] == block && (block + rest)[n..] == rest;
      assert data == data[..n] + data[n..];
    }
  }

  /** Whole blocks stay as many when they are deciphered. */
  lemma {:induction false} DecryptLength(c: Cipher, state: seq<U8>, data: seq<U8>)
    requires Sound(c) && |data| % c.blocksize == 0
    ensures |Crypt(c.dec, c.blocksize, state, data).0| == |data|
    decreases |data|
  {
    var n := c.blocksize;
    if |data| < n {
      DivUnique(|data|, n, 0, |data|);
    } else {
      ModSmaller(|data|, n);
      DecryptLength(c, c.dec(state, data[..n]).1, data[n..]);
    }
  }

  /** The keys of one direction: the cipher and the MAC. */
  datatype Keys = Keys(cipher: Cipher, macsize: nat, mac: seq<U8> -> seq<U8>)

  ghost predicate GoodKeys(k: Keys) {
    Sound(k.cipher) && k.macsize <= MAX_MAC_LEN && forall m: seq<U8> :: |k.mac(m)| == k.macsize
  }

  /** make_mac: the MAC of the sequence number and the clear packet. */
  function MakeMac(k: Keys, seqno: nat, clear: seq<U8>): seq<U8>
    requires seqno < SEQ_WRAP
  {
    k.mac(Put32(seqno) + clear)
  }

  // -- One packet --

  /** The padding of encrypt_packet for a packet that is n bytes long without it. */
  function PadLen(n: nat, blocksize: nat): nat
    requires blocksize > 0
  {
    var p := blocksize - n % blocksize;
    var p := if p < 4 then p + blocksize else p;
    if n + p < MIN_PACKET_LEN then p + blocksize else p
  }

  /** Packets are whole blocks, with at least four bytes of padding and the least length, and fit the buffer
      that encrypt_packet allocates even without room for compression. */
  lemma Padded(n: nat, blocksize: nat)
    requires n >= PACKET_PAYLOAD_OFF + 1 && (blocksize == 8 || blocksize == 16)
    ensures var p := PadLen(n, blocksize);
            && 4 <= p < 0x100 && (n + p) % blocksize == 0 && n + p >= MIN_PACKET_LEN
            && n + p <= n + (if MIN_PACKET_LEN > blocksize then MIN_PACKET_LEN else blocksize) + 3
  {
    var d, r := n / blocksize, n % blocksize;
    if blocksize == 8 { PadsTo(n, d, r, 8); } else { PadsTo(n, d, r, 16); }
  }

  lemma PadsTo(n: nat, d: nat, r: nat, size: nat)
    requires size > 0 && n == size * d + r && r < size
    ensures (n + (size - r)) % size == 0 && (n + (size - r) + size) % size == 0
    ensures (n + (size - r) + size + size) % size == 0
  {
    DivUnique(n + (size - r), size, d + 1, 0);
    DivUnique(n + (size - r) + size, size, d + 2, 0);
    DivUnique(n + (size - r) + size + size, size, d + 3, 0);
  }

  /** The clear packet: length, padding length, payload, padding. */
  function Clear(payload: seq<U8>, pad: seq<U8>): seq<U8>
    requires 5 <= 1 + |payload| + |pad| < 0x1_0000_0000 && |pad| < 0x100
  {
    Put32(1 + |payload| + |pad|) + [|pad| as U8] + payload + pad
  }

  predicate GoodPayload(payload: seq<U8>) { 1 <= |payload| <= TRANS_MAX_PAYLOAD_LEN }

  predicate GoodPad(k: Keys, payload: seq<U8>, pad: seq<U8>)
    requires k.cipher.blocksize > 0
  {
    |pad| == PadLen(PACKET_PAYLOAD_OFF + |payload|, k.cipher.blocksize) && |pad| < 0x100
  }

  /** What goes on the wire, and the cipher's state after it. */
  function Frame(k: Keys, state: seq<U8>, seqno: nat, payload: seq<U8>, pad: seq<U8>): (seq<U8>, seq<U8>)
    requires k.cipher.blocksize > 0 && GoodPayload(payload) && GoodPad(k, payload, pad) && seqno < SEQ_WRAP
  {
    var clear := Clear(payload, pad);
    var (body, next) := Crypt(k.cipher.enc, k.cipher.blocksize, state, clear);
    (body + MakeMac(k, seqno, clear), next)
  }

  /** How a packet is taken apart: the first block tells its length, which passes the checks of read_packet_init,
      and the other blocks follow on from it; the MAC is at the end. */
  lemma FrameParts(k: Keys, state: seq<U8>, seqno: nat, payload: seq<U8>, pad: seq<U8>)
    requires GoodKeys(k) && GoodPayload(payload) && GoodPad(k, payload, pad) && seqno < SEQ_WRAP
    ensures var n := k.cipher.blocksize;
            var clear := Clear(payload, pad);
            var (f, next) := Frame(k, state, seqno, payload, pad);
            var (first, mid) := Crypt(k.cipher.dec, n, state, f[..n]);
            && |f| == |clear| + k.macsize && n <= |clear| && |clear| % n == 0
            && |clear| >= MIN_PACKET_LEN && |f| <= RECV_MAX_PACKET_LEN
            && first == clear[..n] && Crypt(k.cipher.dec, n, mid, f[n..|clear|]) == (clear[n..], next)
            && f[|clear|..] == MakeMac(k, seqno, clear)
  {
    var n, clear := k.cipher.blocksize, Clear(payload, pad);
    Padded(PACKET_PAYLOAD_OFF + |payload|, n);
    DecryptUndoes(k.cipher, state, clear);
    var (body, next) := Crypt(k.cipher.enc, n, state, clear);
    var f := Frame(k, state, seqno, payload, pad).0;
    assert f == body + MakeMac(k, seqno, clear);
    assert f[..n] == body[..n] && f[n..|clear|] == body[n..] && f[|clear|..] == MakeMac(k, seqno, clear);
    assert body == body[..n] + body[n..];
    OneBlock(n);
    CryptSplit(k.cipher.dec, n, state, body[..n], body[n..]);
    CryptLength(k.cipher, state, body, clear);
    var (x, mid) := Crypt(k.cipher.dec, n, state, body[..n]);
    var y := Crypt(k.cipher.dec, n, mid, body[n..]).0;
    assert (x + y)[..n] == x && (x + y)[n..] == y;
  }

  lemma OneBlock(n: nat)
    requires n > 0
    ensures n % n == 0
  {
    DivUnique(n, n, 1, 0);
  }

  /** Deciphering one block of something enciphered gives one block. */
  lemma CryptLength(c: Cipher, state: seq<U8>, body: seq<U8>, clear: seq<U8>)
    requires Sound(c) && |clear| % c.blocksize == 0 && c.blocksize <= |clear|
    requires body == Crypt(c.enc, c.blocksize, state, clear).0
    ensures c.blocksize <= |body| && |Crypt(c.dec, c.blocksize, state, body[..c.blocksize]).0| == c.blocksize
  {
    var n := c.blocksize;
    var (block, next) := c.enc(state, clear[..n]);
    var rest := Crypt(c.enc, n, next, clear[n..]).0;
    assert body == block + rest && body[..n] == block;
    assert block[..n] == block && block[n..] == [];
    assert Crypt(c.dec, n, next, []) == ([], next);
    assert clear[..n] + [] == clear[..n];
  }

  /** The fields of a clear packet. */
  lemma ClearFields(payload: seq<U8>, pad: seq<U8>, n: nat)
    requires 5 <= 1 + |payload| + |pad| < 0x1_0000_0000 && |pad| < 0x100 && 5 <= n <= |Clear(payload, pad)|
    ensures var c := Clear(payload, pad);
            && |c| == 5 + |payload| + |pad| && Get32(c[..n][..4]) == |c| - 4
            && c[4] as int == |pad| && c[5..5 + |payload|] == payload
  {
    var c := Clear(payload, pad);
    assert c[..n][..4] == Put32(1 + |payload| + |pad|);
    GetPut(1 + |payload| + |pad|);
  }

  // -- Many packets --

  datatype Msg = Msg(payload: seq<U8>, pad: seq<U8>)

  /** What one key exchange brings for one direction, and what the exchanges of a session bring, in order; the first is
      what a session begins with. */
  datatype Epoch = Epoch(keys: Keys, iv: seq<U8>)
  type Schedule = nat -> Epoch

  ghost predicate GoodSchedule(ks: Schedule) { forall g :: GoodKeys(ks(g).keys) }

  predicate IsNewkeys(payload: seq<U8>) { payload != [] && payload[0] as nat == SSH_MSG_NEWKEYS }

  /** How often the keys have been switched after these packets: once after each NEWKEYS. */
  function Gen(ms: seq<Msg>): nat {
    if ms == [] then 0 else Gen(ms[..|ms| - 1]) + if IsNewkeys(ms[|ms| - 1].payload) then 1 else 0
  }

  function KeysFor(ks: Schedule, ms: seq<Msg>): Keys { ks(Gen(ms)).keys }

  predicate GoodMsg(k: Keys, m: Msg) {
    k.cipher.blocksize > 0 && GoodPayload(m.payload) && GoodPad(k, m.payload, m.pad)
  }

  predicate GoodMsgs(ks: Schedule, ms: seq<Msg>) {
    ms == [] || (GoodMsgs(ks, ms[..|ms| - 1]) && GoodMsg(KeysFor(ks, ms[..|ms| - 1]), ms[|ms| - 1]))
  }

  lemma {:induction false} GoodAt(ks: Schedule, ms: seq<Msg>, i: nat)
    requires GoodMsgs(ks, ms) && i <= |ms|
    ensures GoodMsgs(ks, ms[..i]) && (i < |ms| ==> GoodMsg(KeysFor(ks, ms[..i]), ms[i]))
    decreases |ms|
  {
    if i == |ms| {
      assert ms[..i] == ms;
    } else if i < |ms| - 1 {
      GoodAt(ks, ms[..|ms| - 1], i);
      assert ms[..|ms| - 1][..i] == ms[..i];
    }
  }

  /** All bytes for a list of packets, and the cipher's state for the next one: that of the last, or the initial one of
      new keys. */
  ghost function Stream(ks: Schedule, ms: seq<Msg>): (seq<U8>, seq<U8>)
    requires GoodMsgs(ks, ms)
    decreases |ms|
  {
    if ms == [] then ([], ks(0).iv)
    else
      var n := |ms| - 1;
      var (bytes, state) := Stream(ks, ms[..n]);
      var (f, next) := Frame(KeysFor(ks, ms[..n]), state, n % SEQ_WRAP, ms[n].payload, ms[n].pad);
      (bytes + f, if IsNewkeys(ms[n].payload) then ks(Gen(ms)).iv else next)
  }

  lemma StreamNext(ks: Schedule, ms: seq<Msg>, m: Msg)
    requires GoodMsgs(ks, ms) && GoodMsg(KeysFor(ks, ms), m)
    ensures GoodMsgs(ks, ms + [m]) && Gen(ms + [m]) == Gen(ms) + if IsNewkeys(m.payload) then 1 else 0
    ensures var (bytes, state) := Stream(ks, ms);
            var (f, next) := Frame(KeysFor(ks, ms), state, |ms| % SEQ_WRAP, m.payload, m.pad);
            Stream(ks, ms + [m]) == (bytes + f, if IsNewkeys(m.payload) then ks(Gen(ms) + 1).iv else next)
  {
    hide Frame;
    var ns := ms + [m];
    assert ns[..|ms|] == ms && ns[|ms|] == m;
  }

  /** The first packets' bytes come first. */
  lemma {:induction false} StreamPrefix(ks: Schedule, ms: seq<Msg>, i: nat)
    requires GoodMsgs(ks, ms) && i <= |ms|
    ensures GoodMsgs(ks, ms[..i]) && Stream(ks, ms[..i]).0 <= Stream(ks, ms).0
    decreases |ms|
  {
    hide Frame;
    if i == |ms| {
      assert ms[..i] == ms;
    } else {
      StreamPrefix(ks, ms[..|ms| - 1], i);
      assert ms[..|ms| - 1][..i] == ms[..i];
    }
  }

  /** Packet i lies behind the packets before it. */
  lemma FrameInStream(ks: Schedule, ms: seq<Msg>, i: nat)
    requires GoodMsgs(ks, ms) && i < |ms|
    ensures GoodMsgs(ks, ms[..i]) && GoodMsgs(ks, ms[..i + 1]) && GoodMsg(KeysFor(ks, ms[..i]), ms[i])
    ensures var (bytes, state) := Stream(ks, ms[..i]);
            var (f, next) := Frame(KeysFor(ks, ms[..i]), state, i % SEQ_WRAP, ms[i].payload, ms[i].pad);
            && bytes + f <= Stream(ks, ms).0
            && Stream(ks, ms[..i + 1]) ==
               (bytes + f, if IsNewkeys(ms[i].payload) then ks(Gen(ms[..i]) + 1).iv else next)
    ensures Gen(ms[..i + 1]) == Gen(ms[..i]) + if IsNewkeys(ms[i].payload) then 1 else 0
  {
    hide Frame, Stream, GoodMsgs, Gen, GoodPad, GoodPayload, KeysFor;
    GoodAt(ks, ms, i);
    assert ms[..i + 1] == ms[..i] + [ms[i]];
    StreamNext(ks, ms[..i], ms[i]);
    StreamPrefix(ks, ms, i + 1);
  }

  // -- Sending --

  /** A buffer on the write queue, and how much of it has been written. */
  datatype Buffer = Buffer(data: seq<U8>, pos: nat)

  function Left(b: Buffer): seq<U8> { if b.pos <= |b.data| then b.data[b.pos..] else [] }

  function Unsent(q: seq<Buffer>): seq<U8> {
    if q == [] then [] else Left(q[0]) + Unsent(q[1..])
  }

  lemma {:induction false} UnsentAppend(q: seq<Buffer>, b: Buffer)
    ensures Unsent(q + [b]) == Unsent(q) + Left(b)
    decreases |q|
  {
    if q == [] {
      assert q + [b] == [b] && [b][1..] == [];
      assert Left(b) + [] == [] + Left(b);
    } else {
      UnsentAppend(q[1..], b);
      assert (q + [b])[1..] == q[1..] + [b];
      Regroup(Left(q[0]), Unsent(q[1..]), Left(b));
    }
  }

  lemma {:induction false} UnsentFront(q: seq<Buffer>, n: nat)
    requires n <= |q|
    ensures Unsent(q[..n]) <= Unsent(q)
    decreases n
  {
    if n > 0 {
      UnsentFront(q[1..], n - 1);
      assert q[..n][1..] == q[1..][..n - 1];
    }
  }

  const IOV_COUNT: nat := 50

  class Sender {
    const schedule: Schedule
    /** ses.keys->trans, and how often it has been switched. */
    var keys: Keys
    var gen: nat
    var cipherState: seq<U8>
    var transseq: nat
    var writequeue: seq<Buffer>
    var writequeueLen: nat
    /** The bytes that the socket has taken. */
    var wire: seq<U8>
    ghost var ms: seq<Msg>

    ghost predicate QueueOk()
      reads this`writequeue
    {
      forall i :: 0 <= i < |writequeue| ==> writequeue[i].pos < |writequeue[i].data|
    }

    /** What has been written, with what is queued, is the stream of all packets; and the queue's length is exact. */
    ghost predicate Valid()
      reads this
    {
      && GoodSchedule(schedule) && GoodMsgs(schedule, ms) && transseq == |ms| % SEQ_WRAP && QueueOk()
      && gen == Gen(ms) && keys == schedule(gen).keys
      && Stream(schedule, ms) == (wire + Unsent(writequeue), cipherState)
      && writequeueLen == |Unsent(writequeue)|
    }

    constructor (schedule: Schedule)
      requires GoodSchedule(schedule)
      ensures Valid() && ms == [] && wire == [] && this.schedule == schedule
    {
      this.schedule, keys, gen, cipherState, transseq := schedule, schedule(0).keys, 0, schedule(0).iv, 0;
      writequeue, writequeueLen, wire, ms := [], 0, [], [];
      new;
      assert wire + Unsent(writequeue) == [];
    }

    /** The clear packet, with its random padding. */
    method Padding(payload: seq<U8>, random: nat -> seq<U8>) returns (writebuf: seq<U8>, ghost pad: seq<U8>)
      requires GoodKeys(keys) && GoodPayload(payload) && forall n :: |random(n)| == n
      ensures GoodPad(keys, payload, pad) && writebuf == Clear(payload, pad) && |writebuf| % keys.cipher.blocksize == 0
    {
      var blocksize := keys.cipher.blocksize;
      writebuf := [0, 0, 0, 0, 0] + payload;
      var padlen := blocksize - |writebuf| % blocksize;
      if padlen < 4 { padlen := padlen + blocksize; }
      if |writebuf| + padlen < MIN_PACKET_LEN { padlen := padlen + blocksize; }
      Padded(|writebuf|, blocksize);
      writebuf := Put32(|writebuf| + padlen - 4) + [padlen as U8] + writebuf[PACKET_PAYLOAD_OFF..];
      pad := random(padlen);
      writebuf := writebuf + random(padlen);
    }

    /** encrypt_packet past its gate; then writebuf_enqueue. After NEWKEYS the keys are switched. */
    method EncryptPacket(payload: seq<U8>, random: nat -> seq<U8>)
      requires Valid() && GoodPayload(payload) && forall n :: |random(n)| == n
      modifies this`keys, this`gen, this`cipherState, this`transseq, this`writequeue, this`writequeueLen, this`ms
      ensures Valid() && |ms| == |old(ms)| + 1 && ms[..|old(ms)|] == old(ms) && ms[|old(ms)|].payload == payload
    {
      hide Stream, Crypt, Unsent, PadLen, GoodMsgs, Gen;
      var writebuf, pad := Padding(payload, random);
      var macBytes := MakeMac(keys, transseq, writebuf);
      var (body, next) := Crypt(keys.cipher.enc, keys.cipher.blocksize, cipherState, writebuf);
      DecryptUndoes(keys.cipher, cipherState, writebuf);
      StreamNext(schedule, ms, Msg(payload, pad));
      SeqNext(|ms|);
      cipherState := next;
      Enqueue(body + macBytes, Msg(payload, pad));
      transseq := (transseq + 1) % SEQ_WRAP;
      if IsNewkeys(payload) {
        gen := gen + 1;
        keys, cipherState := schedule(gen).keys, schedule(gen).iv;
      }
    }

    method Enqueue(frame: seq<U8>, ghost m: Msg)
      requires frame != [] && QueueOk() && writequeueLen == |Unsent(writequeue)|
      modifies this`writequeue, this`writequeueLen, this`ms
      ensures QueueOk() && writequeueLen == |Unsent(writequeue)|
      ensures wire + Unsent(writequeue) == wire + Unsent(old(writequeue)) + frame && ms == old(ms) + [m]
    {
      hide Unsent;
      UnsentAppend(writequeue, Buffer(frame, 0));
      writequeue := writequeue + [Buffer(frame, 0)];
      writequeueLen := writequeueLen + |frame|;
      ms := ms + [m];
    }

    /** packet_queue_consume. */
    method PacketQueueConsume(written0: nat)
      requires QueueOk() && written0 <= |Unsent(writequeue)|
      modifies this`writequeue
      ensures QueueOk() && Unsent(writequeue) == Unsent(old(writequeue))[written0..]
    {
      hide Unsent;
      var written: nat := written0;
      ghost var all := Unsent(writequeue);
      while written > 0
        invariant QueueOk() && written <= written0 && written <= |Unsent(writequeue)|
        invariant Unsent(writequeue)[written..] == all[written0..]
        decreases written
      {
        NotEmpty(writequeue);
        var b := writequeue[0];
        var len := |b.data| - b.pos;
        TakeHead(writequeue, written);
        if len > written {
          writequeue := [Buffer(b.data, b.pos + written)] + writequeue[1..];
          written := 0;
        } else {
          writequeue := writequeue[1..];
          written := written - len;
        }
      }
    }

    /** write_packet with writev: up to fifty buffers are offered, and the socket takes some first bytes of them. */
    method WritePacketWritev(ready: nat)
      requires Valid() && writequeue != []
      modifies this`writequeue, this`writequeueLen, this`wire
      ensures Valid() && old(wire) <= wire
      ensures |wire| == |old(wire)| + Min(ready, |Unsent(old(writequeue)[..Min(|old(writequeue)|, IOV_COUNT)])|)
    {
      hide Stream, Unsent;
      var iov := Unsent(writequeue[..if |writequeue| < IOV_COUNT then |writequeue| else IOV_COUNT]);
      var written := if ready < |iov| then ready else |iov|;
      UnsentFront(writequeue, if |writequeue| < IOV_COUNT then |writequeue| else IOV_COUNT);
      Taken(wire, Unsent(writequeue), iov, written);
      PacketQueueConsume(written);
      writequeueLen := writequeueLen - written;
      wire := wire + iov[..written];
    }

    /** write_packet without writev: the first buffer only. */
    method WritePacketWrite(ready: nat)
      requires Valid() && writequeue != []
      modifies this`writequeue, this`writequeueLen, this`wire
      ensures Valid() && old(wire) <= wire && |wire| == |old(wire)| + Min(ready, |Left(old(writequeue)[0])|)
    {
      hide Unsent, Stream;
      var writebuf := writequeue[0];
      var len := |writebuf.data| - writebuf.pos;
      var written := if ready < len then ready else len;
      TakeHead(writequeue, written);
      Taken(wire, Unsent(writequeue), writebuf.data[writebuf.pos..], written);
      wire := wire + writebuf.data[writebuf.pos..][..written];
      writequeueLen := writequeueLen - written;
      if written == len {
        writequeue := writequeue[1..];
      } else {
        writequeue := [Buffer(writebuf.data, writebuf.pos + written)] + writequeue[1..];
      }
    }
  }

  lemma NotEmpty(q: seq<Buffer>)
    ensures Unsent(q) != [] ==> q != []
  {
  }

  /** Taking w bytes off the first buffer, or all of it and more. */
  lemma TakeHead(q: seq<Buffer>, w: nat)
    requires q != [] && q[0].pos < |q[0].data|
    ensures q[0].data[q[0].pos..] <= Unsent(q) && Unsent(q)[0..] == Unsent(q)
    ensures var b, all, len := q[0], Unsent(q), |q[0].data| - q[0].pos;
            && (w < len ==>
                  Unsent([Buffer(b.data, b.pos + w)] + q[1..])[0..] == all[w..] ==
                  Unsent([Buffer(b.data, b.pos + w)] + q[1..]))
            && (len <= w <= |all| ==> w - len <= |Unsent(q[1..])| && Unsent(q[1..])[w - len..] == all[w..])
            && Unsent(q[1..]) == all[len..] && |Unsent(q[1..])[0..]| == |all| - len
  {
    hide Unsent;
    var b := q[0];
    HeadFirst(q);
    if w < |b.data| - b.pos {
      var q1 := [Buffer(b.data, b.pos + w)] + q[1..];
      HeadFirst(q1);
      assert q1[1..] == q[1..];
    }
  }

  lemma HeadFirst(q: seq<Buffer>)
    requires q != [] && q[0].pos <= |q[0].data|
    ensures Unsent(q) == q[0].data[q[0].pos..] + Unsent(q[1..])
  {
  }

  /** Moving the first bytes from the queue to the wire changes nothing in the whole. */
  lemma Taken(wire: seq<U8>, unsent: seq<U8>, offered: seq<U8>, n: nat)
    requires offered <= unsent && n <= |offered|
    ensures wire + offered[..n] + unsent[n..] == wire + unsent
  {
    assert unsent == offered[..n] + unsent[n..];
  }

  lemma SeqNext(n: nat)
    ensures (n % SEQ_WRAP + 1) % SEQ_WRAP == (n + 1) % SEQ_WRAP
  {
    ModMod(n, SEQ_WRAP);
    CongruentSum(n % SEQ_WRAP, n, 1, 1, SEQ_WRAP);
  }
}
