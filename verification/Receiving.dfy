/** The receiving side of packet.c. Whatever bytes come and in whatever pieces, the receiver is a function of the bytes;
    it delivers a packet only when its MAC is right; and what a sender wrote it delivers unchanged. */
module Receiving {
  import opened Arithmetic
  import opened Bits
  import opened Bytes
  import opened Common
  import opened Framing

  // -- The receiver as a value --

  /** The keys by their number, the cipher's state, the next sequence number, the packet under way as far as it is there
      with its length once that is known, the payloads delivered, and the keys and number each was deciphered with. */
  datatype Rx = Rx(gen: nat, cipherState: seq<U8>, recvseq: nat, readbuf: seq<U8>, total: nat,
                   delivered: seq<seq<U8>>, seen: seq<(nat, nat)>)

  function Begun(ks: Schedule): Rx { Rx(0, ks(0).iv, 0, [], 0, [], []) }

  /** Lengths that read_packet_init lets through, of a packet with its MAC. */
  predicate GoodTotal(k: Keys, total: nat) {
    && k.cipher.blocksize > 0 && MIN_PACKET_LEN + k.macsize <= total <= RECV_MAX_PACKET_LEN
    && (total - k.macsize) % k.cipher.blocksize == 0
  }

  /** Between reads: less than a first block, or a first block, deciphered, and less than the whole packet. */
  ghost predicate Ready(ks: Schedule, r: Rx) {
    var k := ks(r.gen).keys;
    && GoodSchedule(ks) && r.recvseq < SEQ_WRAP
    && (if r.total == 0 then |r.readbuf| < k.cipher.blocksize
        else GoodTotal(k, r.total) && k.cipher.blocksize <= |r.readbuf| < r.total)
  }

  /** The first block deciphered: its clear form, the new state of the cipher, and the length of the whole packet;
      nothing is the exit on a bad packet size. */
  ghost function FirstBlock(k: Keys, state: seq<U8>, block: seq<U8>): (r: Option<(seq<U8>, seq<U8>, nat)>)
    requires GoodKeys(k) && |block| == k.cipher.blocksize
    ensures r.Some? ==> |r.value.0| == k.cipher.blocksize && GoodTotal(k, r.value.2)
  {
    OneBlock(k.cipher.blocksize);
    DecryptLength(k.cipher, state, block);
    var (clear, next) := Crypt(k.cipher.dec, k.cipher.blocksize, state, block);
    var total := Big(clear[..4]) + 4 + k.macsize;
    if GoodTotal(k, total) then Some((clear, next, total)) else None
  }

  /** The payload of a clear packet with n bytes before its MAC, if its padding leaves one. */
  function PayloadOf(clear: seq<U8>): Option<seq<U8>>
    requires |clear| >= MIN_PACKET_LEN
  {
    var len := |clear| - PACKET_PAYLOAD_OFF - clear[4] as int;
    if 1 <= len <= RECV_MAX_PAYLOAD_LEN + ZLIB_COMPRESS_EXPANSION
    then Some(clear[PACKET_PAYLOAD_OFF..PACKET_PAYLOAD_OFF + len]) else None
  }

  /** The other blocks deciphered: the clear packet and the new state. */
  ghost function OtherBlocks(k: Keys, r: Rx): (p: (seq<U8>, seq<U8>))
    requires GoodKeys(k) && GoodTotal(k, r.total) && |r.readbuf| == r.total
    ensures |p.0| == r.total - k.macsize
  {
    var bs, n := k.cipher.blocksize, r.total - k.macsize;
    ModSmaller(n, bs);
    DecryptLength(k.cipher, r.cipherState, r.readbuf[bs..n]);
    var (rest, state) := Crypt(k.cipher.dec, bs, r.cipherState, r.readbuf[bs..n]);
    (r.readbuf[..bs] + rest, state)
  }

  /** A packet that is all there: its payload and the new state, or nothing for a wrong MAC or a bad padding length. */
  ghost function Checked(k: Keys, r: Rx): Option<(seq<U8>, seq<U8>)>
    requires GoodKeys(k) && GoodTotal(k, r.total) && |r.readbuf| == r.total && r.recvseq < SEQ_WRAP
  {
    var (clear, state) := OtherBlocks(k, r);
    if r.readbuf[|clear|..] != MakeMac(k, r.recvseq, clear) || PayloadOf(clear).None? then None
    else Some((PayloadOf(clear).value, state))
  }

  /** A packet delivered; after NEWKEYS, which is processed before anything more is read, the keys are the next ones. */
  function Passed(ks: Schedule, r: Rx, payload: seq<U8>, state: seq<U8>): Rx {
    var switch := IsNewkeys(payload);
    Rx(if switch then r.gen + 1 else r.gen, if switch then ks(r.gen + 1).iv else state, (r.recvseq + 1) % SEQ_WRAP, [],
       0, r.delivered + [payload], r.seen + [(r.gen, r.recvseq)])
  }

  ghost function Finished(ks: Schedule, r: Rx): (f: Option<Rx>)
    requires GoodSchedule(ks) && GoodTotal(ks(r.gen).keys, r.total) && r.recvseq < SEQ_WRAP
    requires ks(r.gen).keys.cipher.blocksize <= |r.readbuf| <= r.total
    ensures f.Some? ==> Ready(ks, f.value)
  {
    if |r.readbuf| < r.total then Some(r)
    else
      match Checked(ks(r.gen).keys, r)
      case None => None
      case Some((payload, state)) => Some(Passed(ks, r, payload, state))
  }

  /** A first block that is all there. */
  ghost function Opened(ks: Schedule, r: Rx): (f: Option<Rx>)
    requires GoodSchedule(ks) && r.recvseq < SEQ_WRAP && |r.readbuf| == ks(r.gen).keys.cipher.blocksize
    ensures f.Some? ==> Ready(ks, f.value)
  {
    match FirstBlock(ks(r.gen).keys, r.cipherState, r.readbuf)
    case None => None
    case Some((clear, state, total)) => Finished(ks, r.(readbuf := clear, cipherState := state, total := total))
  }

  /** One more byte; nothing is an exit. */
  ghost function Fed(ks: Schedule, r: Rx, b: U8): (f: Option<Rx>)
    requires Ready(ks, r)
    ensures f.Some? ==> Ready(ks, f.value)
  {
    var r1 := r.(readbuf := r.readbuf + [b]);
    if r.total > 0 then Finished(ks, r1)
    else if |r1.readbuf| < ks(r.gen).keys.cipher.blocksize then Some(r1)
    else Opened(ks, r1)
  }

  /** The receiver after any bytes. */
  ghost function After(ks: Schedule, bytes: seq<U8>): (r: Option<Rx>)
    requires GoodSchedule(ks)
    ensures r.Some? ==> Ready(ks, r.value)
    decreases |bytes|
  {
    if bytes == [] then Some(Begun(ks))
    else
      match After(ks, bytes[..|bytes| - 1])
      case None => None
      case Some(r) => Fed(ks, r, bytes[|bytes| - 1])
  }

  // -- The receiver in place --

  lemma AfterNext(ks: Schedule, bytes: seq<U8>, b: U8)
    requires GoodSchedule(ks) && After(ks, bytes).Some?
    ensures After(ks, bytes + [b]) == Fed(ks, After(ks, bytes).value, b)
  {
    assert (bytes + [b])[..|bytes|] == bytes;
  }

  /** Bytes that complete neither a first block nor a packet are just kept. */
  lemma {:induction false} AfterMore(ks: Schedule, bytes: seq<U8>, more: seq<U8>)
    requires GoodSchedule(ks) && After(ks, bytes).Some?
    requires var r := After(ks, bytes).value;
             |r.readbuf| + |more| < if r.total > 0 then r.total else ks(r.gen).keys.cipher.blocksize
    ensures var r := After(ks, bytes).value;
            After(ks, bytes + more) == Some(r.(readbuf := r.readbuf + more))
    decreases |more|
  {
    hide After, FirstBlock, Checked, GoodTotal;
    var r := After(ks, bytes).value;
    if more == [] {
      assert bytes + more == bytes && r.readbuf + more == r.readbuf;
    } else {
      var n := |more| - 1;
      AfterMore(ks, bytes, more[..n]);
      AfterNext(ks, bytes + more[..n], more[n]);
      assert bytes + more == bytes + more[..n] + [more[n]];
      assert r.readbuf + more == r.readbuf + more[..n] + [more[n]];
    }
  }

  /** The bytes that complete a first block or a packet. */
  lemma AfterLast(ks: Schedule, bytes: seq<U8>, more: seq<U8>)
    requires GoodSchedule(ks) && After(ks, bytes).Some? && more != []
    requires var r := After(ks, bytes).value;
             |r.readbuf| + |more| == if r.total > 0 then r.total else ks(r.gen).keys.cipher.blocksize
    ensures var r := After(ks, bytes).value;
            var r1 := r.(readbuf := r.readbuf + more);
            After(ks, bytes + more) == if r.total > 0 then Finished(ks, r1) else Opened(ks, r1)
  {
    hide After, FirstBlock, Checked, GoodTotal, Finished, Opened;
    var r, n := After(ks, bytes).value, |more| - 1;
    AfterMore(ks, bytes, more[..n]);
    AfterNext(ks, bytes + more[..n], more[n]);
    assert bytes + more == bytes + more[..n] + [more[n]];
    assert r.readbuf + more == r.readbuf + more[..n] + [more[n]];
  }

  /** A length that wraps around is refused like any other that is too long. */
  lemma NotFooled(k: Keys, n: nat)
    requires GoodKeys(k) && n < 0x1_0000_0000
    ensures var total := n + 4 + k.macsize;
            && (GoodTotal(k, total % 0x1_0000_0000) <==> GoodTotal(k, total))
            && (GoodTotal(k, total) ==> total % 0x1_0000_0000 == total)
  {
    var total := n + 4 + k.macsize;
    if total >= 0x1_0000_0000 { DivUnique(total, 0x1_0000_0000, 1, total - 0x1_0000_0000); }
  }

  class Receiver {
    const schedule: Schedule
    /** ses.keys->recv, and how often it has been switched. */
    var keys: Keys
    var gen: nat
    var cipherState: seq<U8>
    var recvseq: nat
    /** ses.readbuf up to its position, and its length once that is known. */
    var readbuf: seq<U8>
    var total: nat
    /** How many bytes have been read off the wire, and the payloads delivered. */
    var taken: nat
    var delivered: seq<seq<U8>>
    /** Which keys and which sequence number each packet was deciphered with. */
    var seen: seq<(nat, nat)>

    function Value(): Rx
      reads this
    {
      Rx(gen, cipherState, recvseq, readbuf, total, delivered, seen)
    }

    /** The state is what the bytes taken so far lead to. */
    ghost predicate Valid(wire: seq<U8>)
      reads this
    {
      && GoodSchedule(schedule) && keys == schedule(gen).keys && taken <= |wire|
      && After(schedule, wire[..taken]) == Some(Value())
    }

    constructor (schedule: Schedule)
      requires GoodSchedule(schedule)
      ensures this.schedule == schedule && taken == 0 && Value() == Begun(schedule) && Valid([])
    {
      this.schedule, keys, gen, cipherState, recvseq := schedule, schedule(0).keys, 0, schedule(0).iv, 0;
      readbuf, total, taken, delivered, seen := [], 0, 0, [], [];
    }

    /** What a read gives: the next bytes of the wire, at most max of them and as many as are ready. */
    method Read(wire: seq<U8>, max: nat, ready: nat) returns (got: seq<U8>)
      requires taken <= |wire|
      modifies this`taken
      ensures taken <= |wire| && taken == old(taken) + |got| && |got| <= max && got == wire[old(taken)..taken]
      ensures max > 0 && ready > 0 && old(taken) < |wire| ==> got != []
    {
      var n := if max < ready then max else ready;
      n := if n < |wire| - taken then n else |wire| - taken;
      got := wire[taken..taken + n];
      taken := taken + n;
    }

    /** The second part of read_packet_init: the first block is deciphered and tells the length; false is the exit on
        a bad packet size. The checks are made in 32-bit arithmetic. */
    method FindLength() returns (ok: bool)
      requires GoodKeys(keys) && |readbuf| == keys.cipher.blocksize
      modifies this`readbuf, this`cipherState, this`total
      ensures var f := FirstBlock(keys, old(cipherState), old(readbuf));
              (ok <==> f.Some?) && (ok ==> f.value == (readbuf, cipherState, total))
    {
      hide Crypt, Get32, Big;
      var blocksize, macsize := keys.cipher.blocksize, keys.macsize;
      OneBlock(blocksize);
      DecryptLength(keys.cipher, cipherState, readbuf);
      var (clear, state) := Crypt(keys.cipher.dec, blocksize, cipherState, readbuf);
      cipherState := state;
      readbuf := clear;
      GetIsBig(readbuf[..4]);
      NotFooled(keys, Get32(readbuf[..4]));
      var len := (Get32(readbuf[..4]) + 4 + macsize) % 0x1_0000_0000;
      ok := !(len > RECV_MAX_PACKET_LEN || len < MIN_PACKET_LEN + macsize || (len - macsize) % blocksize != 0);
      total := len;
    }

    /** The other blocks of a packet that is all there are deciphered, and the MAC is checked. */
    method Decipher() returns (ok: bool)
      requires GoodKeys(keys) && GoodTotal(keys, total) && |readbuf| == total && recvseq < SEQ_WRAP
      modifies this`readbuf, this`cipherState
      ensures var clear := OtherBlocks(keys, old(Value())).0;
              && readbuf == clear + old(readbuf)[|clear|..] && cipherState == OtherBlocks(keys, old(Value())).1
              && (ok <==> old(readbuf)[|clear|..] == MakeMac(keys, recvseq, clear))
    {
      hide Crypt, MakeMac;
      var blocksize, macsize := keys.cipher.blocksize, keys.macsize;
      var contents := total - macsize;
      ghost var (clear, next) := OtherBlocks(keys, Value());
      var (rest, state) := Crypt(keys.cipher.dec, blocksize, cipherState, readbuf[blocksize..contents]);
      cipherState := state;
      assert clear == readbuf[..blocksize] + rest && next == state;
      readbuf := readbuf[..blocksize] + rest + readbuf[contents..];
      assert readbuf[..contents] == clear && readbuf[contents..] == old(readbuf)[contents..];
      ok := MakeMac(keys, recvseq, readbuf[..contents]) == readbuf[contents..];
    }

    /** decrypt_packet up to the payload; false is an exit for a wrong MAC or a bad packet size. */
    method Unpack() returns (ok: bool, payload: seq<U8>)
      requires GoodKeys(keys) && GoodTotal(keys, total) && |readbuf| == total && recvseq < SEQ_WRAP
      modifies this`readbuf, this`cipherState
      ensures var c := Checked(keys, old(Value()));
              (ok <==> c.Some?) && (ok ==> c.value == (payload, cipherState))
    {
      hide OtherBlocks, MakeMac;
      payload := [];
      ghost var clear := OtherBlocks(keys, Value()).0;
      ok := Decipher();
      if !ok { return; }
      var padlen := readbuf[4] as int;
      var len := (total - padlen - 4 - 1 - keys.macsize) % 0x1_0000_0000;
      if len > RECV_MAX_PAYLOAD_LEN + ZLIB_COMPRESS_EXPANSION || len < 1 { return false, []; }
      payload := readbuf[PACKET_PAYLOAD_OFF..PACKET_PAYLOAD_OFF + len];
      assert payload == clear[PACKET_PAYLOAD_OFF..PACKET_PAYLOAD_OFF + len];
    }

    /** The end of decrypt_packet. */
    method Deliver(payload: seq<U8>)
      requires keys == schedule(gen).keys
      modifies this`readbuf, this`cipherState, this`total, this`recvseq, this`delivered, this`keys, this`gen, this`seen
      ensures Value() == Passed(schedule, old(Value()), payload, old(cipherState)) && keys == schedule(gen).keys
    {
      seen := seen + [(gen, recvseq)];
      delivered := delivered + [payload];
      readbuf, total := [], 0;
      recvseq := (recvseq + 1) % SEQ_WRAP;
      if IsNewkeys(payload) {
        gen := gen + 1;
        keys, cipherState := schedule(gen).keys, schedule(gen).iv;
      }
    }

    /** The length is known, and the bytes taken lead to what finishing the packet gives, if it is all there. */
    ghost predicate Underway(wire: seq<U8>)
      reads this
    {
      && GoodSchedule(schedule) && keys == schedule(gen).keys && taken <= |wire| && recvseq < SEQ_WRAP
      && GoodTotal(keys, total) && keys.cipher.blocksize <= |readbuf| <= total
      && After(schedule, wire[..taken]) == Finished(schedule, Value())
    }

    /** decrypt_packet, once the whole packet is there. */
    method DecryptPacket(wire: seq<U8>) returns (ok: bool)
      requires Underway(wire) && |readbuf| == total
      modifies this`readbuf, this`cipherState, this`total, this`recvseq, this`delivered, this`keys, this`gen, this`seen
      ensures (ok <==> After(schedule, wire[..taken]).Some?) && (ok ==> Valid(wire))
    {
      hide After, Checked;
      var payload;
      ok, payload := Unpack();
      if ok { Deliver(payload); }
    }

    /** read_packet_init. */
    method ReadPacketInit(wire: seq<U8>, ready: nat) returns (known: bool, ok: bool)
      requires Valid(wire) && total == 0
      modifies this`taken, this`readbuf, this`cipherState, this`total
      ensures old(taken) <= taken <= |wire| && (ready > 0 && old(taken) < |wire| ==> old(taken) < taken)
      ensures if known then ok && Underway(wire)
              else (ok <==> After(schedule, wire[..taken]).Some?) && (ok ==> Valid(wire))
    {
      hide After, FirstBlock, Finished;
      ghost var bytes := wire[..taken];
      var maxlen := keys.cipher.blocksize - |readbuf|;
      var got := Read(wire, maxlen, ready);
      assert wire[..taken] == bytes + got;
      readbuf := readbuf + got;
      if |got| != maxlen {
        AfterMore(schedule, bytes, got);
        return false, true;
      }
      AfterLast(schedule, bytes, got);
      ok := FindLength();
      known := ok;
    }

    /** The second part of read_packet: the rest of the packet as far as it is there. */
    method ReadRest(wire: seq<U8>, ready: nat) returns (whole: bool)
      requires Underway(wire)
      modifies this`taken, this`readbuf
      ensures Underway(wire) && old(taken) <= taken && (whole <==> |readbuf| == total)
      ensures ready > 0 && old(taken) < |wire| && |old(readbuf)| < total ==> old(taken) < taken
    {
      hide After, Checked, GoodTotal, Passed;
      ghost var bytes, r := wire[..taken], Value();
      var maxlen := total - |readbuf|;
      var got := Read(wire, maxlen, ready);
      assert wire[..taken] == bytes + got;
      if |got| < maxlen {
        AfterMore(schedule, bytes, got);
      } else if maxlen > 0 {
        AfterLast(schedule, bytes, got);
      } else {
        assert bytes + got == bytes && readbuf + got == readbuf;
      }
      readbuf := readbuf + got;
      whole := |got| == maxlen;
    }

    /** read_packet with the bytes that two reads find ready; false is an exit. For any bytes on the wire the outcome is
        what the bytes taken lead to, whatever pieces they came in. */
    method ReadPacket(wire: seq<U8>, ready1: nat, ready2: nat) returns (ok: bool)
      requires Valid(wire)
      modifies this
      ensures old(taken) <= taken <= |wire|
      ensures (ok <==> After(schedule, wire[..taken]).Some?) && (ok ==> Valid(wire))
      ensures ready1 > 0 && ready2 > 0 && old(taken) < |wire| ==> old(taken) < taken
    {
      hide After, FirstBlock, Checked, GoodTotal, Passed;
      if total == 0 {
        var known;
        known, ok := ReadPacketInit(wire, ready1);
        if !known { return; }
      }
      var whole := ReadRest(wire, ready2);
      ok := true;
      if whole { ok := DecryptPacket(wire); }
    }
  }

  // -- What is delivered, whatever comes --

  /** How many NEWKEYS there are. */
  function Newkeys(ps: seq<seq<U8>>): nat {
    if ps == [] then 0 else Newkeys(ps[..|ps| - 1]) + if IsNewkeys(ps[|ps| - 1]) then 1 else 0
  }

  /** The bytes f are a packet with this payload: deciphered from this state they say their own length, the MAC of the
      number and the clear packet follows, and the cipher is then in the state next. */
  ghost predicate Authentic(k: Keys, state: seq<U8>, seqno: nat, f: seq<U8>, payload: seq<U8>, next: seq<U8>) {
    && GoodTotal(k, |f|) && seqno < SEQ_WRAP
    && var n := |f| - k.macsize;
       var (clear, last) := Crypt(k.cipher.dec, k.cipher.blocksize, state, f[..n]);
       && |clear| == n && Big(clear[..4]) + 4 == n && f[n..] == k.mac(Put32(seqno) + clear)
       && PayloadOf(clear) == Some(payload) && next == last
  }

  /** Taking the first block and the others apart from it accepts exactly the authentic packets. */
  lemma CheckedExactly(k: Keys, state: seq<U8>, r: Rx, f: seq<U8>, payload: seq<U8>, next: seq<U8>)
    requires GoodKeys(k) && r.recvseq < SEQ_WRAP && |f| == r.total && k.cipher.blocksize <= |f|
    requires var bs := k.cipher.blocksize;
             var b := FirstBlock(k, state, f[..bs]);
             b.Some? && |r.readbuf| == r.total && b.value == (r.readbuf[..bs], r.cipherState, r.total)
                 && r.readbuf[bs..] == f[bs..]
    ensures Checked(k, r) == Some((payload, next)) <==> Authentic(k, state, r.recvseq, f, payload, next)
  {
    hide Crypt, Put32, Big, PayloadOf;
    var bs, n := k.cipher.blocksize, r.total - k.macsize;
    OneBlock(bs);
    CryptSplit(k.cipher.dec, bs, state, f[..bs], f[bs..n]);
    assert f[..n] == f[..bs] + f[bs..n];
    SameTail(r.readbuf, f, bs, n);
    var clear := OtherBlocks(k, r).0;
    assert clear[..4] == r.readbuf[..bs][..4];
  }

  lemma SameTail(a: seq<U8>, b: seq<U8>, i: nat, j: nat)
    requires i <= j <= |a| == |b| && a[i..] == b[i..]
    ensures a[i..j] == b[i..j] && a[j..] == b[j..]
  {
    assert a[i..j] == a[i..][..j - i] && b[i..j] == b[i..][..j - i];
    assert a[j..] == a[i..][j - i..] && b[j..] == b[i..][j - i..];
  }

  /** Where a delivered packet lies among the bytes, and the states of the cipher before and after it. */
  datatype Entry = Entry(start: nat, end: nat, before: seq<U8>, after: seq<U8>)

  function StartOfNext(log: seq<Entry>): nat { if log == [] then 0 else log[|log| - 1].end }

  /** The state of the cipher for the packet after these: that of the last, or the initial one of new keys. */
  function StateForNext(ks: Schedule, ps: seq<seq<U8>>, log: seq<Entry>): seq<U8>
    requires |ps| == |log|
  {
    if log == [] then ks(0).iv
    else if IsNewkeys(ps[|ps| - 1]) then ks(Newkeys(ps)).iv
    else log[|log| - 1].after
  }

  /** Packet i lies behind those before it and is authentic with the keys, the state and the number of its place. */
  ghost predicate EntryOk(ks: Schedule, bytes: seq<U8>, ps: seq<seq<U8>>, log: seq<Entry>, i: nat)
    requires |ps| == |log| && i < |log|
  {
    var e := log[i];
    && e.start == StartOfNext(log[..i]) && e.start <= e.end <= |bytes|
    && e.before == StateForNext(ks, ps[..i], log[..i])
    && Authentic(ks(Newkeys(ps[..i])).keys, e.before, i % SEQ_WRAP, bytes[e.start..e.end], ps[i], e.after)
  }

  ghost predicate AllAuthentic(ks: Schedule, bytes: seq<U8>, ps: seq<seq<U8>>, log: seq<Entry>) {
    |ps| == |log| && forall i :: 0 <= i < |log| ==> EntryOk(ks, bytes, ps, log, i)
  }

  /** Each packet was deciphered with the keys that the NEWKEYS before it lead to, and with its number. */
  ghost predicate InPlace(seen: seq<(nat, nat)>, ps: seq<seq<U8>>) {
    |seen| <= |ps| && forall i :: 0 <= i < |seen| ==> seen[i] == (Newkeys(ps[..i]), i % SEQ_WRAP)
  }

  /** The packet under way: raw is what has come of it. */
  ghost predicate Partial(k: Keys, state: seq<U8>, r: Rx, raw: seq<U8>)
    requires GoodKeys(k)
  {
    if r.total == 0 then r.readbuf == raw && r.cipherState == state
    else
      var bs := k.cipher.blocksize;
      && bs <= |raw| == |r.readbuf| && r.readbuf[bs..] == raw[bs..]
      && FirstBlock(k, state, raw[..bs]) == Some((r.readbuf[..bs], r.cipherState, r.total))
  }

  ghost predicate Logged(ks: Schedule, bytes: seq<U8>, r: Rx, log: seq<Entry>)
    requires GoodSchedule(ks)
  {
    && |log| == |r.delivered| == |r.seen| && AllAuthentic(ks, bytes, r.delivered, log)
    && InPlace(r.seen, r.delivered)
    && r.gen == Newkeys(r.delivered) && r.recvseq == |log| % SEQ_WRAP && StartOfNext(log) <= |bytes|
    && Partial(ks(r.gen).keys, StateForNext(ks, r.delivered, log), r, bytes[StartOfNext(log)..])
  }

  lemma PartialNext(k: Keys, state: seq<U8>, r: Rx, raw: seq<U8>, b: U8)
    requires GoodKeys(k) && Partial(k, state, r, raw)
    ensures Partial(k, state, r.(readbuf := r.readbuf + [b]), raw + [b])
  {
    hide FirstBlock;
    if r.total > 0 {
      var bs := k.cipher.blocksize;
      assert (raw + [b])[..bs] == raw[..bs] && (r.readbuf + [b])[..bs] == r.readbuf[..bs];
    }
  }

  lemma MoreBytes(ks: Schedule, bytes: seq<U8>, b: U8, ps: seq<seq<U8>>, log: seq<Entry>)
    requires AllAuthentic(ks, bytes, ps, log)
    ensures AllAuthentic(ks, bytes + [b], ps, log)
  {
    hide Authentic, Newkeys;
    forall i | 0 <= i < |log| ensures EntryOk(ks, bytes + [b], ps, log, i) {
      assert EntryOk(ks, bytes, ps, log, i);
      assert (bytes + [b])[log[i].start..log[i].end] == bytes[log[i].start..log[i].end];
    }
  }

  lemma MorePackets(ks: Schedule, bytes: seq<U8>, ps: seq<seq<U8>>, log: seq<Entry>, p: seq<U8>, e: Entry)
    requires AllAuthentic(ks, bytes, ps, log)
    requires e.start == StartOfNext(log) <= e.end <= |bytes| && e.before == StateForNext(ks, ps, log)
    requires Authentic(ks(Newkeys(ps)).keys, e.before, |log| % SEQ_WRAP, bytes[e.start..e.end], p, e.after)
    ensures AllAuthentic(ks, bytes, ps + [p], log + [e])
  {
    hide Authentic, Newkeys;
    var qs, more := ps + [p], log + [e];
    forall i | 0 <= i < |more| ensures EntryOk(ks, bytes, qs, more, i) {
      assert qs[..i] == ps[..i] && more[..i] == log[..i];
      if i < |log| {
        assert EntryOk(ks, bytes, ps, log, i);
      } else {
        assert ps[..i] == ps && log[..i] == log;
      }
    }
  }

  lemma NewkeysNext(ps: seq<seq<U8>>, p: seq<U8>)
    ensures Newkeys(ps + [p]) == Newkeys(ps) + if IsNewkeys(p) then 1 else 0
  {
    assert (ps + [p])[..|ps|] == ps;
  }

  lemma SeenNext(r: Rx, ks: Schedule, p: seq<U8>, state: seq<U8>)
    requires |r.seen| == |r.delivered| && InPlace(r.seen, r.delivered)
    requires r.gen == Newkeys(r.delivered) && r.recvseq == |r.delivered| % SEQ_WRAP
    ensures InPlace(Passed(ks, r, p, state).seen, Passed(ks, r, p, state).delivered)
  {
    hide Newkeys;
    var d := Passed(ks, r, p, state).delivered;
    assert forall i :: 0 <= i <= |r.delivered| ==> d[..i] == r.delivered[..i];
    assert r.delivered[..|r.delivered|] == r.delivered;
  }

  /** A packet that is all there, or still under way. */
  lemma FinishedLogged(ks: Schedule, bytes: seq<U8>, r: Rx, log: seq<Entry>) returns (log1: seq<Entry>)
    requires GoodSchedule(ks) && r.recvseq < SEQ_WRAP && GoodTotal(ks(r.gen).keys, r.total)
    requires ks(r.gen).keys.cipher.blocksize <= |r.readbuf| <= r.total
    requires Logged(ks, bytes, r, log) && Finished(ks, r).Some?
    ensures Logged(ks, bytes, Finished(ks, r).value, log1)
  {
    hide FirstBlock, Checked, Authentic, AllAuthentic, InPlace, Newkeys;
    log1 := log;
    if |r.readbuf| == r.total {
      var k, start, before := ks(r.gen).keys, StartOfNext(log), StateForNext(ks, r.delivered, log);
      var (p, state) := Checked(k, r).value;
      CheckedExactly(k, before, r, bytes[start..], p, state);
      var e := Entry(start, |bytes|, before, state);
      assert bytes[start..|bytes|] == bytes[start..];
      MorePackets(ks, bytes, r.delivered, log, p, e);
      SeenNext(r, ks, p, state);
      NewkeysNext(r.delivered, p);
      SeqNext(|log|);
      log1 := log + [e];
    }
  }

  /** Whatever bytes come: everything delivered came in authentic packets, one behind the other from the first byte on,
      each under the keys that the NEWKEYS before it lead to and with its number. */
  lemma {:induction false} OnlyAuthentic(ks: Schedule, bytes: seq<U8>) returns (log: seq<Entry>)
    requires GoodSchedule(ks) && After(ks, bytes).Some?
    ensures Logged(ks, bytes, After(ks, bytes).value, log)
    decreases |bytes|
  {
    hide FirstBlock, Finished, AllAuthentic, InPlace, Newkeys, GoodTotal;
    log := [];
    if bytes == [] {
      NothingYet(ks);
    } else {
      var n := |bytes| - 1;
      log := OnlyAuthentic(ks, bytes[..n]);
      MoreBytes(ks, bytes[..n], bytes[n], After(ks, bytes[..n]).value.delivered, log);
      assert bytes == bytes[..n] + [bytes[n]];
      log := FedLogged(ks, bytes, After(ks, bytes[..n]).value, log);
    }
  }

  lemma NothingYet(ks: Schedule)
    requires GoodSchedule(ks)
    ensures Logged(ks, [], Begun(ks), [])
  {
  }

  lemma FedLogged(ks: Schedule, bytes: seq<U8>, r: Rx, log: seq<Entry>) returns (log1: seq<Entry>)
    requires bytes != [] && Ready(ks, r) && Fed(ks, r, bytes[|bytes| - 1]).Some?
    requires Logged(ks, bytes[..|bytes| - 1], r, log) && AllAuthentic(ks, bytes, r.delivered, log)
    ensures Logged(ks, bytes, Fed(ks, r, bytes[|bytes| - 1]).value, log1)
  {
    hide FirstBlock, Finished, AllAuthentic, InPlace, Newkeys, GoodTotal;
    var n, start := |bytes| - 1, StartOfNext(log);
    var r1 := r.(readbuf := r.readbuf + [bytes[n]]);
    assert bytes[start..] == bytes[..n][start..] + [bytes[n]];
    PartialNext(ks(r.gen).keys, StateForNext(ks, r.delivered, log), r, bytes[..n][start..], bytes[n]);
    if r.total > 0 {
      log1 := FinishedLogged(ks, bytes, r1, log);
    } else if |r1.readbuf| < ks(r.gen).keys.cipher.blocksize {
      log1 := log;
    } else {
      var k := ks(r.gen).keys;
      var (clear, state, total) := FirstBlock(k, r.cipherState, r1.readbuf).value;
      var r2 := r1.(readbuf := clear, cipherState := state, total := total);
      OpenedPartial(k, r.cipherState, r2, r1.readbuf);
      log1 := FinishedLogged(ks, bytes, r2, log);
    }
  }

  lemma OpenedPartial(k: Keys, state: seq<U8>, r: Rx, raw: seq<U8>)
    requires GoodKeys(k) && |raw| == k.cipher.blocksize
    requires FirstBlock(k, state, raw) == Some((r.readbuf, r.cipherState, r.total))
    ensures Partial(k, state, r, raw) && GoodTotal(k, r.total) && k.cipher.blocksize == |r.readbuf| <= r.total
  {
    hide Crypt, Big;
    assert raw[..k.cipher.blocksize] == raw && r.readbuf[..k.cipher.blocksize] == r.readbuf;
  }

  /** A receiver on any bytes, read in pieces of any size: it exits or goes on as the bytes it has taken say, and has
      delivered nothing but what came in authentic packets. */
  method Listen(schedule: Schedule, wire: seq<U8>, ready: seq<(nat, nat)>)
    returns (r: Receiver, ok: bool, ghost log: seq<Entry>)
    requires GoodSchedule(schedule)
    ensures r.schedule == schedule && r.taken <= |wire| && (ok <==> After(schedule, wire[..r.taken]).Some?)
    ensures ok ==> AllAuthentic(schedule, wire[..r.taken], r.delivered, log)
    ensures ok ==> |r.seen| == |r.delivered| && InPlace(r.seen, r.delivered)
  {
    hide After, AllAuthentic, InPlace;
    r := new Receiver(schedule);
    log := [];
    assert wire[..0] == [];
    ok := true;
    var i := 0;
    while i < |ready| && ok
      invariant i <= |ready| && fresh(r) && r.schedule == schedule && r.taken <= |wire|
      invariant ok <==> After(schedule, wire[..r.taken]).Some?
      invariant ok ==> r.Valid(wire)
    {
      ok := r.ReadPacket(wire, ready[i].0, ready[i].1);
      i := i + 1;
    }
    if ok { log := OnlyAuthentic(schedule, wire[..r.taken]); }
  }

  // -- What a sender wrote --

  /** What a sender makes of a payload is authentic. */
  lemma FrameAuthentic(k: Keys, state: seq<U8>, seqno: nat, payload: seq<U8>, pad: seq<U8>)
    requires GoodKeys(k) && GoodPayload(payload) && GoodPad(k, payload, pad) && seqno < SEQ_WRAP
    ensures var (f, next) := Frame(k, state, seqno, payload, pad);
            && Authentic(k, state, seqno, f, payload, next) && k.cipher.blocksize <= |f|
            && FirstBlock(k, state, f[..k.cipher.blocksize]).Some?
            && FirstBlock(k, state, f[..k.cipher.blocksize]).value.2 == |f|
  {
    hide Crypt, Clear, Get32, Put32, Big, PadLen;
    Padded(PACKET_PAYLOAD_OFF + |payload|, k.cipher.blocksize);
    var n, clear := k.cipher.blocksize, Clear(payload, pad);
    FrameParts(k, state, seqno, payload, pad);
    ClearFields(payload, pad, n);
    GetIsBig(clear[..n][..4]);
    assert clear[..n][..4] == clear[..4];
    var (f, next) := Frame(k, state, seqno, payload, pad);
    DecryptUndoes(k.cipher, state, clear);
    assert f[..|clear|] == Crypt(k.cipher.enc, n, state, clear).0;
  }

  /** Packet number i of a stream, the cipher's state before it, and where it begins. */
  ghost function NthFrame(ks: Schedule, ms: seq<Msg>, i: nat): (seq<U8>, seq<U8>)
    requires GoodMsgs(ks, ms) && i < |ms|
  {
    GoodAt(ks, ms, i);
    Frame(KeysFor(ks, ms[..i]), StateAt(ks, ms, i), i % SEQ_WRAP, ms[i].payload, ms[i].pad)
  }

  ghost function StateAt(ks: Schedule, ms: seq<Msg>, i: nat): seq<U8>
    requires GoodMsgs(ks, ms) && i <= |ms|
  {
    GoodAt(ks, ms, i);
    Stream(ks, ms[..i]).1
  }

  ghost function StartOf(ks: Schedule, ms: seq<Msg>, i: nat): nat
    requires GoodMsgs(ks, ms) && i <= |ms|
  {
    GoodAt(ks, ms, i);
    |Stream(ks, ms[..i]).0|
  }

  /** What follows packet i: the next one begins where it ends, under its keys or under new ones. */
  lemma NextStarts(ks: Schedule, ms: seq<Msg>, i: nat)
    requires GoodMsgs(ks, ms) && i < |ms|
    ensures StartOf(ks, ms, i + 1) == StartOf(ks, ms, i) + |NthFrame(ks, ms, i).0| <= |Stream(ks, ms).0|
    ensures Gen(ms[..i + 1]) == Gen(ms[..i]) + if IsNewkeys(ms[i].payload) then 1 else 0
    ensures StateAt(ks, ms, i + 1) ==
            if IsNewkeys(ms[i].payload) then ks(Gen(ms[..i]) + 1).iv else NthFrame(ks, ms, i).1
    ensures Stream(ks, ms).0[StartOf(ks, ms, i)..StartOf(ks, ms, i + 1)] == NthFrame(ks, ms, i).0
  {
    hide Stream, Frame, Gen;
    FrameInStream(ks, ms, i);
    var bytes, f := Stream(ks, ms[..i]).0, NthFrame(ks, ms, i).0;
    assert (bytes + f)[|bytes|..|bytes| + |f|] == f;
  }

  /** The receiver after the first bytes of a stream: it has delivered the first packets, and the rest of the bytes are
      the beginning of the next. */
  ghost predicate InStep(ks: Schedule, ms: seq<Msg>, bytes: seq<U8>, r: Rx)
    requires GoodSchedule(ks) && GoodMsgs(ks, ms)
  {
    var d := |r.delivered|;
    && d <= |ms| && (forall i :: 0 <= i < d ==> r.delivered[i] == ms[i].payload)
    && r.recvseq == d % SEQ_WRAP && r.gen == Gen(ms[..d]) && StartOf(ks, ms, d) <= |bytes|
    && Partial(ks(r.gen).keys, StateAt(ks, ms, d), r, bytes[StartOf(ks, ms, d)..])
    && (d < |ms| ==> |bytes| < StartOf(ks, ms, d) + |NthFrame(ks, ms, d).0|)
  }

  /** A packet of a stream as the receiver takes it. */
  lemma NthAuthentic(ks: Schedule, ms: seq<Msg>, i: nat)
    requires GoodSchedule(ks) && GoodMsgs(ks, ms) && i < |ms|
    ensures var k, (f, next) := ks(Gen(ms[..i])).keys, NthFrame(ks, ms, i);
            && Authentic(k, StateAt(ks, ms, i), i % SEQ_WRAP, f, ms[i].payload, next) && k.cipher.blocksize <= |f|
            && FirstBlock(k, StateAt(ks, ms, i), f[..k.cipher.blocksize]).Some?
            && FirstBlock(k, StateAt(ks, ms, i), f[..k.cipher.blocksize]).value.2 == |f|
  {
    hide Authentic, FirstBlock, Frame, Stream;
    GoodAt(ks, ms, i);
    FrameAuthentic(ks(Gen(ms[..i])).keys, StateAt(ks, ms, i), i % SEQ_WRAP, ms[i].payload, ms[i].pad);
  }

  /** A packet of a stream that is under way goes on, or is delivered if it is all there. */
  lemma FinishedInStep(ks: Schedule, ms: seq<Msg>, bytes: seq<U8>, r: Rx)
    requires GoodSchedule(ks) && GoodMsgs(ks, ms) && bytes <= Stream(ks, ms).0 && r.recvseq < SEQ_WRAP
    requires var d := |r.delivered|;
             && d < |ms| && (forall i :: 0 <= i < d ==> r.delivered[i] == ms[i].payload)
             && r.recvseq == d % SEQ_WRAP && r.gen == Gen(ms[..d]) && StartOf(ks, ms, d) <= |bytes|
             && Partial(ks(r.gen).keys, StateAt(ks, ms, d), r, bytes[StartOf(ks, ms, d)..])
             && |bytes| <= StartOf(ks, ms, d) + |NthFrame(ks, ms, d).0|
             && r.total == |NthFrame(ks, ms, d).0| && GoodTotal(ks(r.gen).keys, r.total)
             && ks(r.gen).keys.cipher.blocksize <= |r.readbuf| <= r.total
    ensures Finished(ks, r).Some? && InStep(ks, ms, bytes, Finished(ks, r).value)
  {
    hide Authentic, FirstBlock, Checked, Frame, Stream, GoodMsgs, StateAt, StartOf, NthFrame, Gen;
    var d, k := |r.delivered|, ks(r.gen).keys;
    if |r.readbuf| == r.total {
      var (f, next) := NthFrame(ks, ms, d);
      NthAuthentic(ks, ms, d);
      NextStarts(ks, ms, d);
      assert bytes[StartOf(ks, ms, d)..] == f;
      CheckedExactly(k, StateAt(ks, ms, d), r, f, ms[d].payload, next);
      SeqNext(d);
      assert bytes[StartOf(ks, ms, d + 1)..] == [];
      if d + 1 < |ms| { NthAuthentic(ks, ms, d + 1); }
    }
  }

  lemma FedInStep(ks: Schedule, ms: seq<Msg>, bytes: seq<U8>, r: Rx)
    requires Ready(ks, r) && GoodMsgs(ks, ms) && bytes != [] && bytes <= Stream(ks, ms).0
    requires InStep(ks, ms, bytes[..|bytes| - 1], r)
    ensures var f := Fed(ks, r, bytes[|bytes| - 1]); f.Some? && InStep(ks, ms, bytes, f.value)
  {
    hide Authentic, FirstBlock, Checked, Finished, Frame, Stream, GoodMsgs, StateAt, StartOf, NthFrame, Gen, GoodTotal;
    var d, n := |r.delivered|, |bytes| - 1;
    var k, start := ks(r.gen).keys, StartOf(ks, ms, d);
    StreamEnds(ks, ms);
    var r1 := r.(readbuf := r.readbuf + [bytes[n]]);
    assert bytes[start..] == bytes[..n][start..] + [bytes[n]];
    PartialNext(k, StateAt(ks, ms, d), r, bytes[..n][start..], bytes[n]);
    NthAuthentic(ks, ms, d);
    NextStarts(ks, ms, d);
    var f := NthFrame(ks, ms, d).0;
    var bs := k.cipher.blocksize;
    BeginsFrame(Stream(ks, ms).0, bytes, start, f, bs);
    if r.total > 0 {
      FinishedInStep(ks, ms, bytes, r1);
    } else if |r1.readbuf| == bs {
      var (clear, state, total) := FirstBlock(k, r.cipherState, r1.readbuf).value;
      var r2 := r1.(readbuf := clear, cipherState := state, total := total);
      OpenedPartial(k, r.cipherState, r2, r1.readbuf);
      FinishedInStep(ks, ms, bytes, r2);
    }
  }

  lemma BeginsFrame(all: seq<U8>, bytes: seq<U8>, start: nat, f: seq<U8>, bs: nat)
    requires bytes <= all && start + |f| <= |all| && all[start..start + |f|] == f && start <= |bytes| <= start + |f|
    requires bs <= |f|
    ensures bytes[start..] == f[..|bytes| - start] && (|bytes| - start >= bs ==> bytes[start..][..bs] == f[..bs])
  {
    assert forall i :: start <= i < |bytes| ==> bytes[i] == all[i] == all[start..start + |f|][i - start];
  }

  lemma StreamEnds(ks: Schedule, ms: seq<Msg>)
    requires GoodMsgs(ks, ms)
    ensures StartOf(ks, ms, |ms|) == |Stream(ks, ms).0|
  {
    assert ms[..|ms|] == ms;
  }

  /** On the bytes of a stream there is no exit, and the receiver is in step. */
  lemma {:induction false} OnStream(ks: Schedule, ms: seq<Msg>, bytes: seq<U8>)
    requires GoodSchedule(ks) && GoodMsgs(ks, ms) && bytes <= Stream(ks, ms).0
    ensures After(ks, bytes).Some? && InStep(ks, ms, bytes, After(ks, bytes).value)
    decreases |bytes|
  {
    hide Stream, GoodMsgs, Fed, StateAt, NthFrame;
    if bytes == [] {
      StreamBegins(ks, ms);
    } else {
      OnStream(ks, ms, bytes[..|bytes| - 1]);
      FedInStep(ks, ms, bytes, After(ks, bytes[..|bytes| - 1]).value);
    }
  }

  lemma StreamBegins(ks: Schedule, ms: seq<Msg>)
    requires GoodSchedule(ks) && GoodMsgs(ks, ms)
    ensures InStep(ks, ms, [], Begun(ks))
  {
    hide Frame, NthFrame;
    assert ms[..0] == [];
    if ms != [] { NthAuthentic(ks, ms, 0); }
  }

  // -- A whole transfer --

  /** A payload is sent, the socket takes bytes, or the receiver reads, each with any amount ready. */
  datatype Event = Send(payload: seq<U8>) | Write(ready: nat, writev: bool) | Receive(ready1: nat, ready2: nat)

  /** The payloads sent, in order. */
  function Payloads(es: seq<Event>): seq<seq<U8>> {
    if es == [] then [] else Payloads(es[..|es| - 1]) + if es[|es| - 1].Send? then [es[|es| - 1].payload] else []
  }

  ghost predicate SentAll(ms: seq<Msg>, ps: seq<seq<U8>>) {
    |ms| == |ps| && forall i :: 0 <= i < |ms| ==> ms[i].payload == ps[i]
  }

  lemma PayloadsNext(es: seq<Event>, i: nat)
    requires i < |es|
    ensures Payloads(es[..i + 1]) == Payloads(es[..i]) + if es[i].Send? then [es[i].payload] else []
  {
    assert es[..i + 1][..i] == es[..i];
  }

  /** With every byte of the stream read, every packet has been delivered. */
  lemma AllDelivered(ks: Schedule, ms: seq<Msg>, r: Rx)
    requires GoodSchedule(ks) && GoodMsgs(ks, ms) && InStep(ks, ms, Stream(ks, ms).0, r)
    ensures |r.delivered| == |ms|
  {
    hide Stream, Frame, NthFrame, StartOf, StateAt, Gen, FirstBlock;
    if |r.delivered| < |ms| { NextStarts(ks, ms, |r.delivered|); }
  }

  /** One event of a transfer. */
  method Happen(e: Event, s: Sender, r: Receiver, random: nat -> seq<U8>) returns (ok: bool)
    requires s.Valid() && s.schedule == r.schedule && r.Valid(s.wire)
    requires (forall n :: |random(n)| == n) && (e.Send? ==> GoodPayload(e.payload))
    modifies s, r
    ensures ok && s.Valid() && r.Valid(s.wire)
    ensures e.Send? ==>
              |s.ms| == |old(s.ms)| + 1 && s.ms[..|old(s.ms)|] == old(s.ms) && s.ms[|old(s.ms)|].payload == e.payload
    ensures !e.Send? ==> s.ms == old(s.ms)
  {
    hide Stream, Unsent, After, GoodMsgs, Gen, InStep;
    ok := true;
    ghost var wire := s.wire;
    match e
    case Send(payload) =>
      s.EncryptPacket(payload, random);
    case Write(ready, writev) =>
      if s.writequeue != [] {
        if writev { s.WritePacketWritev(ready); } else { s.WritePacketWrite(ready); }
        assert s.wire[..r.taken] == wire[..r.taken];
      }
    case Receive(ready1, ready2) =>
      ok := r.ReadPacket(s.wire, ready1, ready2);
      OnStream(s.schedule, s.ms, s.wire[..r.taken]);
  }

  /** Where a transfer stands when ps have been sent. */
  lemma Standing(s: Sender, r: Receiver, ps: seq<seq<U8>>)
    requires s.Valid() && s.schedule == r.schedule && r.Valid(s.wire) && SentAll(s.ms, ps)
    ensures r.delivered <= ps && |r.seen| == |r.delivered| && InPlace(r.seen, ps)
    ensures s.writequeue == [] && r.taken == |s.wire| ==> r.delivered == ps
    ensures s.writequeueLen == |Unsent(s.writequeue)|
  {
    hide Stream, Unsent, After, GoodMsgs, Gen, AllAuthentic, Newkeys, StartOf, StateAt, NthFrame, Partial;
    var bytes := s.wire[..r.taken];
    OnStream(r.schedule, s.ms, bytes);
    var log := OnlyAuthentic(r.schedule, bytes);
    assert forall i :: 0 <= i < |r.seen| ==> ps[..i] == r.delivered[..i];
    NothingLeft(s.writequeue);
    assert s.writequeue == [] ==> s.wire + [] == s.wire;
    if s.writequeue == [] && r.taken == |s.wire| {
      assert bytes == s.wire;
      AllDelivered(r.schedule, s.ms, r.Value());
    }
  }

  /** For any payloads, any keys to switch to after each NEWKEYS, with any block size of a cipher and any size of a MAC,
      any sizes of the pieces written and any sizes of the pieces read, nobody exits, the payloads arrive unchanged and
      in order, each deciphered with the keys of its place, and all of them once all bytes are written and read. */
  method Transfer(schedule: Schedule, events: seq<Event>, random: nat -> seq<U8>)
    returns (s: Sender, r: Receiver, ok: bool)
    requires GoodSchedule(schedule) && forall n :: |random(n)| == n
    requires forall i :: 0 <= i < |events| && events[i].Send? ==> GoodPayload(events[i].payload)
    ensures ok && r.delivered <= Payloads(events) && |r.seen| == |r.delivered| && InPlace(r.seen, Payloads(events))
    ensures s.writequeue == [] && r.taken == |s.wire| ==> r.delivered == Payloads(events)
    ensures s.writequeueLen == |Unsent(s.writequeue)| && s.schedule == r.schedule == schedule
  {
    hide Stream, Unsent, Payloads, Receiver.Valid, Sender.Valid, SentAll, After, InPlace;
    s := new Sender(schedule);
    r := new Receiver(schedule);
    ok := true;
    NoPayloads(events);
    for i := 0 to |events|
      invariant fresh(s) && fresh(r) && s.schedule == r.schedule == schedule
      invariant ok && s.Valid() && r.Valid(s.wire) && SentAll(s.ms, Payloads(events[..i]))
    {
      PayloadsNext(events, i);
      ghost var was := s.ms;
      ok := Happen(events[i], s, r, random);
      SentNext(was, s.ms, Payloads(events[..i]), events[i]);
    }
    assert events[..|events|] == events;
    Standing(s, r, Payloads(events));
  }

  lemma SentNext(was: seq<Msg>, ms: seq<Msg>, ps: seq<seq<U8>>, e: Event)
    requires SentAll(was, ps)
    requires e.Send? ==> |ms| == |was| + 1 && ms[..|was|] == was && ms[|was|].payload == e.payload
    requires !e.Send? ==> ms == was
    ensures SentAll(ms, ps + if e.Send? then [e.payload] else [])
  {
    assert e.Send? ==> forall i :: 0 <= i < |was| ==> ms[i] == ms[..|was|][i];
  }

  lemma NoPayloads(es: seq<Event>)
    ensures es[..0] == [] && Payloads([]) == [] && SentAll([], [])
  {
  }

  lemma NothingLeft(q: seq<Buffer>)
    ensures q == [] ==> Unsent(q) == []
  {
  }
}
